/** NUL-terminated character buffers, as the console's C code keeps them. */
module CString {
  const Nul: char := 0 as char

  /** The C string a buffer holds: its characters before the first NUL. */
  function UpToNul(s: seq<char>): (r: seq<char>)
    ensures Nul !in r
    ensures |r| <= |s| && r == s[..|r|]
    ensures |r| < |s| ==> s[|r|] == Nul
  {
    if s == [] || s[0] == Nul then [] else [s[0]] + UpToNul(s[1..])
  }

  /** Characters that hold no NUL pass through whole, and the rest is read on. */
  lemma {:induction false} UpToNulAppend(p: seq<char>, q: seq<char>)
    requires Nul !in p
    ensures UpToNul(p + q) == p + UpToNul(q)
  {
    if p != [] {
      assert p[0] != Nul && (p + q)[0] == p[0] && (p + q)[1..] == p[1..] + q;
      UpToNulAppend(p[1..], q);
      assert [p[0]] + (p[1..] + UpToNul(q)) == p + UpToNul(q);
    } else {
      assert p + q == q;
    }
  }

  /** A NUL at index i ends the C string there: what follows it is never read. */
  lemma UpToNulCut(s: seq<char>, i: nat)
    requires i < |s| && s[i] == Nul
    ensures UpToNul(s) == UpToNul(s[..i])
  {
    var k := |UpToNul(s)|;
    if k < i {
      // the string already ended before i, at a NUL that s[..i] holds too
      assert s[..i][..k] == s[..k] && s[..i][k] == Nul;
      UpToNulPrefix(s[..i], k);
    } else {
      assert Nul !in s[..i] by {
        forall j | 0 <= j < i ensures s[j] != Nul {
          assert s[j] == UpToNul(s)[j];
        }
      }
      UpToNulAppend(s[..i], s[i..]);
      assert s == s[..i] + s[i..];
      UpToNulAppend(s[..i], []);
      assert s[..i] + [] == s[..i];
    }
  }

  /** A string that ends at a NUL in position k is the first k characters. */
  lemma UpToNulPrefix(s: seq<char>, k: nat)
    requires k < |s| && s[k] == Nul && Nul !in s[..k]
    ensures UpToNul(s) == s[..k]
  {
    UpToNulAppend(s[..k], s[k..]);
    assert s == s[..k] + s[k..];
  }
}
