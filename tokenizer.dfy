/** `get_token`: splitting a command line at its first space. */
module Tokenizer {
  import opened CString

  /** The token before the first space and the text after it; without a
    * space, the whole text and nothing. */
  function Split(s: string): (r: (string, string))
    ensures ' ' !in r.0
    ensures ' ' in s ==> s == r.0 + [' '] + r.1
    ensures ' ' !in s ==> r == (s, [])
  {
    if s == [] then ([], [])
    else if s[0] == ' ' then ([], s[1..])
    else
      var (t, rest) := Split(s[1..]);
      assert s == [s[0]] + s[1..];
      ([s[0]] + t, rest)
  }

  /** The converse: a space-free token, a space and a rest split back into
    * exactly that token and that rest. */
  lemma {:induction false} SplitUnique(t: string, rest: string)
    requires ' ' !in t
    ensures Split(t + [' '] + rest) == (t, rest)
  {
    if t != [] {
      var s := t + [' '] + rest;
      assert s[0] == t[0] != ' ' && s[1..] == t[1..] + [' '] + rest;
      SplitUnique(t[1..], rest);
      assert [t[0]] + t[1..] == t;
    } else {
      assert t + [' '] + rest == [' '] + rest;
    }
  }

  /** The C string at index i of a buffer. */
  function CStr(a: seq<char>, i: nat): string
    requires i <= |a|
  {
    UpToNul(a[i..])
  }

  /** A NUL ends the C string at index i within the buffer. */
  ghost predicate Terminated(a: seq<char>, i: nat) {
    exists j :: i <= j < |a| && a[j] == Nul
  }

  /** Where the scan for a space stops: a[pos..i] holds neither a space nor
    * a NUL, and a[i] is one of the two. */
  ghost predicate ScanStop(a: seq<char>, pos: nat, i: nat) {
    pos <= i < |a| && (a[i] == ' ' || a[i] == Nul) &&
    forall k :: pos <= k < i ==> a[k] != ' ' && a[k] != Nul
  }

  /** What the stop of the scan means for Split of the C string at pos. */
  lemma SplitAtStop(a: seq<char>, pos: nat, i: nat)
    requires ScanStop(a, pos, i)
    ensures a[i] == ' ' ==> Split(CStr(a, pos)) == (a[pos..i], CStr(a, i + 1))
    ensures a[i] == Nul ==> Split(CStr(a, pos)) == (a[pos..i], [])
  {
    var t := a[pos..i];
    assert a[pos..] == t + a[i..];
    assert Nul !in t && ' ' !in t;
    UpToNulAppend(t, a[i..]);
    if a[i] == ' ' {
      SplitAtSpace(a, i, t);
    } else {
      assert CStr(a, pos) == t + [];
      assert t + [] == t;
    }
  }

  lemma SplitAtSpace(a: seq<char>, i: nat, t: string)
    requires i < |a| && a[i] == ' ' && ' ' !in t
    ensures Split(t + UpToNul(a[i..])) == (t, CStr(a, i + 1))
  {
    var rest := CStr(a, i + 1);
    assert a[i..] == [' '] + a[i + 1..];
    UpToNulAppend([' '], a[i + 1..]);
    assert t + UpToNul(a[i..]) == t + [' '] + rest;
    SplitUnique(t, rest);
  }

  /** After the NUL is written at the stop, the C string at pos is the token
    * and the one after the NUL is untouched. */
  lemma CutAtStop(a: seq<char>, pos: nat, i: nat)
    requires ScanStop(a, pos, i)
    ensures CStr(a[i := Nul], pos) == a[pos..i]
    ensures i + 1 <= |a| ==> CStr(a[i := Nul], i + 1) == CStr(a, i + 1)
  {
    var b := a[i := Nul];
    assert b[pos..] == a[pos..i] + b[i..];
    assert Nul !in a[pos..i];
    UpToNulAppend(a[pos..i], b[i..]);
    assert UpToNul(b[i..]) == [];
    assert a[pos..i] + [] == a[pos..i];
    assert b[i + 1..] == a[i + 1..];
  }

  /** The C strings at the token and after it, once the scan has stopped
    * and (at a space) the NUL is written. */
  lemma TokenAtStop(a: seq<char>, pos: nat, i: nat)
    requires ScanStop(a, pos, i) && Terminated(a, pos)
    ensures a[i] == ' ' ==>
      (i + 1 < |a| && Terminated(a[i := Nul], i + 1) &&
       (CStr(a[i := Nul], pos), CStr(a[i := Nul], i + 1)) == Split(CStr(a, pos)))
    ensures a[i] == Nul ==> Terminated(a, i) && (CStr(a, pos), CStr(a, i)) == Split(CStr(a, pos))
  {
    SplitAtStop(a, pos, i);
    var j :| pos <= j < |a| && a[j] == Nul;
    assert i <= j;
    if a[i] == ' ' {
      CutAtStop(a, pos, i);
      assert a[i := Nul][j] == Nul;
    } else {
      assert CStr(a, i) == [];
      assert CStr(a, pos) == a[pos..i];
    }
  }

  /** The scan of `get_token`: the first space or NUL from `pos` on. */
  method ScanToken(line: array<char>, pos: nat) returns (i: nat)
    requires pos < line.Length && Terminated(line[..], pos)
    ensures ScanStop(line[..], pos, i)
  {
    ghost var nul :| pos <= nul < line.Length && line[nul] == Nul;
    i := pos;
    while line[i] != ' ' && line[i] != Nul
      invariant pos <= i <= nul
      invariant forall k :: pos <= k < i ==> line[k] != ' ' && line[k] != Nul
      decreases nul - i
    {
      i := i + 1;
    }
  }

  /** `get_token` on the line buffer: the C string at `pos` is cut at its
    * first space by writing a NUL there. The token is the C string at
    * `token` (which is `pos`), and the rest of the line is the C string at
    * `next`. */
  method GetToken(line: array<char>, pos: nat) returns (token: nat, next: nat)
    requires pos < line.Length && Terminated(line[..], pos)
    modifies line
    ensures token == pos && pos <= next < line.Length && Terminated(line[..], next)
    ensures (CStr(line[..], token), CStr(line[..], next)) == Split(CStr(old(line[..]), pos))
    ensures forall k :: 0 <= k < line.Length && k + 1 != next ==> line[k] == old(line[k])
    ensures line[..] == if next > pos && old(line[next - 1]) == ' ' then old(line[..])[next - 1 := Nul] else old(line[..])
  {
    ghost var a := line[..];
    var i := ScanToken(line, pos);
    TokenAtStop(a, pos, i);
    token := pos;
    if line[i] == ' ' {
      line[i] := Nul;
      next := i + 1;
    } else {
      // no space before the NUL: the whole string is the token
      next := i;
      assert next > pos ==> a[next - 1] != ' ';
    }
    assert line[..] == if a[i] == ' ' then a[i := Nul] else a;
  }
}
