/** `readstr`: the console's line editor. It keeps a 64-byte static buffer and
  * a cursor, takes at most one character per call, and hands back the line
  * when CR or LF arrives. */
module LineEdit {
  import opened Wrappers
  import opened CString

  /** `static char s[64]`: one place is kept for the terminating NUL. */
  const Capacity: nat := 64
  const Backspace: char := 8 as char
  const Delete: char := 0x7f as char
  const Bell: char := 7 as char

  predicate IsErase(c: char) { c == Backspace || c == Delete }
  predicate IsEnd(c: char) { c == '\r' || c == '\n' }
  /** A character the editor stores (while there is room). */
  predicate IsPlain(c: char) { !IsErase(c) && c != Bell && !IsEnd(c) }

  /** The characters kept after one input character, and the finished line
    * if that character ended it. */
  datatype Edited = Edited(kept: seq<char>, line: Option<string>)

  /** The effect of one character on the kept characters. */
  function Edit(kept: seq<char>, c: char): (r: Edited)
    ensures |kept| < Capacity ==> |r.kept| < Capacity
    ensures r.line.Some? <==> IsEnd(c)
    ensures r.line.Some? ==> r.kept == [] && r.line.value == UpToNul(kept)
    ensures c == Bell ==> r == Edited(kept, None)
    ensures IsErase(c) && kept == [] ==> r == Edited([], None)
    ensures IsPlain(c) && |kept| >= Capacity - 1 ==> r == Edited(kept, None)
  {
    if IsErase(c) then Edited(if |kept| > 0 then kept[..|kept| - 1] else kept, None)
    else if c == Bell then Edited(kept, None)
    else if IsEnd(c) then Edited([], Some(UpToNul(kept)))
    else if |kept| >= Capacity - 1 then Edited(kept, None)
    else Edited(kept + [c], None)
  }

  /** The characters kept after a whole run of input, one character at a time. */
  function Typed(kept: seq<char>, cs: seq<char>): seq<char>
    decreases cs
  {
    if cs == [] then kept else Typed(Edit(kept, cs[0]).kept, cs[1..])
  }

  function Min(a: nat, b: nat): nat { if a <= b then a else b }

  /** n erase characters in a row. */
  function Erasures(n: nat): (r: seq<char>)
    ensures |r| == n && forall i :: 0 <= i < n ==> r[i] == Delete
  {
    if n == 0 then [] else [Delete] + Erasures(n - 1)
  }

  lemma {:induction false} TypedAppend(kept: seq<char>, a: seq<char>, b: seq<char>)
    ensures Typed(kept, a + b) == Typed(Typed(kept, a), b)
    decreases a
  {
    if a == [] {
      assert a + b == b;
    } else {
      assert (a + b)[0] == a[0] && (a + b)[1..] == a[1..] + b;
      TypedAppend(Edit(kept, a[0]).kept, a[1..], b);
    }
  }

  /** Plain characters are appended while there is room; once 63 are held,
    * the rest are dropped. */
  lemma {:induction false} TypedPlain(kept: seq<char>, cs: seq<char>)
    requires |kept| < Capacity
    requires forall i :: 0 <= i < |cs| ==> IsPlain(cs[i])
    ensures Typed(kept, cs) == (kept + cs)[..Min(|kept| + |cs|, Capacity - 1)]
    decreases cs
  {
    if cs != [] {
      var next := Edit(kept, cs[0]).kept;
      TypedPlain(next, cs[1..]);
      if |kept| < Capacity - 1 {
        assert next + cs[1..] == kept + cs;
      } else {
        assert (kept + cs[1..])[..Capacity - 1] == kept == (kept + cs)[..Capacity - 1];
      }
    } else {
      assert kept + cs == kept;
    }
  }

  /** Each erase character takes back one kept character, and none once the
    * buffer is empty. */
  lemma {:induction false} TypedErasures(kept: seq<char>, n: nat)
    ensures Typed(kept, Erasures(n)) == kept[..if n <= |kept| then |kept| - n else 0]
    decreases n
  {
    if n > 0 {
      var e := Erasures(n);
      assert e[0] == Delete && e[1..] == Erasures(n - 1);
      TypedErasures(Edit(kept, Delete).kept, n - 1);
    }
  }

  /** Erasing what was just typed gives back the buffer as it was. */
  lemma {:induction false} TypeThenErase(kept: seq<char>, cs: seq<char>)
    requires |kept| + |cs| < Capacity
    requires forall i :: 0 <= i < |cs| ==> IsPlain(cs[i])
    ensures Typed(kept, cs + Erasures(|cs|)) == kept
  {
    var full := kept + cs;
    TypedAppend(kept, cs, Erasures(|cs|));
    TypedPlain(kept, cs);
    assert full[..|full|] == full;
    assert Typed(kept, cs) == full;
    TypedErasures(full, |cs|);
    assert full[..|kept|] == kept;
  }

  /** A short line of plain characters followed by Enter comes back whole and
    * empties the buffer. */
  lemma {:induction false} LineRoundTrip(cs: seq<char>, enter: char)
    requires |cs| < Capacity && IsEnd(enter) && Nul !in cs
    requires forall i :: 0 <= i < |cs| ==> IsPlain(cs[i])
    ensures Edit(Typed([], cs), enter) == Edited([], Some(cs))
  {
    TypedPlain([], cs);
    assert ([] + cs)[..|cs|] == cs;
    assert Typed([], cs) == cs;
    UpToNulAppend(cs, []);
    assert cs + [] == cs;
  }

  /** The static buffer and cursor of `readstr`. */
  class LineEditor {
    const buf: array<char>
    var ptr: nat

    ghost predicate Valid()
      reads this
    {
      buf.Length == Capacity && ptr < Capacity
    }

    /** The characters typed so far on the current line. */
    ghost function Pending(): seq<char>
      reads this, buf
      requires Valid()
    {
      buf[..ptr]
    }

    constructor ()
      ensures Valid() && fresh(buf) && Pending() == []
    {
      buf := new char[Capacity](_ => Nul);
      ptr := 0;
    }

    /** `readstr`: consume the character that has arrived, if one has, and
      * return the line once it is ended. */
    method ReadStr(input: Option<char>) returns (line: Option<string>)
      requires Valid()
      modifies this, buf
      ensures Valid()
      ensures input.None? ==> line.None? && Pending() == old(Pending())
      ensures input.Some? ==> Edited(Pending(), line) == Edit(old(Pending()), input.value)
    {
      line := None;
      if input.Some? {
        var c := input.value;
        if c == Delete || c == Backspace {
          if ptr > 0 {
            ptr := ptr - 1;
          }
        } else if c == Bell {
        } else if c == '\r' || c == '\n' {
          buf[ptr] := Nul;
          UpToNulCut(buf[..], ptr);
          assert buf[..][..ptr] == old(buf[..ptr]);
          ptr := 0;
          line := Some(UpToNul(buf[..]));
        } else if ptr < Capacity - 1 {
          buf[ptr] := c;
          ptr := ptr + 1;
          assert buf[..ptr] == old(buf[..ptr]) + [c];
        }
      }
    }
  }
}
