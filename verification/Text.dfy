/** String helpers shared by the parsers: trimming and splitting at one character. */
module Text {
  /** The characters Python's str.strip() removes. */
  predicate PySpace(c: char) {
    || '\t' <= c <= '\r'
    || '\U{1C}' <= c <= ' '
    || c == '\U{85}' || c == '\U{A0}' || c == '\U{1680}'
    || '\U{2000}' <= c <= '\U{200A}'
    || c == '\U{2028}' || c == '\U{2029}' || c == '\U{202F}' || c == '\U{205F}' || c == '\U{3000}'
  }

  /** The characters JavaScript's String.prototype.trim() removes. */
  predicate JsSpace(c: char) {
    || '\t' <= c <= '\r'
    || c == ' ' || c == '\U{A0}' || c == '\U{FEFF}' || c == '\U{1680}'
    || '\U{2000}' <= c <= '\U{200A}'
    || c == '\U{2028}' || c == '\U{2029}' || c == '\U{202F}' || c == '\U{205F}' || c == '\U{3000}'
  }

  function TrimLeft(space: char -> bool, s: string): string {
    if s != "" && space(s[0]) then TrimLeft(space, s[1..]) else s
  }

  function TrimRight(space: char -> bool, s: string): string {
    if s != "" && space(s[|s| - 1]) then TrimRight(space, s[..|s| - 1]) else s
  }

  function Trim(space: char -> bool, s: string): string {
    TrimRight(space, TrimLeft(space, s))
  }

  /** No whitespace at either end. */
  predicate Trimmed(space: char -> bool, s: string) {
    s == "" || (!space(s[0]) && !space(s[|s| - 1]))
  }

  /** Trimming keeps a contiguous piece of the text and leaves no whitespace at its ends. */
  lemma TrimIsTrimmed(space: char -> bool, s: string)
    ensures Trimmed(space, Trim(space, s))
    ensures forall c :: c in Trim(space, s) ==> c in s
  {
    TrimLeftEnds(space, s);
    TrimRightEnds(space, TrimLeft(space, s));
  }

  lemma {:induction false} TrimLeftEnds(space: char -> bool, s: string)
    ensures TrimLeft(space, s) == "" || !space(TrimLeft(space, s)[0])
    ensures forall c :: c in TrimLeft(space, s) ==> c in s
  {
    if s != "" && space(s[0]) {
      TrimLeftEnds(space, s[1..]);
    }
  }

  lemma {:induction false} TrimRightEnds(space: char -> bool, s: string)
    ensures TrimRight(space, s) <= s
    ensures TrimRight(space, s) == "" || !space(TrimRight(space, s)[|TrimRight(space, s)| - 1])
  {
    if s != "" && space(s[|s| - 1]) {
      TrimRightEnds(space, s[..|s| - 1]);
    }
  }

  /** Text that is already trimmed is left alone. */
  lemma TrimmedIsFixed(space: char -> bool, s: string)
    requires Trimmed(space, s)
    ensures Trim(space, s) == s
  {
  }

  predicate Blank(space: char -> bool, s: string) {
    forall i :: 0 <= i < |s| ==> space(s[i])
  }

  /** Whatever is trimmed off is whitespace. */
  lemma TrimSplit(space: char -> bool, s: string) returns (a: string, c: string)
    ensures Blank(space, a) && Blank(space, c) && s == a + Trim(space, s) + c
  {
    a := TrimLeftSplit(space, s);
    c := TrimRightSplit(space, TrimLeft(space, s));
    assert a + (Trim(space, s) + c) == a + Trim(space, s) + c;
  }

  lemma {:induction false} TrimLeftSplit(space: char -> bool, s: string) returns (a: string)
    ensures Blank(space, a) && s == a + TrimLeft(space, s)
  {
    a := "";
    if s != "" && space(s[0]) {
      var b := TrimLeftSplit(space, s[1..]);
      a := [s[0]] + b;
      assert s == [s[0]] + s[1..];
    }
  }

  lemma {:induction false} TrimRightSplit(space: char -> bool, s: string) returns (c: string)
    ensures Blank(space, c) && s == TrimRight(space, s) + c
  {
    c := "";
    if s != "" && space(s[|s| - 1]) {
      var b := TrimRightSplit(space, s[..|s| - 1]);
      c := b + [s[|s| - 1]];
      assert s == s[..|s| - 1] + [s[|s| - 1]];
    }
  }

  /** Whitespace around trimmed text is all that trimming removes. */
  lemma TrimPadded(space: char -> bool, a: string, s: string, c: string)
    requires Blank(space, a) && Blank(space, c) && Trimmed(space, s)
    ensures Trim(space, a + s + c) == s
  {
    assert a + s + c == a + (s + c);
    if s == "" {
      assert s + c == c && c + "" == c;
      TrimLeftPadded(space, a, c);
      TrimLeftPadded(space, c, "");
    } else {
      TrimLeftPadded(space, a, s + c);
      TrimRightPadded(space, s, c);
    }
  }

  lemma {:induction false} TrimLeftPadded(space: char -> bool, a: string, s: string)
    requires Blank(space, a)
    ensures TrimLeft(space, a + s) == TrimLeft(space, s)
  {
    if a == "" {
      assert a + s == s;
    } else {
      TrimLeftPadded(space, a[1..], s);
      assert (a + s)[1..] == a[1..] + s;
    }
  }

  lemma {:induction false} TrimRightPadded(space: char -> bool, s: string, c: string)
    requires Blank(space, c)
    ensures TrimRight(space, s + c) == TrimRight(space, s)
  {
    if c == "" {
      assert s + c == s;
    } else {
      TrimRightPadded(space, s, c[..|c| - 1]);
      assert (s + c)[..|s + c| - 1] == s + c[..|c| - 1];
    }
  }
}
