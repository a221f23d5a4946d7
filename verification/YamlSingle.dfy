/**
 Single-quoted scalars: what a writer that only doubles the apostrophes puts on one line, the
 scanner reads back.
 */
module YamlSingle {
  import opened Bytes
  import opened Utf8
  import opened YamlQuoted
  import opened YamlScalar

  /** No character of the text ends the line or the buffer. */
  predicate OnOneLine(s: seq<byte>)
    requires Valid(s)
  {
    s == [] || (s[0] != 0 && !IsBreak(s) && OnOneLine(s[Width(s[0])..]))
  }

  /** The text with every apostrophe written twice. */
  function Doubled(s: seq<byte>): seq<byte>
    requires Valid(s)
  {
    if s == [] then []
    else (if s[0] == APOSTROPHE then [APOSTROPHE, APOSTROPHE] else s[..Width(s[0])]) + Doubled(s[Width(s[0])..])
  }

  function SingleQuoted(s: seq<byte>): (q: seq<byte>)
    requires Valid(s)
    ensures q != []
  {
    [APOSTROPHE] + Doubled(s) + [APOSTROPHE]
  }

  /** What is left to scan where `s` is left to be read. */
  function Ahead(s: seq<byte>, tail: seq<byte>): seq<byte>
    requires Valid(s)
  {
    Doubled(s) + [APOSTROPHE] + tail
  }

  lemma AheadStep(s: seq<byte>, tail: seq<byte>)
    requires Valid(s) && s != []
    ensures 1 <= Width(s[0]) <= |s| && Valid(s[Width(s[0])..])
    ensures Ahead(s, tail) ==
      (if s[0] == APOSTROPHE then [APOSTROPHE, APOSTROPHE] else s[..Width(s[0])]) + Ahead(s[Width(s[0])..], tail)
  {
    hide CharOk, Doubled, Ahead, Width;
    DoubledStep(s);
    var c := if s[0] == APOSTROPHE then [APOSTROPHE, APOSTROPHE] else s[..Width(s[0])];
    AheadIs(s, tail);
    AheadIs(s[Width(s[0])..], tail);
    Joins(c, Doubled(s[Width(s[0])..]), [APOSTROPHE], tail);
  }

  lemma AheadIs(s: seq<byte>, tail: seq<byte>)
    requires Valid(s)
    ensures Ahead(s, tail) == Doubled(s) + [APOSTROPHE] + tail
  {
  }

  lemma DoubledStep(s: seq<byte>)
    requires Valid(s) && s != []
    ensures 1 <= Width(s[0]) <= |s| && Valid(s[Width(s[0])..])
    ensures Doubled(s) ==
      (if s[0] == APOSTROPHE then [APOSTROPHE, APOSTROPHE] else s[..Width(s[0])]) + Doubled(s[Width(s[0])..])
  {
    hide CharOk;
    WidthOk(s);
  }

  lemma Joins(a: seq<byte>, b: seq<byte>, c: seq<byte>, d: seq<byte>)
    ensures a + b + c + d == a + (b + c + d)
  {
  }

  /** The blanks that are next are on this line, and something follows them. */
  predicate Continued(b: seq<byte>) {
    if IsBlank(b) then Continued(b[1..]) else At(b, 0) != 0 && !IsBreak(b)
  }

  lemma {:induction false} AheadContinued(s: seq<byte>, tail: seq<byte>)
    requires Valid(s) && OnOneLine(s)
    ensures Continued(Ahead(s, tail)) && At(Ahead(s, tail), 0) != 0
  {
    hide Ahead, CharOk, Doubled;
    if s == [] {
      AheadNothing(tail);
    } else {
      AheadStep(s, tail);
      AheadContinued(s[Width(s[0])..], tail);
      var rest := Ahead(s[Width(s[0])..], tail);
      SameBreak(s, rest);
      if IsBlank(s) {
        assert ([s[0]] + rest)[1..] == rest;
        assert s[..1] == [s[0]];
      }
    }
  }

  lemma AheadNothing(tail: seq<byte>)
    ensures Ahead([], tail) == [APOSTROPHE] + tail
  {
  }

  // ---------------------------------------------------------------- one character

  lemma SingleGoesOn(p: Pos, q: Pos)
    requires p.column > 0 && q.column > 0 && At(p.rest, 0) != 0 && At(q.rest, 0) != 0
    requires NonBlanks(p, true) == NonBlanks(q, true)
    ensures Scan(p, true) == Scan(q, true)
  {
    hide NonBlanks, Blanks;
  }

  lemma ReadApostrophe(rest: seq<byte>, column: nat, text: seq<byte>)
    requires column > 0 && At(rest, 0) != 0
    ensures Scan(Pos([APOSTROPHE, APOSTROPHE] + rest, column, text), true)
      == Scan(Pos(rest, column + 2, text + [APOSTROPHE]), true)
  {
    hide Scan, Unescape, Width, BreakLength;
    var b := [APOSTROPHE, APOSTROPHE] + rest;
    assert b[2..] == rest;
    assert !BlankZ(b);
    SingleGoesOn(Pos(b, column, text), Pos(rest, column + 2, text + [APOSTROPHE]));
  }

  lemma ReadChar(s: seq<byte>, rest: seq<byte>, column: nat, text: seq<byte>)
    requires CharOk(s) && s[0] != 0 && s[0] != APOSTROPHE && !IsBlank(s) && !IsBreak(s)
    requires column > 0 && At(rest, 0) != 0
    ensures var c := s[..Width(s[0])];
      Scan(Pos(c + rest, column, text), true) == Scan(Pos(rest, column + 1, text + c), true)
  {
    SameBreak(s, rest);
    hide Scan, Unescape, BreakLength, IsBreak, Value;
    var c := s[..Width(s[0])];
    var b := c + rest;
    assert b[0] == s[0] && !BlankZ(b) && Whole(b);
    assert b[..Width(b[0])] == c && b[Width(b[0])..] == rest;
    hide Width;
    SingleGoesOn(Pos(b, column, text), Pos(rest, column + 1, text + c));
  }

  lemma {:induction false} BlanksGo(b: seq<byte>, column: nat, blanks: seq<byte>)
    requires Continued(b)
    ensures var f := Blanks(Fold(b, column, false, blanks, [], [])); var g :=
      Blanks(Fold(b, column, false, [], [], []));
      f == g.(blanks := blanks + g.blanks) && !g.leading
    decreases b
  {
    hide IsBreak, BreakLength, BreakText;
    if IsBlank(b) {
      BlanksGo(b[1..], column + 1, blanks + [b[0]]);
      BlanksGo(b[1..], column + 1, [b[0]]);
      var g := Blanks(Fold(b[1..], column + 1, false, [], [], []));
      assert blanks + [b[0]] + g.blanks == blanks + ([b[0]] + g.blanks);
      assert [] + [b[0]] == [b[0]];
    } else {
      assert blanks + [] == blanks;
    }
  }

  lemma BlanksStay(b: seq<byte>, column: nat, blanks: seq<byte>)
    requires Continued(b) && !IsBlank(b)
    ensures Blanks(Fold(b, column, false, blanks, [], [])) == Fold(b, column, false, blanks, [], [])
  {
    hide IsBreak, BreakLength, BreakText;
  }

  lemma BlankGone(b: seq<byte>, column: nat)
    requires IsBlank(b)
    ensures Blanks(Fold(b, column, false, [], [], [])) == Blanks(Fold(b[1..], column + 1, false, [b[0]], [], []))
  {
    hide BreakLength, BreakText;
    assert [] + [b[0]] == [b[0]];
  }

  lemma ReadBlank(c: byte, rest: seq<byte>, column: nat, text: seq<byte>)
    requires (c == SPACE || c == TAB) && Continued(rest) && column > 0
    ensures Scan(Pos([c] + rest, column, text), true) == Scan(Pos(rest, column + 1, text + [c]), true)
  {
    hide Scan, Blanks, Continued;
    var p := Pos([c] + rest, column, text);
    assert p.rest[1..] == rest && [] + [c] == [c];
    ScanTurn(p, true);
    BlankGone(p.rest, column);
    if IsBlank(rest) {
      BlanksGo(rest, column + 1, [c]);
      var g := Blanks(Fold(rest, column + 1, false, [], [], []));
      ScanTurn(Pos(rest, column + 1, text + [c]), true);
      assert text + ([c] + g.blanks) == text + [c] + g.blanks;
    } else {
      BlanksStay(rest, column + 1, [c]);
    }
  }

  lemma ReadEnd(tail: seq<byte>, column: nat, text: seq<byte>)
    requires column > 0 && At(tail, 0) != APOSTROPHE
    ensures Scan(Pos([APOSTROPHE] + tail, column, text), true) == Some(Pos(tail, column + 1, text))
  {
    var p := Pos([APOSTROPHE] + tail, column, text);
    assert p.rest[1..] == tail;
    assert NonBlanks(p, true) == Some(Stop(p, false));
  }

  // ---------------------------------------------------------------- the whole scalar

  lemma {:induction false} AheadScans(s: seq<byte>, tail: seq<byte>, column: nat, text: seq<byte>)
    requires Valid(s) && OnOneLine(s) && column > 0 && At(tail, 0) != APOSTROPHE
    ensures Comes(Scan(Pos(Ahead(s, tail), column, text), true), tail, text + s, false)
    decreases |s|
  {
    hide Scan, Ahead, CharOk, IsBreak, Continued, Doubled;
    if s == [] {
      AheadNothing(tail);
      ReadEnd(tail, column, text);
      assert text + [] == text;
    } else {
      AheadStep(s, tail);
      var c, t := s[..Width(s[0])], s[Width(s[0])..];
      AheadContinued(t, tail);
      assert text + c + t == text + s;
      if s[0] == APOSTROPHE {
        assert c == [APOSTROPHE];
        ReadApostrophe(Ahead(t, tail), column, text);
        AheadScans(t, tail, column + 2, text + c);
      } else {
        if IsBlank(s) {
          assert c == [s[0]];
          ReadBlank(s[0], Ahead(t, tail), column, text);
        } else {
          ReadChar(s, Ahead(t, tail), column, text);
        }
        AheadScans(t, tail, column + 1, text + c);
      }
    }
  }

  /** Any text of one line comes back from between single quotes, its apostrophes doubled, and
      the scan stops right behind it, whatever follows that is not one more apostrophe. */
  lemma SingleScans(s: seq<byte>, tail: seq<byte>, column: nat)
    requires Valid(s) && OnOneLine(s) && At(tail, 0) != APOSTROPHE
    ensures Comes(ScanQuoted(SingleQuoted(s) + tail, column, true), tail, s, false)
  {
    hide Scan, Doubled;
    AheadScans(s, tail, column + 1, []);
    assert (SingleQuoted(s) + tail)[1..] == Ahead(s, tail);
    assert [] + s == s;
  }
}
