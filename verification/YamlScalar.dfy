/**
 Scanning quoted scalars. `Scan` says what `yaml_parser_scan_flow_scalar` makes of a buffer; the
 class at the end is the scanner as the source has it. Scanning what the writer wrote gives back
 the scalar, whatever follows it.
 */
module YamlScalar {
  import opened Bytes
  import opened Utf8
  import opened YamlQuoted

  const APOSTROPHE: byte := 39

  /** The rest of the buffer, the column, and the text scanned so far. */
  datatype Pos = Pos(rest: seq<byte>, column: nat, text: seq<byte>)

  /** Where a run of non-blanks stopped; `leading` if an escaped line break stopped it. */
  datatype Stop = Stop(p: Pos, leading: bool)

  predicate BlankZ(b: seq<byte>) {
    IsBlank(b) || IsBreak(b) || At(b, 0) == 0
  }

  function QuoteOf(single: bool): byte {
    if single then APOSTROPHE else QUOTE
  }

  // ---------------------------------------------------------------- escapes

  predicate IsHex(c: byte) {
    48 <= c <= 57 || 65 <= c <= 70 || 97 <= c <= 102
  }

  function AsHex(c: byte): (d: nat)
    requires IsHex(c)
    ensures d < 16
  {
    if 65 <= c <= 70 then c - 55 else if 97 <= c <= 102 then c - 87 else c - 48
  }

  predicate AllHex(s: seq<byte>) {
    forall i :: 0 <= i < |s| ==> IsHex(s[i])
  }

  function FromHex(s: seq<byte>): (v: nat)
    requires AllHex(s)
  {
    if s == [] then 0 else FromHex(s[..|s| - 1]) * 16 + AsHex(s[|s| - 1])
  }

  /** The text of a named escape; None for a letter that names none. */
  function Named(c: byte): Option<seq<byte>> {
    if c == '0' as byte then Some([0]) else if c == 'a' as byte then Some([7]) else if c == 'b' as byte then Some([8])
    else if c == 't' as byte || c == TAB then Some([9]) else if c == 'n' as byte then Some([10])
    else if c == 'v' as byte then Some([11]) else if c == 'f' as byte then Some([12]) else if c == 'r' as byte
      then Some([13])
    else if c == 'e' as byte then Some([0x1B]) else if c == SPACE then Some([0x20]) else if c == QUOTE
      then Some([QUOTE])
    else if c == '/' as byte then Some(['/' as byte]) else if c == BACKSLASH then Some([BACKSLASH])
    else if c == 'N' as byte then Some([0xC2, 0x85]) else if c == '_' as byte then Some([0xC2, 0xA0])
    else if c == 'L' as byte then Some([0xE2, 0x80, 0xA8]) else if c == 'P' as byte then Some([0xE2, 0x80, 0xA9])
    else None
  }

  function CodeLength(c: byte): nat {
    if c == 'x' as byte then 2 else if c == 'u' as byte then 4 else if c == 'U' as byte then 8 else 0
  }

  /** What an escape stands for, and how many bytes it takes. */
  datatype Escape = Escape(text: seq<byte>, length: nat)

  function Unescape(b: seq<byte>): (e: Option<Escape>)
    ensures e.Some? ==> 2 <= e.value.length <= |b|
  {
    if |b| < 2 then None
    else if Named(b[1]).Some? then Some(Escape(Named(b[1]).value, 2))
    else
      var n := CodeLength(b[1]);
      if n == 0 || |b| < 2 + n || !AllHex(b[2..2 + n]) || !CodePoint(FromHex(b[2..2 + n])) then None
      else Some(Escape(Encode(FromHex(b[2..2 + n])), 2 + n))
  }

  // ---------------------------------------------------------------- line breaks

  function BreakLength(b: seq<byte>): (n: nat)
    requires IsBreak(b)
    ensures 1 <= n <= |b|
  {
    if At(b, 0) == CR && At(b, 1) == LF then 2
    else if At(b, 0) == CR || At(b, 0) == LF then 1
    else if IsNextLine(b) then 2 else 3
  }

  /** A line separator is kept; any other break becomes a line feed. */
  function BreakText(b: seq<byte>): seq<byte>
    requires IsBreak(b)
  {
    if IsSeparator(b) then b[..3] else [LF]
  }

  // ---------------------------------------------------------------- the scan

  /** The inner loop: up to a blank, a break, the end of the buffer, the right quote or an
      escaped break. None is a scanner error (or bytes that the reader lets through never). */
  function NonBlanks(p: Pos, single: bool): (s: Option<Stop>)
    ensures s.Some? ==> |s.value.p.rest| <= |p.rest| && (|s.value.p.rest| == |p.rest| ==> s == Some(Stop(p, false)))
    ensures s.Some? && !s.value.leading ==> BlankZ(s.value.p.rest) || At(s.value.p.rest, 0) == QuoteOf(single)
    decreases |p.rest|
  {
    var b := p.rest;
    if BlankZ(b) then Some(Stop(p, false))
    else if single && At(b, 0) == APOSTROPHE && At(b, 1) == APOSTROPHE then
      NonBlanks(Pos(b[2..], p.column + 2, p.text + [APOSTROPHE]), single)
    else if At(b, 0) == QuoteOf(single) then Some(Stop(p, false))
    else if !single && At(b, 0) == BACKSLASH then
      if IsBreak(b[1..]) then Some(Stop(Pos(b[1 + BreakLength(b[1..])..], 0, p.text), true))
      else
        var e := Unescape(b);
        if e.None? then None
        else NonBlanks(Pos(b[e.value.length..], p.column + e.value.length, p.text + e.value.text), single)
    else if !Whole(b) then None
    else NonBlanks(Pos(b[Width(b[0])..], p.column + 1, p.text + b[..Width(b[0])]), single)
  }

  /** Blanks and breaks between runs: `leading` once there was a break, then its text, the text
      of the breaks after it, or the blanks before any. */
  datatype Fold = Fold(rest: seq<byte>, column: nat, leading: bool, blanks: seq<byte>, first: seq<byte>,
      more: seq<byte>)

  function Blanks(f: Fold): (g: Fold)
    ensures |g.rest| <= |f.rest| && ((IsBlank(f.rest) || IsBreak(f.rest)) ==> |g.rest| < |f.rest|)
    decreases |f.rest|
  {
    if IsBlank(f.rest) then
      Blanks(f.(rest := f.rest[1..], column := f.column + 1, blanks := if f.leading then f.blanks
        else f.blanks + [f.rest[0]]))
    else if IsBreak(f.rest) then
      var n, text := BreakLength(f.rest), BreakText(f.rest);
      if !f.leading then Blanks(Fold(f.rest[n..], 0, true, [], text, f.more))
      else Blanks(f.(rest := f.rest[n..], column := 0, more := f.more + text))
    else f
  }

  /** A single line feed is folded to a space. */
  function Folded(f: Fold): seq<byte> {
    if !f.leading then f.blanks
    else if f.first != [] && f.first[0] == LF then (if f.more == [] then [SPACE] else f.more)
    else f.first + f.more
  }

  predicate DocumentIndicator(b: seq<byte>) {
    && ((At(b, 0) == At(b, 1) == At(b, 2) == '-' as byte) || (At(b, 0) == At(b, 1) == At(b, 2) == '.' as byte))
    && |b| >= 3 && BlankZ(b[3..])
  }

  /** The outer loop, from after the left quote to after the right one. */
  function Scan(p: Pos, single: bool): Option<Pos>
    decreases |p.rest|
  {
    if p.column == 0 && DocumentIndicator(p.rest) then None
    else if At(p.rest, 0) == 0 then None
    else
      var s := NonBlanks(p, single);
      if s.None? then None
      else
        var q := s.value.p;
        if At(q.rest, 0) == QuoteOf(single) then Some(Pos(q.rest[1..], q.column + 1, q.text))
        else
          var f := Blanks(Fold(q.rest, q.column, s.value.leading, [], [], []));
          Scan(Pos(f.rest, f.column, q.text + Folded(f)), single)
  }

  // ---------------------------------------------------------------- reading back an escape

  lemma DigitBack(d: nat)
    requires d < 16
    ensures IsHex(Digit(d)) && AsHex(Digit(d)) == d
  {
  }

  function Power16(n: nat): nat {
    if n == 0 then 1 else 16 * Power16(n - 1)
  }

  lemma {:induction false} HexBack(v: nat, n: nat)
    requires v < Power16(n)
    ensures AllHex(Hex(v, n)) && FromHex(Hex(v, n)) == v
  {
    if n > 0 {
      assert v / 16 < Power16(n - 1);
      HexBack(v / 16, n - 1);
      DigitBack(v % 16);
      assert Hex(v, n)[..n - 1] == Hex(v / 16, n - 1);
    }
  }

  lemma DigitsEnough(v: nat)
    requires v <= 0x10FFFF
    ensures v < Power16(Digits(v))
  {
    assert Power16(2) == 256 && Power16(4) == 256 * Power16(2) && Power16(6) == 256 * Power16(4);
    assert Power16(8) == 256 * Power16(6);
  }

  /** Every escape the writer writes reads back as the character it was written for. */
  lemma EscapeBack(v: nat, tail: seq<byte>)
    requires CodePoint(v)
    ensures Unescape(EscapeOf(v) + tail) == Some(Escape(Encode(v), |EscapeOf(v)|))
  {
    hide Hex, Encode;
    if Letter(v) != 0 {
      LetterBack(v);
    } else {
      var n := Digits(v);
      var b := EscapeOf(v) + tail;
      DigitsEnough(v);
      HexBack(v, n);
      assert b[2..2 + n] == Hex(v, n);
    }
  }

  lemma LetterBack(v: nat)
    requires CodePoint(v) && Letter(v) != 0
    ensures Named(Letter(v)) == Some(Encode(v))
  {
  }

  // ---------------------------------------------------------------- reading back a scalar

  /** What may follow the scanner within a written scalar: never a break, a tab or the end. */
  predicate Inner(b: seq<byte>) {
    At(b, 0) != 0 && At(b, 0) != TAB && !IsBreak(b)
  }

  lemma EscapeInner(v: nat, tail: seq<byte>)
    ensures Inner(EscapeOf(v) + tail)
  {
    EscapeAscii(v);
  }

  /** The first three bytes decide, and a character has all of those that do. */
  lemma SameBreak(s: seq<byte>, tail: seq<byte>)
    requires CharOk(s)
    ensures IsBreak(s[..Width(s[0])] + tail) == IsBreak(s)
  {
  }

  lemma RawInner(s: seq<byte>, unicode: bool, tail: seq<byte>)
    requires CharOk(s) && !MustEscape(s, unicode)
    ensures var b := s[..Width(s[0])] + tail;
      Inner(b) && At(b, 0) == s[0] != QUOTE && s[0] != BACKSLASH && (s[0] != SPACE ==> !BlankZ(b))
  {
    SameBreak(s, tail);
  }

  lemma PieceInner(s: seq<byte>, unicode: bool, tail: seq<byte>)
    requires CharOk(s)
    ensures Inner(Piece(s, unicode) + tail)
  {
    if MustEscape(s, unicode) {
      EscapeInner(Value(s), tail);
    } else {
      RawInner(s, unicode, tail);
    }
  }

  lemma PieceRead(s: seq<byte>, unicode: bool, tail: seq<byte>, column: nat, text: seq<byte>) returns (next: nat)
    requires CharOk(s) && (s[0] != SPACE || MustEscape(s, unicode))
    ensures next > 0 && At(Piece(s, unicode) + tail, 0) != 0
    ensures NonBlanks(Pos(Piece(s, unicode) + tail, column, text), false)
      == NonBlanks(Pos(tail, next, text + s[..Width(s[0])]), false)
  {
    hide NonBlanks, EscapeOf;
    if MustEscape(s, unicode) {
      next := column + |EscapeOf(Value(s))|;
      EscapeLong(Value(s));
      DecodeEncode(s);
      EscapeRead(Value(s), tail, column, text);
    } else {
      next := column + 1;
      RawInner(s, unicode, tail);
      RawRead(s, tail, column, text);
    }
  }

  /** One character that is not a blank: the inner loop goes on behind it. */
  lemma ScanPiece(s: seq<byte>, unicode: bool, tail: seq<byte>, column: nat, text: seq<byte>) returns (next: nat)
    requires CharOk(s) && (s[0] != SPACE || MustEscape(s, unicode)) && At(tail, 0) != 0
    requires column > 0 || !DocumentIndicator(Piece(s, unicode) + tail)
    ensures next > 0
    ensures Scan(Pos(Piece(s, unicode) + tail, column, text), false)
      == Scan(Pos(tail, next, text + s[..Width(s[0])]), false)
  {
    WidthOk(s);
    hide NonBlanks, Scan, Piece, CharOk, DocumentIndicator, Width;
    var c := s[..Width(s[0])];
    var b := Piece(s, unicode) + tail;
    next := PieceRead(s, unicode, tail, column, text);
    ScanGoesOn(Pos(b, column, text), Pos(tail, next, text + c));
  }

  /** The outer loop only sees where the inner one stops. */
  lemma ScanGoesOn(p: Pos, q: Pos)
    requires (p.column > 0 || !DocumentIndicator(p.rest)) && q.column > 0 && At(p.rest, 0) != 0 && At(q.rest, 0) != 0
    requires NonBlanks(p, false) == NonBlanks(q, false)
    ensures Scan(p, false) == Scan(q, false)
  {
  }

  lemma RawRead(s: seq<byte>, tail: seq<byte>, column: nat, text: seq<byte>)
    requires CharOk(s) && s[0] != QUOTE && s[0] != BACKSLASH && !BlankZ(s[..Width(s[0])] + tail)
    ensures var c := s[..Width(s[0])];
      NonBlanks(Pos(c + tail, column, text), false) == NonBlanks(Pos(tail, column + 1, text + c), false)
  {
    hide CharOk, BlankZ, NonBlanks, Width;
    WidthOk(s);
    var c := s[..Width(s[0])];
    var b := c + tail;
    assert b[0] == s[0] && Whole(b) && b[..Width(b[0])] == c && b[Width(b[0])..] == tail;
    RawStep(Pos(b, column, text));
  }

  lemma RawStep(p: Pos)
    requires Whole(p.rest) && p.rest[0] != QUOTE && p.rest[0] != BACKSLASH && !BlankZ(p.rest)
    ensures var w := Width(p.rest[0]);
      NonBlanks(p, false) == NonBlanks(Pos(p.rest[w..], p.column + 1, p.text + p.rest[..w]), false)
  {
    hide Unescape, Width, BreakLength, BlankZ;
  }

  lemma EscapeRead(v: nat, tail: seq<byte>, column: nat, text: seq<byte>)
    requires CodePoint(v)
    ensures var e := EscapeOf(v);
      At(e + tail, 0) != 0 &&
      NonBlanks(Pos(e + tail, column, text), false) == NonBlanks(Pos(tail, column + |e|, text + Encode(v)), false)
  {
    hide EscapeOf, Unescape, Encode, NonBlanks;
    var e := EscapeOf(v);
    var b := e + tail;
    EscapeBack(v, tail);
    EscapeAscii(v);
    EscapeLong(v);
    assert b[|e|..] == tail;
    assert b[0] == BACKSLASH && 0x20 <= b[1] <= 0x7E && b[1..][0] == b[1];
    EscapeStep(Pos(b, column, text), Escape(Encode(v), |e|));
  }

  lemma EscapeStep(p: Pos, e: Escape)
    requires At(p.rest, 0) == BACKSLASH && !IsBreak(p.rest[1..]) && Unescape(p.rest) == Some(e)
    ensures NonBlanks(p, false) == NonBlanks(Pos(p.rest[e.length..], p.column + e.length, p.text + e.text), false)
  {
    hide Unescape, Width, BreakLength;
  }

  lemma EscapeLong(v: nat)
    ensures |EscapeOf(v)| >= 2
  {
  }

  // ---------------------------------------------------------------- spaces

  /** Behind any spaces there is neither a tab nor a break nor the end. */
  predicate Spaced(b: seq<byte>) {
    if At(b, 0) == SPACE then Spaced(b[1..]) else Inner(b)
  }

  lemma PieceFirst(s: seq<byte>, unicode: bool)
    requires CharOk(s)
    ensures Piece(s, unicode) != []
    ensures Piece(s, unicode)[0] == SPACE ==> s[0] == SPACE && Piece(s, unicode) == [SPACE]
  {
    if MustEscape(s, unicode) {
      EscapeAscii(Value(s));
      EscapeLong(Value(s));
    }
  }

  lemma BlanksStep(b: seq<byte>, column: nat, blanks: seq<byte>)
    requires At(b, 0) == SPACE
    ensures Blanks(Fold(b, column, false, blanks, [], [])) ==
      Blanks(Fold(b[1..], column + 1, false, blanks + [SPACE], [], []))
  {
    hide BreakLength, BreakText;
  }

  lemma BlanksStop(b: seq<byte>, column: nat, blanks: seq<byte>)
    requires Inner(b) && At(b, 0) != SPACE
    ensures Blanks(Fold(b, column, false, blanks, [], [])) == Fold(b, column, false, blanks, [], [])
  {
    hide BreakLength, BreakText;
  }

  lemma {:induction false} BlanksRun(b: seq<byte>, column: nat, blanks: seq<byte>)
    requires Spaced(b)
    ensures var f := Blanks(Fold(b, column, false, blanks, [], [])); var g :=
      Blanks(Fold(b, column, false, [], [], []));
      f == g.(blanks := blanks + g.blanks) && !g.leading
    decreases b
  {
    hide Blanks, Inner;
    if At(b, 0) == SPACE {
      BlanksStep(b, column, blanks);
      BlanksStep(b, column, []);
      assert [] + [SPACE] == [SPACE];
      BlanksRun(b[1..], column + 1, blanks + [SPACE]);
      BlanksRun(b[1..], column + 1, [SPACE]);
      var g := Blanks(Fold(b[1..], column + 1, false, [], [], []));
      assert blanks + [SPACE] + g.blanks == blanks + ([SPACE] + g.blanks);
    } else {
      BlanksStop(b, column, blanks);
      BlanksStop(b, column, []);
      assert blanks + [] == blanks;
    }
  }

  /** At a blank the scan collects the blanks, and goes on behind them. */
  lemma ScanTurn(p: Pos, single: bool)
    requires IsBlank(p.rest) && p.column > 0
    ensures var f := Blanks(Fold(p.rest, p.column, false, [], [], []));
      Scan(p, single) == Scan(Pos(f.rest, f.column, p.text + Folded(f)), single)
  {
    hide DocumentIndicator, Blanks, Folded, Width, Unescape, BreakLength, BreakText;
    assert NonBlanks(p, single) == Some(Stop(p, false));
  }

  /** A space is part of the scalar. */
  lemma ScanSpace(b: seq<byte>, column: nat, text: seq<byte>)
    requires Spaced(b) && column > 0
    ensures Scan(Pos([SPACE] + b, column, text), false) == Scan(Pos(b, column + 1, text + [SPACE]), false)
  {
    hide Scan, Blanks, Inner;
    var p := Pos([SPACE] + b, column, text);
    assert p.rest[1..] == b && [] + [SPACE] == [SPACE];
    ScanTurn(p, false);
    BlanksStep(p.rest, column, []);
    if At(b, 0) == SPACE {
      BlanksRun(b, column + 1, [SPACE]);
      ScanTurn(Pos(b, column + 1, text + [SPACE]), false);
      var g := Blanks(Fold(b, column + 1, false, [], [], []));
      assert text + ([SPACE] + g.blanks) == text + [SPACE] + g.blanks;
    } else {
      BlanksStop(b, column + 1, [SPACE]);
    }
  }

  lemma ScanEnd(tail: seq<byte>, column: nat, text: seq<byte>)
    requires column > 0
    ensures Scan(Pos([QUOTE] + tail, column, text), false) == Some(Pos(tail, column + 1, text))
  {
    var p := Pos([QUOTE] + tail, column, text);
    assert p.rest[1..] == tail;
    assert NonBlanks(p, false) == Some(Stop(p, false));
  }

  // ---------------------------------------------------------------- broken lines

  /** What is left to scan where `s` is left to be written. */
  function Remains(s: seq<byte>, o: Layout, column: nat, spaces: bool, first: bool, tail: seq<byte>): seq<byte>
    requires Valid(s)
  {
    Lines(s, o, column, spaces, first) + [QUOTE] + tail
  }

  lemma RemainsNext(s: seq<byte>, o: Layout, column: nat, spaces: bool, first: bool, tail: seq<byte>)
    requires Valid(s) && s != []
    ensures Remains(s, o, column, spaces, first, tail) ==
      Front(s, o, column, spaces, first)
      + Remains(s[Width(s[0])..], o, NextColumn(s, o, column, spaces, first), s[0] == SPACE, false, tail)
  {
    hide CharOk, Front, NextColumn, Width;
  }

  /** A space is never escaped. */
  lemma SpacePiece(s: seq<byte>, unicode: bool)
    requires CharOk(s) && s[0] == SPACE
    ensures Width(s[0]) == 1 && Piece(s, unicode) == [SPACE] && Columns(s, unicode) == 1
  {
  }

  /** What remains begins with a break just where the line is broken, and never with a NUL. */
  lemma RemainsStart(s: seq<byte>, o: Layout, column: nat, spaces: bool, first: bool, tail: seq<byte>)
    requires Valid(s)
    ensures var b := Remains(s, o, column, spaces, first, tail);
      && At(b, 0) != 0
      && (!Folds(s, o, column, spaces, first) ==> Inner(b))
      && (s == [] || s[0] != SPACE ==> At(b, 0) != SPACE)
  {
    hide CharOk, Piece, NextColumn, Width;
    if s == [] {
      assert Remains(s, o, column, spaces, first, tail) == [QUOTE] + tail;
    } else {
      WidthOk(s);
      RemainsNext(s, o, column, spaces, first, tail);
      var rest := Remains(s[Width(s[0])..], o, NextColumn(s, o, column, spaces, first), s[0] == SPACE, false, tail);
      hide Remains;
      if !Folds(s, o, column, spaces, first) {
        PieceInner(s, o.unicode, rest);
        PieceFirst(s, o.unicode);
      }
    }
  }

  /** Behind a space no line is broken. */
  lemma {:induction false} SpacedRemains(s: seq<byte>, o: Layout, column: nat, first: bool, tail: seq<byte>)
    requires Valid(s)
    ensures Spaced(Remains(s, o, column, true, first, tail))
    decreases |s|
  {
    hide CharOk, Piece, Columns, Inner, Remains, Width;
    RemainsStart(s, o, column, true, first, tail);
    if s != [] && s[0] == SPACE {
      WidthOk(s);
      SpacePiece(s, o.unicode);
      RemainsNext(s, o, column, true, first, tail);
      var next := NextColumn(s, o, column, true, first);
      SpacedRemains(s[1..], o, next, false, tail);
      assert ([SPACE] + Remains(s[1..], o, next, true, false, tail))[1..] ==
        Remains(s[1..], o, next, true, false, tail);
    }
  }

  lemma LeadingStep(b: seq<byte>, column: nat)
    ensures Blanks(Fold([SPACE] + b, column, true, [], [LF], [])) == Blanks(Fold(b, column + 1, true, [], [LF], []))
    ensures Inner(b) && At(b, 0) != SPACE ==>
      Blanks(Fold(b, column, true, [], [LF], [])) == Fold(b, column, true, [], [LF], [])
  {
    hide BreakLength, BreakText;
    assert ([SPACE] + b)[1..] == b;
  }

  lemma {:induction false} SpacesSkipped(n: nat, b: seq<byte>, column: nat)
    requires Inner(b) && At(b, 0) != SPACE
    ensures Blanks(Fold(Spaces(n) + b, column, true, [], [LF], [])) == Fold(b, column + n, true, [], [LF], [])
  {
    hide Blanks, Inner, At;
    if n == 0 {
      assert Spaces(0) + b == b;
      LeadingStep(b, column);
    } else {
      LeadingStep(Spaces(n - 1) + b, column);
      SpacesSkipped(n - 1, b, column + 1);
      assert Spaces(n) + b == [SPACE] + (Spaces(n - 1) + b);
    }
  }

  lemma BreakRead(l: LineBreak, d: seq<byte>)
    requires At(d, 0) != LF
    ensures var r := BreakBytes(l) + d;
      && IsBreak(r) && !IsBlank(r) && At(r, 0) != QUOTE
      && BreakLength(r) == |BreakBytes(l)| && BreakText(r) == [LF] && r[|BreakBytes(l)|..] == d
  {
    assert l.CrBreak? ==> At(BreakBytes(l) + d, 1) == At(d, 0);
  }

  lemma BreakSkipped(o: Layout, b: seq<byte>, column: nat)
    requires Inner(b)
    ensures var r := BreakBytes(o.lineBreak) + Spaces(o.indent) + b;
      && IsBreak(r) && At(r, 0) != QUOTE
      && Blanks(Fold(r, column, false, [], [], [])) == Blanks(Fold(Spaces(o.indent) + b, 0, true, [], [LF], []))
  {
    var d := Spaces(o.indent) + b;
    assert At(d, 0) != LF;
    BreakRead(o.lineBreak, d);
    assert BreakBytes(o.lineBreak) + Spaces(o.indent) + b == BreakBytes(o.lineBreak) + d;
    hide Spaces, Inner, BreakBytes, IsBreak, IsBlank, BreakLength, BreakText;
  }

  /** A broken line: the space comes back, and the scan goes on at the indentation. */
  lemma ScanBreak(o: Layout, b: seq<byte>, column: nat, text: seq<byte>)
    requires Inner(b) && At(b, 0) != SPACE && column > 0
    ensures Scan(Pos(BreakBytes(o.lineBreak) + Spaces(o.indent) + b, column, text), false) ==
      Scan(Pos(b, o.indent, text + [SPACE]), false)
  {
    hide Blanks, NonBlanks, Spaces, BreakBytes, IsBreak, Inner, DocumentIndicator;
    BreakSkipped(o, b, column);
    SpacesSkipped(o.indent, b, 0);
    StopsAtBreak(Pos(BreakBytes(o.lineBreak) + Spaces(o.indent) + b, column, text));
  }

  lemma StopsAtBreak(p: Pos)
    requires IsBreak(p.rest)
    ensures At(p.rest, 0) != 0 && NonBlanks(p, false) == Some(Stop(p, false))
  {
  }

  /** The space that is escaped where the new line would begin with it. */
  lemma ScanGuard(b: seq<byte>, column: nat, text: seq<byte>)
    requires At(b, 0) != 0
    ensures Scan(Pos([BACKSLASH, SPACE] + b, column, text), false) == Scan(Pos(b, column + 2, text + [SPACE]), false)
  {
    var r := [BACKSLASH, SPACE] + b;
    assert r[2..] == b && r[1..][0] == SPACE;
    EscapeStep(Pos(r, column, text), Escape([SPACE], 2));
    hide NonBlanks;
    ScanGoesOn(Pos(r, column, text), Pos(b, column + 2, text + [SPACE]));
  }

  // ---------------------------------------------------------------- document indicators

  /** Text that a line must not begin with: a document indicator and a space. */
  predicate Marker(s: seq<byte>) {
    && |s| >= 4 && s[3] == SPACE
    && (s[0] == s[1] == s[2] == '-' as byte || s[0] == s[1] == s[2] == '.' as byte)
  }

  /** A line is broken in front of such text, and not indented. */
  predicate BreaksAtMarker(s: seq<byte>, o: Layout, column: nat, spaces: bool, first: bool)
    requires Valid(s)
  {
    s != [] &&
    ((Folds(s, o, column, spaces, first) && o.indent == 0 && Marker(s[1..]))
    || BreaksAtMarker(s[Width(s[0])..], o, NextColumn(s, o, column, spaces, first), s[0] == SPACE, false))
  }

  lemma PlainPiece(s: seq<byte>, unicode: bool)
    requires CharOk(s)
    ensures s[0] == '-' as byte || s[0] == '.' as byte ==> Piece(s, unicode) == [s[0]] && Width(s[0]) == 1
    ensures Piece(s, unicode) != []
    ensures Piece(s, unicode)[0] == '-' as byte || Piece(s, unicode)[0] == '.' as byte ==>
      Piece(s, unicode) == [s[0]] && Width(s[0]) == 1
  {
    if MustEscape(s, unicode) {
      EscapeAscii(Value(s));
      EscapeLong(Value(s));
    }
  }

  /** A dash or a dot is written just where it stands in the scalar. */
  lemma DashFirst(s: seq<byte>, o: Layout, column: nat, spaces: bool, first: bool, tail: seq<byte>, c: byte)
    requires Valid(s) && (c == '-' as byte || c == '.' as byte)
    ensures At(Remains(s, o, column, spaces, first, tail), 0) == c <==> s != [] && s[0] == c
    ensures s != [] && s[0] == c ==> Valid(s[1..])
    ensures s != [] && s[0] == c ==>
      Remains(s, o, column, spaces, first, tail)[1..] ==
        Remains(s[1..], o, NextColumn(s, o, column, spaces, first), false, false, tail)
  {
    hide CharOk, Piece, NextColumn, Width;
    if s == [] {
      assert Remains(s, o, column, spaces, first, tail) == [QUOTE] + tail;
    } else {
      WidthOk(s);
      RemainsNext(s, o, column, spaces, first, tail);
      PlainPiece(s, o.unicode);
    }
  }

  lemma BlankFirst(s: seq<byte>, o: Layout, column: nat, spaces: bool, first: bool, tail: seq<byte>)
    requires Valid(s)
    ensures BlankZ(Remains(s, o, column, spaces, first, tail)) <==> s != [] && s[0] == SPACE
  {
    hide CharOk, Piece, NextColumn, Remains, Width;
    RemainsStart(s, o, column, spaces, first, tail);
    if s != [] && s[0] == SPACE {
      WidthOk(s);
      SpacePiece(s, o.unicode);
      RemainsNext(s, o, column, spaces, first, tail);
    }
  }

  lemma IndicatorIff(s: seq<byte>, o: Layout, column: nat, spaces: bool, first: bool, tail: seq<byte>)
    requires Valid(s)
    ensures DocumentIndicator(Remains(s, o, column, spaces, first, tail)) <==> Marker(s)
  {
    hide CharOk, Remains, NextColumn, BlankZ, Width;
    IndicatorOf(s, o, column, spaces, first, tail, '-' as byte);
    IndicatorOf(s, o, column, spaces, first, tail, '.' as byte);
  }

  lemma IndicatorOf(s: seq<byte>, o: Layout, column: nat, spaces: bool, first: bool, tail: seq<byte>, c: byte)
    requires Valid(s) && (c == '-' as byte || c == '.' as byte)
    ensures var b := Remains(s, o, column, spaces, first, tail);
      (|b| >= 3 && At(b, 0) == At(b, 1) == At(b, 2) == c && BlankZ(b[3..])) <==>
      (|s| >= 4 && s[0] == s[1] == s[2] == c && s[3] == SPACE)
  {
    hide CharOk, Remains, NextColumn, BlankZ, Width;
    var b0 := Remains(s, o, column, spaces, first, tail);
    DashFirst(s, o, column, spaces, first, tail, c);
    if s != [] && s[0] == c {
      var n1 := NextColumn(s, o, column, spaces, first);
      DashFirst(s[1..], o, n1, false, false, tail, c);
      assert At(b0, 1) == At(b0[1..], 0);
      if |s| > 1 && s[1] == c {
        var n2 := NextColumn(s[1..], o, n1, false, false);
        assert s[1..][1..] == s[2..] && b0[1..][1..] == b0[2..] && At(b0, 2) == At(b0[2..], 0);
        DashFirst(s[2..], o, n2, false, false, tail, c);
        if |s| > 2 && s[2] == c {
          assert s[2..][1..] == s[3..] && b0[2..][1..] == b0[3..];
          BlankFirst(s[3..], o, NextColumn(s[2..], o, n2, false, false), false, false, tail);
        }
      }
    }
  }

  // ---------------------------------------------------------------- printer and scanner

  /** What became of scanning what was written for `s`. */
  predicate Comes(r: Option<Pos>, tail: seq<byte>, text: seq<byte>, broken: bool) {
    if broken then r == None else r.Some? && r.value.rest == tail && r.value.text == text
  }

  /** Scanning what was written for `s`, and whatever comes after it, gives back `s`, unless a
      line is broken in front of a document indicator. */
  lemma {:induction false} ScanLines(s: seq<byte>, o: Layout, column: nat, spaces: bool, first: bool,
      tail: seq<byte>, at: nat, text: seq<byte>)
    requires Valid(s)
    requires at > 0 || (s != [] && s[0] != SPACE && !DocumentIndicator(Remains(s, o, column, spaces, first, tail)))
    ensures Comes(Scan(Pos(Remains(s, o, column, spaces, first, tail), at, text), false), tail, text + s,
      BreaksAtMarker(s, o, column, spaces, first))
    decreases |s|
  {
    hide CharOk, Scan, Front, NextColumn, Folds, Remains, Piece, Columns, DocumentIndicator, Marker, Width;
    if s == [] {
      ScanEnd(tail, at, text);
      NothingRemains(o, column, spaces, first, tail);
      assert text + s == text;
    } else {
      WidthOk(s);
      var w, next := Width(s[0]), NextColumn(s, o, column, spaces, first);
      assert text + s == text + s[..w] + s[w..];
      if Folds(s, o, column, spaces, first) {
        ScanFold(s, o, column, spaces, first, tail, at, text);
      } else if s[0] == SPACE {
        SpaceOnLine(s, o, column, spaces, first, tail, at, text);
        ScanLines(s[w..], o, next, true, false, tail, at + 1, text + [SPACE]);
      } else {
        var at' := PieceOnLine(s, o, column, spaces, first, tail, at, text);
        ScanLines(s[w..], o, next, false, false, tail, at', text + s[..w]);
      }
    }
  }

  lemma NothingRemains(o: Layout, column: nat, spaces: bool, first: bool, tail: seq<byte>)
    ensures Remains([], o, column, spaces, first, tail) == [QUOTE] + tail
    ensures !BreaksAtMarker([], o, column, spaces, first)
  {
  }

  /** A space that is written as it is. */
  lemma SpaceOnLine(s: seq<byte>, o: Layout, column: nat, spaces: bool, first: bool, tail: seq<byte>, at: nat,
      text: seq<byte>)
    requires Valid(s) && s != [] && s[0] == SPACE && !Folds(s, o, column, spaces, first) && at > 0
    ensures Width(s[0]) == 1 && Valid(s[1..]) && text + s[..1] == text + [SPACE]
    ensures var rest := Remains(s[1..], o, NextColumn(s, o, column, spaces, first), true, false, tail);
      Scan(Pos(Remains(s, o, column, spaces, first, tail), at, text), false) ==
        Scan(Pos(rest, at + 1, text + [SPACE]), false)
    ensures BreaksAtMarker(s, o, column, spaces, first) <==>
      BreaksAtMarker(s[1..], o, NextColumn(s, o, column, spaces, first), true, false)
  {
    hide CharOk, Scan, NextColumn, Folds, Remains, Piece, Columns, Marker, Width;
    WidthOk(s);
    SpacePiece(s, o.unicode);
    RemainsNext(s, o, column, spaces, first, tail);
    var next := NextColumn(s, o, column, spaces, first);
    SpacedRemains(s[1..], o, next, false, tail);
    ScanSpace(Remains(s[1..], o, next, true, false, tail), at, text);
    assert s[..1] == [SPACE];
  }

  /** Any other character. */
  lemma PieceOnLine(s: seq<byte>, o: Layout, column: nat, spaces: bool, first: bool, tail: seq<byte>, at: nat,
      text: seq<byte>) returns (at': nat)
    requires Valid(s) && s != [] && s[0] != SPACE
    requires at > 0 || !DocumentIndicator(Remains(s, o, column, spaces, first, tail))
    ensures at' > 0 && Valid(s[Width(s[0])..])
    ensures var w := Width(s[0]);
      var rest := Remains(s[w..], o, NextColumn(s, o, column, spaces, first), false, false, tail);
      Scan(Pos(Remains(s, o, column, spaces, first, tail), at, text), false) ==
        Scan(Pos(rest, at', text + s[..w]), false)
    ensures BreaksAtMarker(s, o, column, spaces, first) <==>
      BreaksAtMarker(s[Width(s[0])..], o, NextColumn(s, o, column, spaces, first), false, false)
  {
    hide CharOk, Scan, NextColumn, Remains, Piece, Columns, Marker, Width, DocumentIndicator;
    WidthOk(s);
    RemainsNext(s, o, column, spaces, first, tail);
    var w, next := Width(s[0]), NextColumn(s, o, column, spaces, first);
    RemainsStart(s[w..], o, next, false, false, tail);
    at' := ScanPiece(s, o.unicode, Remains(s[w..], o, next, false, false, tail), at, text);
  }

  /** A space in whose place the line is broken. */
  lemma {:induction false} ScanFold(s: seq<byte>, o: Layout, column: nat, spaces: bool, first: bool,
      tail: seq<byte>, at: nat, text: seq<byte>)
    requires Valid(s) && Folds(s, o, column, spaces, first) && at > 0
    ensures Comes(Scan(Pos(Remains(s, o, column, spaces, first, tail), at, text), false), tail, text + s,
      BreaksAtMarker(s, o, column, spaces, first))
    decreases |s|, 0
  {
    hide CharOk, Scan, Remains, Piece, Columns, DocumentIndicator, Marker, Width;
    FoldStep(s, o, column, spaces, first, tail, at, text);
    var t := s[1..];
    var next := NextColumn(s, o, column, spaces, first);
    assert text + s == text + [SPACE] + t;
    if t[0] == SPACE {
      GuardStep(t, o, next, tail, o.indent, text + [SPACE]);
      assert text + [SPACE] + t == text + [SPACE] + [SPACE] + t[1..];
      ScanLines(t[1..], o, NextColumn(t, o, next, true, false), true, false, tail, o.indent + 2,
        text + [SPACE] + [SPACE]);
    } else {
      IndicatorIff(t, o, next, true, false, tail);
      assert [] + Remains(t, o, next, true, false, tail) == Remains(t, o, next, true, false, tail);
      if o.indent == 0 && Marker(t) {
        AtIndicator(Remains(t, o, next, true, false, tail), text + [SPACE]);
        return;
      }
      ScanLines(t, o, next, true, false, tail, o.indent, text + [SPACE]);
    }
  }

  lemma AtIndicator(b: seq<byte>, text: seq<byte>)
    requires DocumentIndicator(b)
    ensures Scan(Pos(b, 0, text), false) == None
  {
  }

  lemma FoldStep(s: seq<byte>, o: Layout, column: nat, spaces: bool, first: bool, tail: seq<byte>, at: nat,
      text: seq<byte>)
    requires Valid(s) && Folds(s, o, column, spaces, first) && at > 0
    ensures Width(s[0]) == 1 && Valid(s[1..]) && s[1..] != []
    ensures NextColumn(s, o, column, spaces, first) == o.indent + |Guard(s)|
    ensures Guard(s) == if s[1] == SPACE then [BACKSLASH] else []
    ensures var rest := Remains(s[1..], o, NextColumn(s, o, column, spaces, first), true, false, tail);
      Scan(Pos(Remains(s, o, column, spaces, first, tail), at, text), false) ==
        Scan(Pos(Guard(s) + rest, o.indent, text + [SPACE]), false)
    ensures BreaksAtMarker(s, o, column, spaces, first) <==>
      (o.indent == 0 && Marker(s[1..])) ||
      BreaksAtMarker(s[1..], o, NextColumn(s, o, column, spaces, first), true, false)
  {
    hide CharOk, Scan, Remains, Piece, Columns, Marker, Width;
    WidthOk(s);
    SpaceWidth();
    var t, next := s[1..], NextColumn(s, o, column, spaces, first);
    RemainsNext(s, o, column, spaces, first, tail);
    RemainsStart(t, o, next, true, false, tail);
    var b := Guard(s) + Remains(t, o, next, true, false, tail);
    assert s[1] == t[0];
    assert Guard(s) == [] ==> b == Remains(t, o, next, true, false, tail);
    assert Inner(b) && At(b, 0) != SPACE;
    ScanBreak(o, b, at, text);
    assert BreakBytes(o.lineBreak) + Spaces(o.indent) + b == NewLine(s, o) + Remains(t, o, next, true, false, tail);
  }

  lemma GuardStep(t: seq<byte>, o: Layout, column: nat, tail: seq<byte>, at: nat, text: seq<byte>)
    requires Valid(t) && t != [] && t[0] == SPACE
    ensures Width(t[0]) == 1 && Valid(t[1..]) && !Marker(t)
    ensures var next := NextColumn(t, o, column, true, false);
      && Scan(Pos([BACKSLASH] + Remains(t, o, column, true, false, tail), at, text), false) ==
           Scan(Pos(Remains(t[1..], o, next, true, false, tail), at + 2, text + [SPACE]), false)
      && (BreaksAtMarker(t, o, column, true, false) <==> BreaksAtMarker(t[1..], o, next, true, false))
  {
    hide CharOk, Scan, Remains, Piece, Columns, NextColumn, Width;
    WidthOk(t);
    SpacePiece(t, o.unicode);
    RemainsNext(t, o, column, true, false, tail);
    var next := NextColumn(t, o, column, true, false);
    var rest := Remains(t[1..], o, next, true, false, tail);
    RemainsStart(t[1..], o, next, true, false, tail);
    ScanGuard(rest, at, text);
    assert [BACKSLASH] + ([SPACE] + rest) == [BACKSLASH, SPACE] + rest;
  }

  /** The scan of a whole quoted scalar, from its left quote on. */
  function ScanQuoted(b: seq<byte>, column: nat, single: bool): Option<Pos>
    requires b != []
  {
    Scan(Pos(b[1..], column + 1, []), single)
  }

  /** Printer and scanner undo each other, over broken lines too: the scalar comes back and the
      scan stops right behind it, unless a line is broken in front of a document indicator and
      not indented, when the scanner fails. */
  lemma LinesScan(s: seq<byte>, o: Layout, from: nat, tail: seq<byte>, column: nat)
    requires Valid(s)
    ensures Comes(ScanQuoted(QuotedLines(s, o, from) + tail, column, false), tail, s,
      BreaksAtMarker(s, o, from + 1, false, true))
  {
    hide Scan, Lines, BreaksAtMarker;
    ScanLines(s, o, from + 1, false, true, tail, column + 1, []);
    assert (QuotedLines(s, o, from) + tail)[1..] == Remains(s, o, from + 1, false, true, tail);
    assert [] + s == s;
  }

  lemma {:induction false} NoBreakNoMarker(s: seq<byte>, o: Layout, column: nat, spaces: bool, first: bool)
    requires Valid(s) && (!o.breaks || o.indent > 0)
    ensures !BreaksAtMarker(s, o, column, spaces, first)
  {
    hide CharOk, NextColumn, Width;
    if s != [] {
      WidthOk(s);
      NoBreakNoMarker(s[Width(s[0])..], o, NextColumn(s, o, column, spaces, first), s[0] == SPACE, false);
    }
  }

  /** So a scalar that is not broken, or is indented, always comes back. */
  lemma IndentedScans(s: seq<byte>, o: Layout, from: nat, tail: seq<byte>, column: nat)
    requires Valid(s) && (!o.breaks || o.indent > 0)
    ensures Comes(ScanQuoted(QuotedLines(s, o, from) + tail, column, false), tail, s, false)
  {
    LinesScan(s, o, from, tail, column);
    NoBreakNoMarker(s, o, from + 1, false, true);
    hide ScanQuoted, QuotedLines;
  }

  /** On one line in particular. */
  lemma WrittenScans(s: seq<byte>, unicode: bool, tail: seq<byte>, column: nat)
    requires Valid(s)
    ensures Comes(ScanQuoted(Quoted(s, unicode) + tail, column, false), tail, s, false)
  {
    var o := Layout(unicode, false, 0, 0, LnBreak);
    OneLine(s, o, 1, false, true);
    IndentedScans(s, o, 0, tail, column);
  }

  /** Two control characters, then a space, a document indicator and more: broken behind column 5
      without indentation, the scalar cannot be scanned again. */
  lemma BrokenAtIndicator(tail: seq<byte>)
    ensures Valid(BROKEN) && ScanQuoted(QuotedLines(BROKEN, NARROW, 0) + tail, 0, false) == None
  {
    hide ScanQuoted, QuotedLines, Valid, BreaksAtMarker;
    AsciiValid(BROKEN);
    BreaksBroken();
    LinesScan(BROKEN, NARROW, 0, tail, 0);
  }

  const BROKEN: seq<byte> := [1, 1, SPACE, 45, 45, 45, SPACE, 97]
  const NARROW: Layout := Layout(false, true, 5, 0, LnBreak)

  lemma BreaksBroken()
    requires Valid(BROKEN)
    ensures BreaksAtMarker(BROKEN, NARROW, 1, false, true)
  {
    hide CharOk, Valid, BreaksAtMarker, NextColumn;
    var s1: seq<byte> := [1, SPACE, 45, 45, 45, SPACE, 97];
    var s2: seq<byte> := [SPACE, 45, 45, 45, SPACE, 97];
    var s3: seq<byte> := [45, 45, 45, SPACE, 97];
    assert BROKEN[1..] == s1 && s1[1..] == s2 && s2[1..] == s3;
    AsciiValid(s1);
    AsciiValid(s2);
    MarkerNext(s2, NARROW, 9);
    ControlNext(s1, NARROW, 5, false);
    ControlNext(BROKEN, NARROW, 1, true);
  }

  lemma MarkerNext(s: seq<byte>, o: Layout, column: nat)
    requires Valid(s) && Folds(s, o, column, false, false) && o.indent == 0 && Marker(s[1..])
    ensures BreaksAtMarker(s, o, column, false, false)
  {
    hide CharOk, NextColumn, Width;
  }

  lemma {:induction false} AsciiValid(s: seq<byte>)
    requires forall i :: 0 <= i < |s| ==> s[i] < 0x80
    ensures Valid(s)
  {
    if s != [] {
      AsciiValid(s[1..]);
    }
  }

  /** The character 1 is written with four columns. */
  lemma ControlNext(s: seq<byte>, o: Layout, column: nat, first: bool)
    requires Valid(s) && s != [] && s[0] == 1
    ensures Width(s[0]) == 1 && NextColumn(s, o, column, false, first) == column + 4
    ensures BreaksAtMarker(s[1..], o, column + 4, false, false) ==> BreaksAtMarker(s, o, column, false, first)
  {
  }

  lemma Sliced(b: seq<byte>, n: nat)
    requires |b| >= 2
    ensures 2 + n <= |b| ==> b[2..][..n] == b[2..2 + n] && b[2..][n..] == b[2 + n..]
  {
  }

  // ---------------------------------------------------------------- the scanner in place

  class FlowScanner {
    // parser->buffer from its pointer on, and parser->mark.column
    var buffer: seq<byte>
    var column: nat

    ghost function Here(text: seq<byte>): Pos
      reads this
    {
      Pos(buffer, column, text)
    }

    constructor (buffer: seq<byte>, column: nat)
      ensures this.buffer == buffer && this.column == column
    {
      this.buffer, this.column := buffer, column;
    }

    /** `SKIP` over ASCII characters. */
    method Skip(n: nat)
      requires n <= |buffer|
      modifies this
      ensures buffer == old(buffer[n..]) && column == old(column) + n
    {
      buffer, column := buffer[n..], column + n;
    }

    /** `SKIP_LINE` and `READ_LINE` */
    method ReadLine() returns (text: seq<byte>)
      requires IsBreak(buffer)
      modifies this
      ensures text == BreakText(old(buffer)) && buffer == old(buffer)[BreakLength(old(buffer))..] && column == 0
    {
      text := [LF];
      if At(buffer, 0) == CR && At(buffer, 1) == LF {
        buffer := buffer[2..];
      } else if At(buffer, 0) == CR || At(buffer, 0) == LF {
        buffer := buffer[1..];
      } else if IsNextLine(buffer) {
        buffer := buffer[2..];
      } else {
        text := buffer[..3];
        buffer := buffer[3..];
      }
      column := 0;
    }

    /** The code of an escape; None unless it is all digits and names a character. */
    method ReadCode(codeLength: nat) returns (text: Option<seq<byte>>)
      modifies this
      ensures var b := old(buffer);
        if codeLength <= |b| && AllHex(b[..codeLength]) && CodePoint(FromHex(b[..codeLength])) then
          text == Some(Encode(FromHex(b[..codeLength]))) && buffer == b[codeLength..] &&
            column == old(column) + codeLength
        else text == None
    {
      text := None;
      var value := 0;
      var k := 0;
      while k < codeLength
        invariant 0 <= k <= codeLength && k <= |buffer|
        invariant AllHex(buffer[..k]) && value == FromHex(buffer[..k])
      {
        if !IsHex(At(buffer, k)) {
          assert codeLength <= |buffer| ==> buffer[..codeLength][k] == buffer[k];
          return;
        }
        assert buffer[..k + 1][..k] == buffer[..k];
        value := value * 16 + AsHex(buffer[k]);
        k := k + 1;
      }
      if 0xD800 <= value <= 0xDFFF || value > 0x10FFFF {
        return;
      }
      text := Some(Encode(value));
      Skip(codeLength);
    }

    /** An escape sequence; None for an unknown letter or a bad code. */
    method ReadEscape() returns (text: Option<seq<byte>>)
      requires buffer != []
      modifies this
      ensures Unescape(old(buffer)).None? ==> text == None
      ensures var e := Unescape(old(buffer));
        e.Some? ==>
          text == Some(e.value.text) && buffer == old(buffer)[e.value.length..] &&
          column == old(column) + e.value.length
    {
      hide FromHex, AllHex, Named, CodeLength, Encode, CodePoint;
      var c := At(buffer, 1);
      text := Named(c);
      var codeLength := CodeLength(c);
      if |buffer| < 2 || (text.None? && codeLength == 0) {
        return None;
      }
      Skip(2);
      if text.None? {
        Sliced(old(buffer), codeLength);
        text := ReadCode(codeLength);
      }
    }

    /** The inner loop. */
    method ReadNonBlanks(single: bool, text0: seq<byte>) returns (ok: bool, text: seq<byte>, leading: bool)
      modifies this
      ensures ok <==> NonBlanks(old(Here(text0)), single).Some?
      ensures ok ==> NonBlanks(old(Here(text0)), single) == Some(Stop(Here(text), leading))
    {
      hide Unescape, Width, BreakLength, IsBreak;
      text, leading := text0, false;
      while !BlankZ(buffer)
        invariant !leading
        invariant NonBlanks(Here(text), single) == NonBlanks(old(Here(text0)), single)
        decreases |buffer|
      {
        if single && At(buffer, 0) == APOSTROPHE && At(buffer, 1) == APOSTROPHE {
          text := text + [APOSTROPHE];
          Skip(2);
        } else if At(buffer, 0) == QuoteOf(single) {
          break;
        } else if !single && At(buffer, 0) == BACKSLASH && IsBreak(buffer[1..]) {
          Skip(1);
          var _ := ReadLine();
          leading := true;
          return true, text, leading;
        } else if !single && At(buffer, 0) == BACKSLASH {
          var e := ReadEscape();
          if e.None? {
            return false, text, leading;
          }
          text := text + e.value;
        } else if !Whole(buffer) {
          return false, text, leading;
        } else {
          var w := Width(buffer[0]);
          text := text + buffer[..w];
          buffer, column := buffer[w..], column + 1;
        }
      }
      ok := true;
    }

    /** Blanks and breaks, and what they are folded to. */
    method ReadBlanks(leading0: bool) returns (text: seq<byte>)
      modifies this
      ensures var f := Blanks(Fold(old(buffer), old(column), leading0, [], [], []));
        buffer == f.rest && column == f.column && text == Folded(f)
    {
      var leading, whitespaces, leadingBreak, trailingBreaks := leading0, [], [], [];
      while IsBlank(buffer) || IsBreak(buffer)
        invariant Blanks(Fold(buffer, column, leading, whitespaces, leadingBreak, trailingBreaks))
          == Blanks(Fold(old(buffer), old(column), leading0, [], [], []))
        decreases |buffer|
      {
        if IsBlank(buffer) {
          if !leading {
            whitespaces := whitespaces + [buffer[0]];
          }
          Skip(1);
        } else if !leading {
          whitespaces := [];
          leadingBreak := ReadLine();
          leading := true;
        } else {
          var t := ReadLine();
          trailingBreaks := trailingBreaks + t;
        }
      }
      text := whitespaces;
      if leading {
        if leadingBreak != [] && leadingBreak[0] == LF {
          text := if trailingBreaks == [] then [SPACE] else trailingBreaks;
        } else {
          text := leadingBreak + trailingBreaks;
        }
      }
    }

    /** `yaml_parser_scan_flow_scalar`; None for a scanner error. */
    method ScanFlowScalar(single: bool) returns (value: Option<seq<byte>>)
      requires buffer != []
      modifies this
      ensures value.None? <==> ScanQuoted(old(buffer), old(column), single).None?
      ensures value.Some? ==> ScanQuoted(old(buffer), old(column), single) == Some(Here(value.value))
    {
      hide Blanks, Folded, NonBlanks, DocumentIndicator;
      Skip(1);
      var text := [];
      while true
        invariant Scan(Here(text), single) == ScanQuoted(old(buffer), old(column), single)
        decreases |buffer|
      {
        if column == 0 && DocumentIndicator(buffer) {
          return None;
        }
        if At(buffer, 0) == 0 {
          return None;
        }
        var ok, leading;
        ok, text, leading := ReadNonBlanks(single, text);
        if !ok {
          return None;
        }
        if At(buffer, 0) == QuoteOf(single) {
          Skip(1);
          return Some(text);
        }
        var folded := ReadBlanks(leading);
        text := text + folded;
      }
    }
  }
}
