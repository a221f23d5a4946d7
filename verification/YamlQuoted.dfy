/**
 The double-quoted style of the YAML emitter: what is escaped and how, and where lines are
 broken. The writer at the end is the source's.
 */
module YamlQuoted {
  import opened Bytes
  import opened Utf8

  const QUOTE: byte := 34
  const BACKSLASH: byte := 92
  const SPACE: byte := 32
  const TAB: byte := 9
  const LF: byte := 10
  const CR: byte := 13

  /** The byte at an offset; a buffer ends with a NUL. */
  function At(b: seq<byte>, i: nat): byte {
    if i < |b| then b[i] else 0
  }

  predicate IsBlank(b: seq<byte>) {
    At(b, 0) == SPACE || At(b, 0) == TAB
  }

  predicate IsSeparator(b: seq<byte>) {
    At(b, 0) == 0xE2 && At(b, 1) == 0x80 && (At(b, 2) == 0xA8 || At(b, 2) == 0xA9)
  }

  predicate IsNextLine(b: seq<byte>) {
    At(b, 0) == 0xC2 && At(b, 1) == 0x85
  }

  predicate IsBreak(b: seq<byte>) {
    At(b, 0) == CR || At(b, 0) == LF || IsNextLine(b) || IsSeparator(b)
  }

  predicate IsBom(b: seq<byte>) {
    At(b, 0) == 0xEF && At(b, 1) == 0xBB && At(b, 2) == 0xBF
  }

  /** `IS_PRINTABLE` */
  predicate IsPrintable(b: seq<byte>) {
    || At(b, 0) == LF
    || 0x20 <= At(b, 0) <= 0x7E
    || (At(b, 0) == 0xC2 && At(b, 1) >= 0xA0)
    || 0xC2 < At(b, 0) < 0xED
    || (At(b, 0) == 0xED && At(b, 1) < 0xA0)
    || At(b, 0) == 0xEE
    || (At(b, 0) == 0xEF && !(At(b, 1) == 0xBB && At(b, 2) == 0xBF)
        && !(At(b, 1) == 0xBF && (At(b, 2) == 0xBE || At(b, 2) == 0xBF)))
  }

  predicate MustEscape(b: seq<byte>, unicode: bool) {
    !IsPrintable(b) || (!unicode && At(b, 0) > 0x7F) || IsBom(b) || IsBreak(b) || At(b, 0) == QUOTE ||
      At(b, 0) == BACKSLASH
  }

  /** The letter of a named escape, or 0. */
  function Letter(v: nat): byte {
    if v == 0x00 then '0' as byte else if v == 0x07 then 'a' as byte else if v == 0x08 then 'b' as byte
    else if v == 0x09 then 't' as byte else if v == 0x0A then 'n' as byte else if v == 0x0B then 'v' as byte
    else if v == 0x0C then 'f' as byte else if v == 0x0D then 'r' as byte else if v == 0x1B then 'e' as byte
    else if v == 0x22 then QUOTE else if v == 0x5C then BACKSLASH
    else if v == 0x85 then 'N' as byte else if v == 0xA0 then '_' as byte
    else if v == 0x2028 then 'L' as byte else if v == 0x2029 then 'P' as byte
    else 0
  }

  function Digit(d: nat): byte
    requires d < 16
  {
    if d < 10 then d + 48 else d + 55
  }

  /** The lowest `n` hexadecimal digits of `v`. */
  function Hex(v: nat, n: nat): (s: seq<byte>)
    ensures |s| == n
  {
    if n == 0 then [] else Hex(v / 16, n - 1) + [Digit(v % 16)]
  }

  function Digits(v: nat): nat {
    if v <= 0xFF then 2 else if v <= 0xFFFF then 4 else 8
  }

  function Code(n: nat): byte {
    if n == 2 then 'x' as byte else if n == 4 then 'u' as byte else 'U' as byte
  }

  /** The escape of a character. */
  function EscapeOf(v: nat): seq<byte> {
    if Letter(v) != 0 then [BACKSLASH, Letter(v)] else [BACKSLASH, Code(Digits(v))] + Hex(v, Digits(v))
  }

  /** What is written for the first character of `s`. */
  function Piece(s: seq<byte>, unicode: bool): (r: seq<byte>)
    requires CharOk(s)
  {
    if MustEscape(s, unicode) then EscapeOf(Value(s)) else s[..Width(s[0])]
  }

  function Body(s: seq<byte>, unicode: bool): seq<byte>
    requires Valid(s)
  {
    if s == [] then [] else Piece(s, unicode) + Body(s[Width(s[0])..], unicode)
  }

  /** A scalar on one line. */
  function Quoted(s: seq<byte>, unicode: bool): seq<byte>
    requires Valid(s)
  {
    [QUOTE] + Body(s, unicode) + [QUOTE]
  }

  // ---------------------------------------------------------------- breaking lines

  datatype LineBreak = CrBreak | LnBreak | CrLnBreak

  /** Whether lines may be broken, beyond which column, and how. */
  datatype Layout = Layout(unicode: bool, breaks: bool, width: int, indent: nat, lineBreak: LineBreak)

  function BreakBytes(l: LineBreak): seq<byte> {
    match l
    case CrBreak => [CR]
    case LnBreak => [LF]
    case CrLnBreak => [CR, LF]
  }

  function Spaces(n: nat): (s: seq<byte>)
    ensures |s| == n && forall i :: 0 <= i < n ==> s[i] == SPACE
  {
    if n == 0 then [] else [SPACE] + Spaces(n - 1)
  }

  /** The line is broken in place of a space that is not the scalar's first or last byte, nor
      behind another space. */
  predicate Folds(s: seq<byte>, o: Layout, column: nat, spaces: bool, first: bool): (b: bool)
    ensures b ==> s != [] && s[0] == SPACE
  {
    s != [] && s[0] == SPACE && o.breaks && !spaces && column > o.width && !first && |s| != 1
  }

  /** If another space follows, it is escaped. */
  function Guard(s: seq<byte>): seq<byte> {
    if At(s, 1) == SPACE then [BACKSLASH] else []
  }

  function NewLine(s: seq<byte>, o: Layout): seq<byte> {
    BreakBytes(o.lineBreak) + Spaces(o.indent) + Guard(s)
  }

  /** How many columns the first character takes. */
  function Columns(s: seq<byte>, unicode: bool): (n: nat)
    requires CharOk(s)
    ensures n > 0
  {
    if MustEscape(s, unicode) then |EscapeOf(Value(s))| else 1
  }

  /** What is written for the first character of `s` at a column; `spaces` if a space was written
      last, `first` if nothing was. */
  function Front(s: seq<byte>, o: Layout, column: nat, spaces: bool, first: bool): seq<byte>
    requires CharOk(s)
  {
    if Folds(s, o, column, spaces, first) then NewLine(s, o) else Piece(s, o.unicode)
  }

  /** The column behind that. */
  function NextColumn(s: seq<byte>, o: Layout, column: nat, spaces: bool, first: bool): nat
    requires CharOk(s)
  {
    if Folds(s, o, column, spaces, first) then o.indent + |Guard(s)| else column + Columns(s, o.unicode)
  }

  function Lines(s: seq<byte>, o: Layout, column: nat, spaces: bool, first: bool): seq<byte>
    requires Valid(s)
  {
    if s == [] then []
    else
      Front(s, o, column, spaces, first)
      + Lines(s[Width(s[0])..], o, NextColumn(s, o, column, spaces, first), s[0] == SPACE, false)
  }

  /** The column that is reached. */
  function EndColumn(s: seq<byte>, o: Layout, column: nat, spaces: bool, first: bool): nat
    requires Valid(s)
  {
    if s == [] then column
    else EndColumn(s[Width(s[0])..], o, NextColumn(s, o, column, spaces, first), s[0] == SPACE, false)
  }

  /** A scalar from its left quote at a column on. */
  function QuotedLines(s: seq<byte>, o: Layout, column: nat): seq<byte>
    requires Valid(s)
  {
    [QUOTE] + Lines(s, o, column + 1, false, true) + [QUOTE]
  }

  /** Where lines may not be broken there is one. */
  lemma {:induction false} OneLine(s: seq<byte>, o: Layout, column: nat, spaces: bool, first: bool)
    requires Valid(s) && !o.breaks
    ensures Lines(s, o, column, spaces, first) == Body(s, o.unicode)
  {
    hide CharOk, Piece, NextColumn;
    if s != [] {
      WidthOk(s);
      OneLine(s[Width(s[0])..], o, NextColumn(s, o, column, spaces, first), s[0] == SPACE, false);
    }
  }

  /** The characters the YAML reader lets through. */
  predicate Allowed(v: nat) {
    v == 0x09 || v == 0x0A || v == 0x0D || 0x20 <= v <= 0x7E || v == 0x85 || 0xA0 <= v <= 0xD7FF
    || 0xE000 <= v <= 0xFFFD || 0x10000 <= v <= 0x10FFFF
  }

  predicate Readable(s: seq<byte>) {
    s == [] || (CharOk(s) && Allowed(Value(s)) && Readable(s[Width(s[0])..]))
  }

  predicate Ascii(s: seq<byte>) {
    forall i :: 0 <= i < |s| ==> 0x20 <= s[i] <= 0x7E
  }

  lemma HexAscii(v: nat, n: nat)
    ensures Ascii(Hex(v, n))
  {
  }

  /** An escape is printable ASCII, and begins with a backslash. */
  lemma EscapeAscii(v: nat)
    ensures Ascii(EscapeOf(v)) && EscapeOf(v)[0] == BACKSLASH
  {
    HexAscii(v, Digits(v));
  }

  /** Printable ASCII and line breaks. */
  predicate Text(s: seq<byte>) {
    forall i :: 0 <= i < |s| ==> 0x20 <= s[i] <= 0x7E || s[i] == CR || s[i] == LF
  }

  lemma ReadableByte(b: byte, tail: seq<byte>)
    requires (0x20 <= b <= 0x7E || b == CR || b == LF) && Readable(tail)
    ensures Readable([b] + tail)
  {
    assert ([b] + tail)[1..] == tail;
  }

  lemma {:induction false} ReadableText(s: seq<byte>, tail: seq<byte>)
    requires Text(s) && Readable(tail)
    ensures Readable(s + tail)
  {
    hide Readable;
    if s == [] {
      assert s + tail == tail;
    } else {
      ReadableText(s[1..], tail);
      ReadableByte(s[0], s[1..] + tail);
      assert s + tail == [s[0]] + (s[1..] + tail);
    }
  }

  lemma NewLineText(s: seq<byte>, o: Layout)
    ensures Text(NewLine(s, o))
  {
  }

  /** A character written as it is may be read. */
  lemma PrintableAllowed(s: seq<byte>)
    requires CharOk(s) && IsPrintable(s)
    ensures Allowed(Value(s))
  {
    BitsOf(s);
    LeadingByte(s[0]);
    hide Bits;
  }

  lemma ReadableChar(s: seq<byte>, tail: seq<byte>)
    requires CharOk(s) && Allowed(Value(s)) && Readable(tail)
    ensures Readable(s[..Width(s[0])] + tail)
  {
    CharAlone(s, tail);
    var c := s[..Width(s[0])];
    assert (c + tail)[Width(s[0])..] == tail;
  }

  lemma PieceReadable(s: seq<byte>, unicode: bool, tail: seq<byte>)
    requires CharOk(s) && Readable(tail)
    ensures Readable(Piece(s, unicode) + tail)
  {
    hide EscapeOf, Value, Width, MustEscape, IsPrintable;
    if MustEscape(s, unicode) {
      EscapeAscii(Value(s));
      ReadableText(EscapeOf(Value(s)), tail);
    } else {
      PrintableHere(s, unicode);
      PrintableAllowed(s);
      ReadableChar(s, tail);
    }
  }

  lemma PrintableHere(s: seq<byte>, unicode: bool)
    requires !MustEscape(s, unicode)
    ensures IsPrintable(s)
  {
  }

  lemma FrontReadable(s: seq<byte>, o: Layout, column: nat, spaces: bool, first: bool, tail: seq<byte>)
    requires CharOk(s) && Readable(tail)
    ensures Readable(Front(s, o, column, spaces, first) + tail)
  {
    hide Piece, Readable, NewLine, CharOk;
    if Folds(s, o, column, spaces, first) {
      NewLineText(s, o);
      ReadableText(NewLine(s, o), tail);
    } else {
      PieceReadable(s, o.unicode, tail);
    }
  }

  /** The reader lets everything through that the writer writes. */
  lemma {:induction false} LinesReadable(s: seq<byte>, o: Layout, column: nat, spaces: bool, first: bool,
      tail: seq<byte>)
    requires Valid(s) && Readable(tail)
    ensures Readable(Lines(s, o, column, spaces, first) + tail)
    decreases |s|
  {
    hide CharOk, Front, NextColumn, Width, Readable;
    if s == [] {
      assert Lines(s, o, column, spaces, first) + tail == tail;
    } else {
      WidthOk(s);
      var w, next := Width(s[0]), NextColumn(s, o, column, spaces, first);
      var rest := Lines(s[w..], o, next, s[0] == SPACE, false);
      LinesReadable(s[w..], o, next, s[0] == SPACE, false, tail);
      FrontReadable(s, o, column, spaces, first, rest + tail);
      assert Lines(s, o, column, spaces, first) + tail == Front(s, o, column, spaces, first) + (rest + tail);
    }
  }

  lemma QuotedReadable(s: seq<byte>, o: Layout, column: nat)
    requires Valid(s)
    ensures Readable(QuotedLines(s, o, column))
  {
    assert Readable([]) && [QUOTE][1..] == [];
    assert Readable([QUOTE]);
    LinesReadable(s, o, column + 1, false, true, [QUOTE]);
    var r := Lines(s, o, column + 1, false, true) + [QUOTE];
    assert QuotedLines(s, o, column) == [QUOTE] + r && ([QUOTE] + r)[1..] == r;
  }

  /** Without `unicode`, everything written is printable ASCII. */
  lemma {:induction false} BodyAscii(s: seq<byte>)
    requires Valid(s)
    ensures Ascii(Body(s, false))
  {
    if s != [] {
      BodyAscii(s[Width(s[0])..]);
      if MustEscape(s, false) {
        EscapeAscii(Value(s));
      }
    }
  }

  // ---------------------------------------------------------------- the writer in place

  class QuotedWriter {
    const unicode: bool
    const bestWidth: int
    const lineBreak: LineBreak
    // emitter->indent; below zero outside any collection
    const indent: int
    // emitter->buffer, from where it was last flushed on
    var buffer: seq<byte>
    var column: nat
    var whitespace: bool
    var indention: bool

    constructor (unicode: bool, bestWidth: int, lineBreak: LineBreak, indent: int)
      ensures this.unicode == unicode && this.bestWidth == bestWidth && this.lineBreak == lineBreak
      ensures this.indent == indent && buffer == [] && column == 0 && whitespace && indention
    {
      this.unicode, this.bestWidth, this.lineBreak, this.indent := unicode, bestWidth, lineBreak, indent;
      buffer, column, whitespace, indention := [], 0, true, true;
    }

    function Indent(): nat {
      if indent >= 0 then indent else 0
    }

    function LayoutOf(allowBreaks: bool): Layout {
      Layout(unicode, allowBreaks, bestWidth, Indent(), lineBreak)
    }

    method Put(b: byte)
      modifies `buffer, `column
      ensures buffer == old(buffer) + [b] && column == old(column) + 1
    {
      buffer := buffer + [b];
      column := column + 1;
    }

    method PutBreak()
      modifies `buffer, `column
      ensures buffer == old(buffer) + BreakBytes(lineBreak) && column == 0
    {
      match lineBreak {
        case CrBreak => buffer := buffer + [CR];
        case LnBreak => buffer := buffer + [LF];
        case CrLnBreak => buffer := buffer + [CR, LF];
      }
      column := 0;
    }

    /** `WRITE`: copies a character. */
    method Write(text: seq<byte>) returns (rest: seq<byte>)
      requires Whole(text)
      modifies `buffer, `column
      ensures buffer == old(buffer) + text[..Width(text[0])] && rest == text[Width(text[0])..]
      ensures column == old(column) + 1
    {
      var w := Width(text[0]);
      buffer := buffer + text[..w];
      column := column + 1;
      rest := text[w..];
    }

    /** `yaml_emitter_write_indicator` of a quote. */
    method WriteQuote(needWhitespace: bool)
      modifies this
      ensures var gap := if needWhitespace && !old(whitespace) then [SPACE] else [];
        buffer == old(buffer) + gap + [QUOTE] && column == old(column) + |gap| + 1
      ensures !whitespace && !indention
    {
      if needWhitespace && !whitespace {
        Put(SPACE);
      }
      Put(QUOTE);
      whitespace, indention := false, false;
    }

    /** `yaml_emitter_write_indent` */
    method WriteIndent()
      modifies this
      ensures whitespace && indention
      ensures var n := Indent(); var c := old(column);
        if !old(indention) || c > n || (c == n && !old(whitespace)) then
          buffer == old(buffer) + (BreakBytes(lineBreak) + Spaces(n)) && column == n
        else buffer == old(buffer) + Spaces(n - c) && column == n
    {
      var n := Indent();
      if !indention || column > n || (column == n && !whitespace) {
        PutBreak();
      }
      ghost var was, c := buffer, column;
      while column < n
        invariant c <= column <= n && buffer == was + Spaces(column - c)
      {
        SpacesSnoc(column - c);
        Put(SPACE);
      }
      whitespace, indention := true, true;
    }

    /** The digits of an escape code, highest first. */
    method PutDigits(value: nat, width: nat)
      requires width > 0
      modifies `buffer, `column
      ensures buffer == old(buffer) + Hex(value, width) && column == old(column) + width
    {
      var k := width;
      while k > 0
        invariant 0 <= k <= width && column == old(column) + width - k
        invariant buffer == old(buffer) + Hex(Shifted(value, k), width - k)
      {
        k := k - 1;
        assert Shifted(value, k + 1) == Shifted(value, k) / 16;
        var digit := Shifted(value, k) % 16;
        Put(Digit(digit));
      }
    }

    method Decode(text: seq<byte>) returns (value: nat)
      requires Whole(text)
      ensures value == Value(text)
    {
      var width := Width(text[0]);
      value := LeadBits(text[0]);
      var k := 1;
      while k < width
        invariant 1 <= k <= width && value == Bits(text, k)
      {
        value := value * 64 + TailBits(text[k]);
        k := k + 1;
      }
    }

    method WriteEscape(value: nat)
      modifies `buffer, `column
      ensures buffer == old(buffer) + EscapeOf(value) && column == old(column) + |EscapeOf(value)|
    {
      Put(BACKSLASH);
      if Letter(value) != 0 {
        Put(Letter(value));
        return;
      }
      var width := Digits(value);
      Put(Code(width));
      PutDigits(value, width);
    }

    /** One character, escaped or not. */
    method WriteChar(text: seq<byte>) returns (rest: seq<byte>)
      requires CharOk(text)
      modifies `buffer, `column
      ensures buffer == old(buffer) + Piece(text, unicode) && rest == text[Width(text[0])..]
      ensures column == old(column) + Columns(text, unicode)
    {
      if MustEscape(text, unicode) {
        var v := Decode(text);
        WriteEscape(v);
        rest := text[Width(text[0])..];
      } else {
        rest := Write(text);
      }
    }

    /** A line break in place of a space. */
    method WriteFold(text: seq<byte>) returns (rest: seq<byte>)
      requires text != [] && text[0] == SPACE && (!indention || column > Indent())
      modifies this
      ensures buffer == old(buffer) + NewLine(text, LayoutOf(true)) && rest == text[1..]
      ensures column == Indent() + |Guard(text)| && whitespace && indention
    {
      WriteIndent();
      if At(text, 1) == SPACE {
        Put(BACKSLASH);
      }
      rest := text[1..];
    }

    /** `yaml_emitter_write_double_quoted_scalar` */
    method WriteDoubleQuoted(value: seq<byte>, allowBreaks: bool)
      requires Valid(value)
      modifies this
      ensures var o := LayoutOf(allowBreaks); var gap := if old(whitespace) then [] else [SPACE];
        && buffer == old(buffer) + gap + QuotedLines(value, o, old(column) + |gap|)
        && column == EndColumn(value, o, old(column) + |gap| + 1, false, true) + 1
      ensures !whitespace && !indention
    {
      hide CharOk, Piece, Columns, NewLine, Guard;
      ghost var o := LayoutOf(allowBreaks);
      WriteQuote(true);
      ghost var start, from := buffer, column;
      var text, spaces, first := value, false, true;
      while text != []
        invariant Valid(text) && (first <==> text == value)
        invariant buffer + Lines(text, o, column, spaces, first) == start + Lines(value, o, from, false, true)
        invariant EndColumn(text, o, column, spaces, first) == EndColumn(value, o, from, false, true)
        invariant indention ==> column > Indent() || (spaces && column == Indent())
        decreases |text|
      {
        ghost var before := buffer;
        WidthOk(text);
        LinesStep(text, o, column, spaces, first, before);
        var space := text[0] == SPACE;
        if allowBreaks && space && !spaces && column > bestWidth && !first && |text| != 1 {
          SpaceWidth();
          text := WriteFold(text);
        } else {
          text := WriteChar(text);
        }
        spaces, first := space, false;
      }
      assert buffer + [] == buffer;
      WriteQuote(false);
      Regroup(old(buffer) + (if old(whitespace) then [] else [SPACE]), Lines(value, o, from, false, true));
    }
  }

  lemma SpacesSnoc(n: nat)
    ensures Spaces(n + 1) == Spaces(n) + [SPACE]
  {
  }

  lemma SpaceWidth()
    ensures Width(SPACE) == 1
  {
  }

  lemma LinesStep(s: seq<byte>, o: Layout, column: nat, spaces: bool, first: bool, before: seq<byte>)
    requires Valid(s) && s != []
    ensures before + Lines(s, o, column, spaces, first) ==
      before + Front(s, o, column, spaces, first)
      + Lines(s[Width(s[0])..], o, NextColumn(s, o, column, spaces, first), s[0] == SPACE, false)
  {
    hide Front, NextColumn, Width, CharOk;
  }

  lemma Regroup(a: seq<byte>, b: seq<byte>)
    ensures a + [QUOTE] + b + [QUOTE] == a + ([QUOTE] + b + [QUOTE])
  {
  }

  /** `v` without its lowest `k` digits: `v >> 4 * k`. */
  function Shifted(v: nat, k: nat): nat {
    if k == 0 then v else Shifted(v, k - 1) / 16
  }
}
