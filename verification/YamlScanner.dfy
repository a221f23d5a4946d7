/**
 The token queue of the YAML scanner. A simple key is only known to be one when its ':' comes;
 then a KEY token, and maybe a BLOCK-MAPPING-START, go into the queue before the token the key
 began with, which must not have been handed out by then. The text itself is taken as a run of
 lexemes, whatever they are; the functions say what each does to the scanner's fields.
 */
module YamlScanner {
  import opened Bytes
  import opened YamlTokens

  /** A position: how many characters, lines, and characters of its line come before it. */
  datatype Mark = Mark(index: nat, line: nat, column: nat)

  predicate Before(a: Mark, b: Mark) {
    a.index < b.index && (a.line < b.line || (a.line == b.line && a.column < b.column))
  }

  datatype Queued = Queued(kind: Kind, mark: Mark)

  datatype SimpleKey = SimpleKey(possible: bool, required: bool, number: nat, mark: Mark)

  const NO_KEY: SimpleKey := SimpleKey(false, false, 0, Mark(0, 0, 0))

  /** The scanner's fields: the tokens handed out (the source counts them), the queue, the keys
      by flow level, whether a key may start here, and the indentation. */
  datatype Scanner = Scanner(
    handed: seq<Queued>, tokens: seq<Queued>, keys: seq<SimpleKey>, allowed: bool,
    flow: nat, indents: seq<int>, indent: int, mark: Mark)

  // ---------------------------------------------------------------- the queue and the keys

  function Enqueue(s: Scanner, t: Queued): Scanner {
    s.(tokens := s.tokens + [t])
  }

  /** `QUEUE_INSERT` */
  function InsertAt(s: Scanner, i: nat, t: Queued): Scanner
    requires i <= |s.tokens|
  {
    s.(tokens := s.tokens[..i] + [t] + s.tokens[i..])
  }

  predicate IsStale(k: SimpleKey, mark: Mark) {
    k.possible && (k.mark.line < mark.line || k.mark.index + 1024 < mark.index)
  }

  /** `yaml_parser_stale_simple_keys`; None if a required key has gone stale. */
  function Stale(keys: seq<SimpleKey>, mark: Mark): (r: Option<seq<SimpleKey>>)
    ensures r.Some? ==> |r.value| == |keys| && forall i :: 0 <= i < |keys| ==>
      r.value[i] == if IsStale(keys[i], mark) then keys[i].(possible := false) else keys[i]
  {
    if keys == [] then Some([])
    else if IsStale(keys[0], mark) && keys[0].required then None
    else
      var rest := Stale(keys[1..], mark);
      if rest.None? then None
      else Some([if IsStale(keys[0], mark) then keys[0].(possible := false) else keys[0]] + rest.value)
  }

  function TopKey(s: Scanner): SimpleKey
    requires s.keys != []
  {
    s.keys[|s.keys| - 1]
  }

  function WithTop(s: Scanner, k: SimpleKey): Scanner
    requires s.keys != []
  {
    s.(keys := s.keys[|s.keys| - 1 := k])
  }

  /** `yaml_parser_remove_simple_key` */
  function RemoveKey(s: Scanner): Option<Scanner>
    requires s.keys != []
  {
    if TopKey(s).possible && TopKey(s).required then None else Some(WithTop(s, TopKey(s).(possible := false)))
  }

  /** `yaml_parser_save_simple_key`: the next token may turn out to be a key. */
  function SaveKey(s: Scanner): Option<Scanner>
    requires s.keys != []
  {
    if !s.allowed then Some(s)
    else if RemoveKey(s).None? then None
    else Some(WithTop(s, SimpleKey(true, s.flow == 0 && s.indent == s.mark.column, |s.handed| + |s.tokens|, s.mark)))
  }

  // ---------------------------------------------------------------- indentation

  /** `yaml_parser_roll_indent`: a block collection starts where the column says so; its token
      goes into the queue at `i`. */
  function Roll(s: Scanner, column: nat, i: nat, kind: Kind, mark: Mark): Scanner
    requires i <= |s.tokens|
  {
    if s.flow != 0 || s.indent >= column then s
    else InsertAt(s.(indents := s.indents + [s.indent], indent := column), i, Queued(kind, mark))
  }

  /** The levels deeper than a column are closed. */
  function UnrollLevels(s: Scanner, column: int): (r: Scanner)
    ensures r == s.(tokens := r.tokens, indents := r.indents, indent := r.indent)
    decreases |s.indents|
  {
    if s.indent <= column || s.indents == [] then s
    else
      var n := |s.indents| - 1;
      UnrollLevels(Enqueue(s, Queued(BlockEndT, s.mark)).(indents := s.indents[..n], indent := s.indents[n]), column)
  }

  /** `yaml_parser_unroll_indent` */
  function Unroll(s: Scanner, column: int): (r: Scanner)
    ensures r == s.(tokens := r.tokens, indents := r.indents, indent := r.indent)
  {
    if s.flow != 0 then s else UnrollLevels(s, column)
  }

  // ---------------------------------------------------------------- fetching

  datatype Glyph =
    | EndOfInput | DirectiveLine | DocumentMark | FlowOpen | FlowClose | Comma | Dash | Question | Colon
    | Word      // an alias, anchor, tag, or quoted or plain scalar
    | BlockText // a literal or folded scalar
    | Unknown   // anything the scanner rejects

  /** What comes next in the text: its kind of token, where it starts and ends, whether a line
      break comes before it, and whether (a plain scalar's) trailing line breaks were eaten. */
  datatype Lexeme = Lexeme(glyph: Glyph, kind: Kind, start: Mark, end: Mark, newline: bool, reopens: bool)

  /** A token of the lexeme's kind, at its start; the scanner is then at its end. */
  function Append(s: Scanner, kind: Kind, x: Lexeme): Scanner {
    Enqueue(s, Queued(kind, x.start)).(mark := x.end)
  }

  /** Blanks and comments are behind, stale keys are gone, deeper levels are closed. */
  function Approach(s: Scanner, x: Lexeme): Option<Scanner> {
    var keys := Stale(s.keys, x.start);
    if keys.None? then None
    else
      Some(Unroll(s.(mark := x.start, keys := keys.value, allowed := s.allowed || (x.newline && s.flow == 0)),
        x.start.column))
  }

  function FetchEnd(s: Scanner, x: Lexeme): Option<Scanner>
    requires s.keys != []
  {
    var mark := if s.mark.column != 0 then Mark(s.mark.index, s.mark.line + 1, 0) else s.mark;
    var r := RemoveKey(Unroll(s.(mark := mark), -1));
    if r.None? then None else Some(Enqueue(r.value.(allowed := false), Queued(StreamEndT, mark)))
  }

  function FetchMark(s: Scanner, x: Lexeme): Option<Scanner>
    requires s.keys != []
  {
    var r := RemoveKey(Unroll(s, -1));
    if r.None? then None else Some(Append(r.value.(allowed := false), x.kind, x))
  }

  function FetchOpen(s: Scanner, x: Lexeme): Option<Scanner>
    requires s.keys != []
  {
    var r := SaveKey(s);
    if r.None? then None
    else Some(Append(r.value.(keys := r.value.keys + [NO_KEY], flow := s.flow + 1, allowed := true), x.kind, x))
  }

  function FetchClose(s: Scanner, x: Lexeme): Option<Scanner>
    requires s.keys != []
  {
    var r := RemoveKey(s);
    if r.None? then None
    else
      var t := if s.flow == 0 then r.value else r.value.(flow := s.flow - 1, keys := r.value.keys[..|s.keys| - 1]);
      Some(Append(t.(allowed := false), x.kind, x))
  }

  /** An indicator that is no key itself: with `Roll`, it may start a block collection. */
  function FetchIndicator(s: Scanner, x: Lexeme, collection: Option<Kind>, kind: Kind, allowed: bool): Option<Scanner>
    requires s.keys != []
  {
    if collection.Some? && s.flow == 0 && !s.allowed then None
    else
      var t := if collection.None? then s else Roll(s, s.mark.column, |s.tokens|, collection.value, s.mark);
      var r := RemoveKey(t);
      if r.None? then None else Some(Append(r.value.(allowed := allowed), kind, x))
  }

  /** `yaml_parser_fetch_value` behind a simple key: the two tokens go before the key's. */
  function FetchKeyed(s: Scanner, x: Lexeme): Scanner
    requires s.keys != [] && |s.handed| <= TopKey(s).number <= |s.handed| + |s.tokens|
  {
    var k := TopKey(s);
    var i := k.number - |s.handed|;
    var r := Roll(InsertAt(s, i, Queued(KeyT, k.mark)), k.mark.column, i, BlockMappingStartT, k.mark);
    Append(WithTop(r, k.(possible := false)).(allowed := false), ValueT, x)
  }

  /** And behind a complex one; here a key at this level stays as it is. */
  function FetchUnkeyed(s: Scanner, x: Lexeme): Option<Scanner> {
    if s.flow == 0 && !s.allowed then None
    else
      var r := Roll(s, s.mark.column, |s.tokens|, BlockMappingStartT, s.mark);
      Some(Append(r.(allowed := s.flow == 0), ValueT, x))
  }

  function FetchWord(s: Scanner, x: Lexeme): Option<Scanner>
    requires s.keys != []
  {
    var r := SaveKey(s);
    if r.None? then None else Some(Append(r.value.(allowed := x.reopens), x.kind, x))
  }

  function FetchBlockText(s: Scanner, x: Lexeme): Option<Scanner>
    requires s.keys != []
  {
    var r := RemoveKey(s);
    if r.None? then None else Some(Append(r.value.(allowed := true), x.kind, x))
  }

  /** The right number of a key, if one is possible at the current level. */
  predicate Keyed(s: Scanner) {
    s.keys != [] && (TopKey(s).possible ==> |s.handed| <= TopKey(s).number < |s.handed| + |s.tokens|)
  }

  function Dispatch(s: Scanner, x: Lexeme): Option<Scanner>
    requires Keyed(s)
  {
    match x.glyph
    case EndOfInput => FetchEnd(s, x)
    case DirectiveLine => FetchMark(s, x)
    case DocumentMark => FetchMark(s, x)
    case FlowOpen => FetchOpen(s, x)
    case FlowClose => FetchClose(s, x)
    case Comma => FetchIndicator(s, x, None, FlowEntryT, true)
    case Dash => FetchIndicator(s, x, Some(BlockSequenceStartT), BlockEntryT, true)
    case Question => FetchIndicator(s, x, Some(BlockMappingStartT), KeyT, s.flow == 0)
    case Colon => if TopKey(s).possible then Some(FetchKeyed(s, x)) else FetchUnkeyed(s, x)
    case Word => FetchWord(s, x)
    case BlockText => FetchBlockText(s, x)
    case Unknown => None
  }

  // ---------------------------------------------------------------- what every fetch keeps

  /** All tokens so far, handed out or waiting. */
  function All(s: Scanner): seq<Queued> {
    s.handed + s.tokens
  }

  /** A possible key is at a waiting token: the one that starts at its mark, behind us. */
  predicate AtToken(s: Scanner, k: SimpleKey) {
    k.possible ==>
      && |s.handed| <= k.number < |s.handed| + |s.tokens|
      && s.tokens[k.number - |s.handed|].mark == k.mark
      && Before(k.mark, s.mark)
  }

  ghost predicate KeysInOrder(keys: seq<SimpleKey>) {
    forall i, j :: 0 <= i < j < |keys| && keys[i].possible && keys[j].possible ==> keys[i].number < keys[j].number
  }

  ghost predicate KeysOk(s: Scanner) {
    && |s.keys| == s.flow + 1
    && (forall i :: 0 <= i < |s.keys| ==> AtToken(s, s.keys[i]))
    && KeysInOrder(s.keys)
    && (s.keys[0].possible ==> s.indent <= s.keys[0].mark.column)
  }

  /** The levels of indentation grow, from -1 on. */
  ghost predicate LevelsGrow(indents: seq<int>, indent: int) {
    && (if indents == [] then indent == -1 else indents[0] == -1 && indents[|indents| - 1] < indent)
    && forall i, j :: 0 <= i < j < |indents| ==> indents[i] < indents[j]
  }

  /** Tokens come in the order of the text. */
  ghost predicate InTextOrder(ts: seq<Queued>, mark: Mark) {
    && (forall i, j :: 0 <= i < j < |ts| ==> ts[i].mark.index <= ts[j].mark.index)
    && forall i :: 0 <= i < |ts| ==> ts[i].mark.index <= mark.index
  }

  function Weight(k: Kind): int {
    if k.BlockSequenceStartT? || k.BlockMappingStartT? then 1 else if k.BlockEndT? then -1 else 0
  }

  /** Block collections begun less those ended. */
  function Depth(ts: seq<Queued>): int {
    if ts == [] then 0 else Depth(ts[..|ts| - 1]) + Weight(ts[|ts| - 1].kind)
  }

  /** No block collection ends that did not begin. */
  ghost predicate Nested(ts: seq<Queued>) {
    forall n :: 0 <= n <= |ts| ==> Depth(ts[..n]) >= 0
  }

  ghost predicate Sound(s: Scanner) {
    && KeysOk(s) && LevelsGrow(s.indents, s.indent) && InTextOrder(All(s), s.mark)
    && Nested(All(s)) && Depth(All(s)) == |s.indents|
  }

  // ---------------------------------------------------------------- nesting

  lemma {:induction false} DepthConcat(a: seq<Queued>, b: seq<Queued>)
    ensures Depth(a + b) == Depth(a) + Depth(b)
  {
    if b == [] {
      assert a + b == a;
    } else {
      assert (a + b)[..|a + b| - 1] == a + b[..|b| - 1];
      DepthConcat(a, b[..|b| - 1]);
    }
  }

  lemma DepthOne(t: Queued)
    ensures Depth([t]) == Weight(t.kind)
  {
    assert [t][..0] == [];
  }

  /** A token more, at the end or between others. */
  lemma DepthInsert(a: seq<Queued>, t: Queued, b: seq<Queued>)
    ensures Depth(a + [t] + b) == Depth(a + b) + Weight(t.kind)
  {
    DepthConcat(a + [t], b);
    DepthConcat(a, [t]);
    DepthConcat(a, b);
    DepthOne(t);
  }

  lemma NestedInsert(a: seq<Queued>, t: Queued, b: seq<Queued>)
    requires Nested(a + b) && (Weight(t.kind) >= 0 || (b == [] && Depth(a) > 0))
    ensures Nested(a + [t] + b)
  {
    var c := a + [t] + b;
    forall n | 0 <= n <= |c| ensures Depth(c[..n]) >= 0 {
      if n <= |a| {
        assert c[..n] == (a + b)[..n];
      } else {
        var m := n - |a| - 1;
        assert c[..n] == a + [t] + b[..m];
        assert (a + b)[..n - 1] == a + b[..m];
        DepthInsert(a, t, b[..m]);
        assert b == [] ==> b[..m] == [] && a + [] == a;
      }
    }
  }

  lemma InOrderInsert(a: seq<Queued>, t: Queued, b: seq<Queued>, mark: Mark)
    requires InTextOrder(a + b, mark) && t.mark.index <= mark.index
    requires b != [] ==> t.mark.index == b[0].mark.index
    requires b == [] ==> t.mark == mark
    ensures InTextOrder(a + [t] + b, mark)
  {
    var c, d := a + [t] + b, a + b;
    forall i, j | 0 <= i < j < |c| ensures c[i].mark.index <= c[j].mark.index {
      if b != [] {
        assert d[|a|] == b[0];
        var i', j' := if i <= |a| then i else i - 1, if j <= |a| then j else j - 1;
        assert c[i].mark.index == d[i'].mark.index && c[j].mark.index == d[j'].mark.index;
      } else {
        assert c[i] == d[i];
        assert j < |a| ==> c[j] == d[j];
      }
    }
    forall i | 0 <= i < |c| ensures c[i].mark.index <= mark.index {
      if i != |a| {
        assert c[i] == d[if i < |a| then i else i - 1];
      }
    }
  }

  // ---------------------------------------------------------------- moving on

  lemma Later(s: Scanner, mark: Mark, allowed: bool)
    requires Sound(s) && (s.mark == mark || Before(s.mark, mark))
    ensures Sound(s.(mark := mark, allowed := allowed))
  {
    var t := s.(mark := mark, allowed := allowed);
    forall i | 0 <= i < |t.keys| ensures AtToken(t, t.keys[i]) {
      assert AtToken(s, s.keys[i]);
    }
  }

  /** Keys may only become impossible. */
  ghost predicate Fewer(keys: seq<SimpleKey>, fewer: seq<SimpleKey>) {
    |fewer| == |keys| && forall i :: 0 <= i < |keys| ==> fewer[i] == keys[i] || fewer[i] == keys[i].(possible := false)
  }

  lemma FewerKeep(s: Scanner, keys: seq<SimpleKey>)
    requires Sound(s) && Fewer(s.keys, keys)
    ensures Sound(s.(keys := keys))
  {
    var t := s.(keys := keys);
    forall i | 0 <= i < |t.keys| ensures AtToken(t, t.keys[i]) {
      assert AtToken(s, s.keys[i]);
    }
  }

  lemma RemoveKeeps(s: Scanner)
    requires Sound(s)
    ensures var r := RemoveKey(s);
      r.Some? ==>
        Sound(r.value) && r.value == s.(keys := r.value.keys) && |r.value.keys| == |s.keys| && !TopKey(r.value).possible
  {
    if RemoveKey(s).Some? {
      FewerKeep(s, RemoveKey(s).value.keys);
    }
  }

  /** A token of no weight at the end of the queue, or the end of a block collection. */
  lemma EnqueueKeeps(s: Scanner, kind: Kind)
    requires KeysOk(s) && InTextOrder(All(s), s.mark) && Nested(All(s))
    requires Weight(kind) < 0 ==> Depth(All(s)) > 0
    ensures var t := Enqueue(s, Queued(kind, s.mark));
      KeysOk(t) && InTextOrder(All(t), t.mark) && Nested(All(t)) && Depth(All(t)) == Depth(All(s)) + Weight(kind)
  {
    var q := Queued(kind, s.mark);
    var t := Enqueue(s, q);
    assert All(s) + [] == All(s) && All(t) == All(s) + [q] + [];
    NestedInsert(All(s), q, []);
    DepthInsert(All(s), q, []);
    InOrderInsert(All(s), q, [], s.mark);
    forall i | 0 <= i < |t.keys| ensures AtToken(t, t.keys[i]) {
      assert AtToken(s, s.keys[i]);
    }
  }

  lemma AppendKeeps(s: Scanner, kind: Kind, x: Lexeme)
    requires Sound(s) && s.mark == x.start && Before(x.start, x.end) && Weight(kind) == 0
    ensures Sound(Append(s, kind, x))
  {
    hide Nested, InTextOrder, KeysOk, Depth;
    EnqueueKeeps(s, kind);
    Later(Enqueue(s, Queued(kind, x.start)), x.end, s.allowed);
  }

  lemma LevelsPop(indents: seq<int>, indent: int)
    requires LevelsGrow(indents, indent) && indents != []
    ensures LevelsGrow(indents[..|indents| - 1], indents[|indents| - 1]) && indents[|indents| - 1] < indent
    ensures -1 <= indents[|indents| - 1]
  {
  }

  lemma LevelsPush(indents: seq<int>, indent: int, column: nat)
    requires LevelsGrow(indents, indent) && indent < column
    ensures LevelsGrow(indents + [indent], column)
  {
  }

  lemma LowerIndent(s: Scanner, indents: seq<int>, indent: int)
    requires KeysOk(s) && indent <= s.indent
    ensures KeysOk(s.(indents := indents, indent := indent))
  {
    var t := s.(indents := indents, indent := indent);
    forall i | 0 <= i < |t.keys| ensures AtToken(t, t.keys[i]) {
      assert AtToken(s, s.keys[i]);
    }
  }

  /** Unrolling closes exactly the levels deeper than the column. */
  lemma {:induction false} UnrollKeeps(s: Scanner, column: int)
    requires Sound(s) && column >= -1
    ensures Sound(UnrollLevels(s, column)) && UnrollLevels(s, column).indent <= column
    ensures s.indent <= column ==> UnrollLevels(s, column) == s
    decreases |s.indents|
  {
    if s.indent > column && s.indents != [] {
      var n := |s.indents| - 1;
      LevelsPop(s.indents, s.indent);
      EnqueueKeeps(s, BlockEndT);
      LowerIndent(Enqueue(s, Queued(BlockEndT, s.mark)), s.indents[..n], s.indents[n]);
      hide KeysOk, InTextOrder, Nested, Depth;
      UnrollKeeps(Enqueue(s, Queued(BlockEndT, s.mark)).(indents := s.indents[..n], indent := s.indents[n]), column);
    }
  }

  // ---------------------------------------------------------------- each fetch

  /** The lexeme comes next in the text, and its token is none of those that make or end a block
      collection. */
  predicate Next(s: Scanner, x: Lexeme) {
    && (x.start == s.mark || Before(s.mark, x.start))
    && (x.glyph.EndOfInput? || Before(x.start, x.end))
    && Weight(x.kind) == 0
  }

  lemma ApproachKeeps(s: Scanner, x: Lexeme)
    requires Sound(s) && Next(s, x) && Approach(s, x).Some?
    ensures var t := Approach(s, x).value;
      Sound(t) && t.mark == x.start && t.flow == s.flow && (t.flow == 0 ==> t.indent <= x.start.column)
  {
    hide KeysOk, InTextOrder, Nested, Depth, LevelsGrow;
    var keys := Stale(s.keys, x.start).value;
    FewerKeep(s, keys);
    var t := s.(keys := keys, mark := x.start, allowed := s.allowed || (x.newline && s.flow == 0));
    Later(s.(keys := keys), x.start, t.allowed);
    UnrollKeeps(t, x.start.column);
  }

  lemma UnrollAllKeeps(s: Scanner)
    requires Sound(s)
    ensures Sound(Unroll(s, -1)) && (s.flow == 0 ==> Unroll(s, -1).indents == [])
  {
    UnrollKeeps(s, -1);
    var t := UnrollLevels(s, -1);
    NoLevels(t.indents, t.indent);
  }

  lemma NoLevels(indents: seq<int>, indent: int)
    requires LevelsGrow(indents, indent)
    ensures indent <= -1 <==> indents == []
    ensures indent >= -1
  {
    if indents != [] {
      assert indents[0] <= indents[|indents| - 1];
    }
  }

  /** At the end of the input every key is stale, and outside flow collections every block
      collection has been ended. */
  lemma FetchEndKeeps(s: Scanner, x: Lexeme)
    requires Sound(s) && s.keys != [] && FetchEnd(s, x).Some?
    ensures var t := FetchEnd(s, x).value;
      && Sound(t) && KeysEnded(t) && (t.flow == 0 ==> Depth(All(t)) == 0)
  {
    hide KeysOk, InTextOrder, Nested, Depth, LevelsGrow, UnrollLevels;
    var mark := if s.mark.column != 0 then Mark(s.mark.index, s.mark.line + 1, 0) else s.mark;
    EndMark(s, mark);
    var s1 := s.(mark := mark);
    UnrollAllKeeps(s1);
    var s2 := Unroll(s1, -1);
    RemoveKeeps(s2);
    var s3 := RemoveKey(s2).value;
    NotAllowed(s3, false);
    StreamEnds(s3.(allowed := false));
  }

  ghost predicate KeysEnded(s: Scanner) {
    forall i :: 0 <= i < |s.keys| && s.keys[i].possible ==> s.keys[i].mark.line < s.mark.line
  }

  lemma StreamEnds(s: Scanner)
    requires Sound(s) && s.mark.column == 0
    ensures var t := Enqueue(s, Queued(StreamEndT, s.mark));
      Sound(t) && KeysEnded(t) && Depth(All(t)) == |s.indents|
  {
    EnqueueKeeps(s, StreamEndT);
    KeysBehind(s);
  }

  lemma NotAllowed(s: Scanner, allowed: bool)
    requires Sound(s)
    ensures Sound(s.(allowed := allowed))
  {
    Later(s, s.mark, allowed);
  }

  lemma KeysBehind(s: Scanner)
    requires KeysOk(s) && s.mark.column == 0
    ensures forall i :: 0 <= i < |s.keys| && s.keys[i].possible ==> s.keys[i].mark.line < s.mark.line
  {
    forall i | 0 <= i < |s.keys| && s.keys[i].possible ensures s.keys[i].mark.line < s.mark.line {
      assert AtToken(s, s.keys[i]);
    }
  }

  /** The forced line break moves the line only. */
  lemma EndMark(s: Scanner, mark: Mark)
    requires Sound(s) && (mark == s.mark || mark == Mark(s.mark.index, s.mark.line + 1, 0))
    ensures Sound(s.(mark := mark))
  {
    var t := s.(mark := mark);
    forall i | 0 <= i < |t.keys| ensures AtToken(t, t.keys[i]) {
      assert AtToken(s, s.keys[i]);
    }
  }

  lemma FetchMarkKeeps(s: Scanner, x: Lexeme)
    requires Sound(s) && s.keys != [] && s.mark == x.start && Before(x.start, x.end) && Weight(x.kind) == 0
    ensures FetchMark(s, x).Some? ==> Sound(FetchMark(s, x).value)
  {
    hide KeysOk, InTextOrder, Nested, Depth, LevelsGrow;
    UnrollAllKeeps(s);
    var t := Unroll(s, -1);
    RemoveKeeps(t);
    if RemoveKey(t).Some? {
      NotAllowed(RemoveKey(t).value, false);
      AppendKeeps(RemoveKey(t).value.(allowed := false), x.kind, x);
    }
  }

  /** A saved key is at the token that comes next. */
  lemma SaveKeeps(s: Scanner, x: Lexeme, allowed: bool)
    requires Sound(s) && s.mark == x.start && Before(x.start, x.end) && Weight(x.kind) == 0
    requires s.flow == 0 ==> s.indent <= s.mark.column
    ensures SaveKey(s).Some? ==> Sound(Append(SaveKey(s).value.(allowed := allowed), x.kind, x))
    ensures SaveKey(s).Some? ==>
      SaveKey(s).value == s.(keys := SaveKey(s).value.keys) && |SaveKey(s).value.keys| == |s.keys|
  {
    if SaveKey(s).Some? {
      var n := |s.keys| - 1;
      var keys := SaveKey(s).value.keys;
      NotAllowed(s, allowed);
      AppendKeeps(s.(allowed := allowed), x.kind, x);
      var u := Append(s.(allowed := allowed), x.kind, x);
      var t := u.(keys := keys);
      NewKey(s, u, keys);
      assert Append(SaveKey(s).value.(allowed := allowed), x.kind, x) == t;
    }
  }

  lemma NewKey(s: Scanner, u: Scanner, keys: seq<SimpleKey>)
    requires KeysOk(s) && KeysOk(u) && u.keys == s.keys && SaveKey(s).Some? && keys == SaveKey(s).value.keys
    requires u.handed == s.handed && |u.tokens| == |s.tokens| + 1 && u.tokens[..|s.tokens|] == s.tokens
    requires u.tokens[|s.tokens|].mark == s.mark && Before(s.mark, u.mark) && u.flow == s.flow && u.indent == s.indent
    requires s.flow == 0 ==> s.indent <= s.mark.column
    ensures KeysOk(u.(keys := keys))
  {
    var t := u.(keys := keys);
    var n := |s.keys| - 1;
    forall i | 0 <= i < |t.keys| ensures AtToken(t, t.keys[i]) {
      assert AtToken(u, u.keys[i]) && AtToken(s, s.keys[i]);
    }
    forall i, j | 0 <= i < j < |keys| && keys[i].possible && keys[j].possible ensures keys[i].number < keys[j].number {
      assert AtToken(s, s.keys[i]);
    }
  }

  lemma FetchWordKeeps(s: Scanner, x: Lexeme)
    requires Sound(s) && s.keys != [] && s.mark == x.start && Before(x.start, x.end) && Weight(x.kind) == 0
    requires s.flow == 0 ==> s.indent <= s.mark.column
    ensures FetchWord(s, x).Some? ==> Sound(FetchWord(s, x).value)
  {
    SaveKeeps(s, x, x.reopens);
  }

  /** One level deeper, where no key is possible yet. */
  lemma DeeperKeeps(s: Scanner)
    requires Sound(s)
    ensures Sound(s.(keys := s.keys + [NO_KEY], flow := s.flow + 1))
  {
    var t := s.(keys := s.keys + [NO_KEY], flow := s.flow + 1);
    forall i | 0 <= i < |t.keys| ensures AtToken(t, t.keys[i]) {
      if i < |s.keys| {
        assert AtToken(s, s.keys[i]);
      }
    }
  }

  lemma FetchOpenKeeps(s: Scanner, x: Lexeme)
    requires Sound(s) && s.keys != [] && s.mark == x.start && Before(x.start, x.end) && Weight(x.kind) == 0
    requires s.flow == 0 ==> s.indent <= s.mark.column
    ensures FetchOpen(s, x).Some? ==> Sound(FetchOpen(s, x).value)
  {
    SaveKeeps(s, x, true);
    if SaveKey(s).Some? {
      var t := Append(SaveKey(s).value.(allowed := true), x.kind, x);
      DeeperKeeps(t);
      assert FetchOpen(s, x).value == t.(keys := t.keys + [NO_KEY], flow := t.flow + 1);
    }
  }

  lemma ShallowerKeeps(s: Scanner)
    requires Sound(s) && s.flow > 0
    ensures Sound(s.(keys := s.keys[..|s.keys| - 1], flow := s.flow - 1))
  {
    var t := s.(keys := s.keys[..|s.keys| - 1], flow := s.flow - 1);
    forall i | 0 <= i < |t.keys| ensures AtToken(t, t.keys[i]) {
      assert AtToken(s, s.keys[i]);
    }
  }

  lemma FetchCloseKeeps(s: Scanner, x: Lexeme)
    requires Sound(s) && s.keys != [] && s.mark == x.start && Before(x.start, x.end) && Weight(x.kind) == 0
    ensures FetchClose(s, x).Some? ==> Sound(FetchClose(s, x).value)
  {
    hide KeysOk, InTextOrder, Nested, Depth, LevelsGrow;
    RemoveKeeps(s);
    if RemoveKey(s).Some? {
      var r := RemoveKey(s).value;
      if s.flow > 0 {
        ShallowerKeeps(r);
      }
      var t := if s.flow == 0 then r else r.(flow := s.flow - 1, keys := r.keys[..|s.keys| - 1]);
      NotAllowed(t, false);
      AppendKeeps(t.(allowed := false), x.kind, x);
    }
  }

  /** A block collection that starts here, no key being possible at this level. */
  lemma RollKeeps(s: Scanner, kind: Kind)
    requires Sound(s) && Weight(kind) == 1 && (s.flow == 0 ==> !s.keys[0].possible)
    ensures var t := Roll(s, s.mark.column, |s.tokens|, kind, s.mark);
      Sound(t) && t == s.(tokens := t.tokens, indents := t.indents, indent := t.indent)
  {
    if s.flow == 0 && s.indent < s.mark.column {
      var column := s.mark.column;
      LevelsPush(s.indents, s.indent, column);
      EnqueueKeeps(s, kind);
      var u := Enqueue(s, Queued(kind, s.mark));
      var t := u.(indents := s.indents + [s.indent], indent := column);
      assert s.tokens[..|s.tokens|] + [Queued(kind, s.mark)] + s.tokens[|s.tokens|..] == u.tokens;
      forall i | 0 <= i < |t.keys| ensures AtToken(t, t.keys[i]) {
        assert AtToken(u, u.keys[i]);
      }
    }
  }

  lemma RollCommutes(s: Scanner, kind: Kind)
    requires s.keys != []
    ensures RemoveKey(Roll(s, s.mark.column, |s.tokens|, kind, s.mark)) ==
      if RemoveKey(s).None? then None
      else Some(Roll(RemoveKey(s).value, s.mark.column, |s.tokens|, kind, s.mark))
  {
  }

  /** Removing the key first, as an indicator in the end does. */
  lemma RollThenRemove(s: Scanner, kind: Kind)
    requires Sound(s) && Weight(kind) == 1
    ensures var t := Roll(s, s.mark.column, |s.tokens|, kind, s.mark); var r := RemoveKey(t);
      r.Some? ==> Sound(r.value) && r.value.mark == s.mark && |r.value.keys| == |s.keys|
  {
    hide InTextOrder, Nested, Depth, LevelsGrow, Roll;
    var r := RemoveKey(s);
    RollCommutes(s, kind);
    if r.Some? {
      RemoveKeeps(s);
      RollKeeps(r.value, kind);
    }
  }

  lemma FetchIndicatorKeeps(s: Scanner, x: Lexeme, collection: Option<Kind>, kind: Kind, allowed: bool)
    requires Sound(s) && s.keys != [] && s.mark == x.start && Before(x.start, x.end) && Weight(kind) == 0
    requires collection.Some? ==> Weight(collection.value) == 1
    ensures var r := FetchIndicator(s, x, collection, kind, allowed); r.Some? ==> Sound(r.value)
  {
    if FetchIndicator(s, x, collection, kind, allowed).Some? {
      RemoveKeeps(s);
      if collection.Some? {
        RollThenRemove(s, collection.value);
      }
      var t := if collection.None? then s else Roll(s, s.mark.column, |s.tokens|, collection.value, s.mark);
      var r := RemoveKey(t).value;
      NotAllowed(r, allowed);
      hide Sound, Roll;
      AppendKeeps(r.(allowed := allowed), kind, x);
    }
  }

  lemma FetchUnkeyedKeeps(s: Scanner, x: Lexeme)
    requires Sound(s) && s.keys != [] && s.mark == x.start && Before(x.start, x.end) && !TopKey(s).possible
    ensures FetchUnkeyed(s, x).Some? ==> Sound(FetchUnkeyed(s, x).value)
  {
    if FetchUnkeyed(s, x).Some? {
      RollKeeps(s, BlockMappingStartT);
      var r := Roll(s, s.mark.column, |s.tokens|, BlockMappingStartT, s.mark);
      NotAllowed(r, s.flow == 0);
      hide Sound, Roll;
      AppendKeeps(r.(allowed := s.flow == 0), ValueT, x);
    }
  }

  lemma FetchBlockTextKeeps(s: Scanner, x: Lexeme)
    requires Sound(s) && s.keys != [] && s.mark == x.start && Before(x.start, x.end) && Weight(x.kind) == 0
    ensures FetchBlockText(s, x).Some? ==> Sound(FetchBlockText(s, x).value)
  {
    RemoveKeeps(s);
    if RemoveKey(s).Some? {
      NotAllowed(RemoveKey(s).value, true);
      AppendKeeps(RemoveKey(s).value.(allowed := true), x.kind, x);
    }
  }

  // ---------------------------------------------------------------- the retroactive tokens

  /** A token put before a waiting one at the same position, every possible key being at an
      earlier token. */
  lemma InsertKeeps(s: Scanner, i: nat, kind: Kind, mark: Mark)
    requires KeysOk(s) && InTextOrder(All(s), s.mark) && Nested(All(s)) && Weight(kind) >= 0
    requires i < |s.tokens| && s.tokens[i].mark.index == mark.index
    requires forall j :: 0 <= j < |s.keys| && s.keys[j].possible ==> s.keys[j].number < |s.handed| + i
    ensures var t := InsertAt(s, i, Queued(kind, mark));
      KeysOk(t) && InTextOrder(All(t), t.mark) && Nested(All(t)) && Depth(All(t)) == Depth(All(s)) + Weight(kind)
  {
    var q := Queued(kind, mark);
    var t := InsertAt(s, i, q);
    var a, b := s.handed + s.tokens[..i], s.tokens[i..];
    assert All(s) == a + b && All(t) == a + [q] + b;
    assert All(s)[|a|] == b[0];
    NestedInsert(a, q, b);
    DepthInsert(a, q, b);
    InOrderInsert(a, q, b, s.mark);
    forall j | 0 <= j < |t.keys| ensures AtToken(t, t.keys[j]) {
      assert AtToken(s, s.keys[j]);
    }
  }

  /** The keys below the top one are at tokens before the top one's. */
  lemma LowerKeys(s: Scanner)
    requires KeysOk(s) && TopKey(s).possible
    ensures |s.handed| <= TopKey(s).number < |s.handed| + |s.tokens|
    ensures s.tokens[TopKey(s).number - |s.handed|].mark == TopKey(s).mark && Before(TopKey(s).mark, s.mark)
    ensures var keys := WithTop(s, TopKey(s).(possible := false)).keys;
      forall j :: 0 <= j < |keys| && keys[j].possible ==> keys[j].number < TopKey(s).number
  {
    assert AtToken(s, s.keys[|s.keys| - 1]);
  }

  /** A key's tokens are in the queue, before its own. */
  function KeyTokens(s: Scanner): seq<Queued>
    requires s.keys != []
  {
    var k := TopKey(s);
    (if s.flow == 0 && s.indent < k.mark.column then [Queued(BlockMappingStartT, k.mark)] else []) +
      [Queued(KeyT, k.mark)]
  }

  lemma FetchKeyedTokens(s: Scanner, x: Lexeme)
    requires KeysOk(s) && TopKey(s).possible && |s.handed| <= TopKey(s).number < |s.handed| + |s.tokens|
    ensures var i := TopKey(s).number - |s.handed|;
      && FetchKeyed(s, x).tokens == s.tokens[..i] + KeyTokens(s) + s.tokens[i..] + [Queued(ValueT, x.start)]
      && FetchKeyed(s, x).handed == s.handed
  {
    var k := TopKey(s);
    var i := k.number - |s.handed|;
    var a, b := s.tokens[..i], s.tokens[i..];
    var t := a + [Queued(KeyT, k.mark)] + b;
    assert t[..i] == a && t[i..] == [Queued(KeyT, k.mark)] + b;
    assert a + [Queued(BlockMappingStartT, k.mark)] + ([Queued(KeyT, k.mark)] + b) ==
      a + ([Queued(BlockMappingStartT, k.mark)] + [Queued(KeyT, k.mark)]) + b;
  }

  lemma RollInserted(s: Scanner, i: nat, k: SimpleKey)
    requires Sound(s) && i < |s.tokens| && s.tokens[i].mark == k.mark
    requires forall j :: 0 <= j < |s.keys| && s.keys[j].possible ==> s.keys[j].number < |s.handed| + i
    requires s.flow == 0 ==> !s.keys[0].possible
    ensures Sound(Roll(s, k.mark.column, i, BlockMappingStartT, k.mark))
  {
    if s.flow == 0 && s.indent < k.mark.column {
      LevelsPush(s.indents, s.indent, k.mark.column);
      InsertKeeps(s, i, BlockMappingStartT, k.mark);
      var u := InsertAt(s, i, Queued(BlockMappingStartT, k.mark));
      var t := u.(indents := s.indents + [s.indent], indent := k.mark.column);
      forall j | 0 <= j < |t.keys| ensures AtToken(t, t.keys[j]) {
        assert AtToken(u, u.keys[j]);
      }
    }
  }

  lemma FetchKeyedKeeps(s: Scanner, x: Lexeme)
    requires Sound(s) && s.mark == x.start && Before(x.start, x.end) && s.keys != [] && TopKey(s).possible
    ensures |s.handed| <= TopKey(s).number < |s.handed| + |s.tokens| && Sound(FetchKeyed(s, x))
  {
    hide InTextOrder, Nested, Depth, LevelsGrow;
    var k := TopKey(s);
    LowerKeys(s);
    var i := k.number - |s.handed|;
    var s0 := WithTop(s, k.(possible := false));
    FewerKeep(s, s0.keys);
    InsertKeeps(s0, i, KeyT, k.mark);
    var s1 := InsertAt(s0, i, Queued(KeyT, k.mark));
    assert s1.tokens[i] == Queued(KeyT, k.mark);
    RollInserted(s1, i, k);
    var s2 := Roll(s1, k.mark.column, i, BlockMappingStartT, k.mark);
    NotAllowed(s2, false);
    AppendKeeps(s2.(allowed := false), ValueT, x);
    KeyRemovedFirst(s, x);
  }

  lemma KeyRemovedFirst(s: Scanner, x: Lexeme)
    requires s.keys != [] && |s.handed| <= TopKey(s).number <= |s.handed| + |s.tokens|
    ensures var k := TopKey(s); var i := k.number - |s.handed|;
      FetchKeyed(s, x) ==
        Append(Roll(InsertAt(WithTop(s, k.(possible := false)), i, Queued(KeyT, k.mark)),
                    k.mark.column, i, BlockMappingStartT, k.mark).(allowed := false), ValueT, x)
  {
  }

  // ---------------------------------------------------------------- a fetch as a whole

  /** `yaml_parser_fetch_next_token` behind STREAM-START */
  ghost function Fetch(s: Scanner, x: Lexeme): Option<Scanner>
    requires Sound(s) && Next(s, x)
  {
    var a := Approach(s, x);
    if a.None? then None
    else
      ApproachKeeps(s, x);
      KeyedNow(a.value);
      Dispatch(a.value, x)
  }

  lemma KeyedNow(s: Scanner)
    requires Sound(s)
    ensures Keyed(s)
  {
    assert AtToken(s, s.keys[|s.keys| - 1]);
  }

  /** Every fetch keeps the invariant. */
  lemma FetchKeeps(s: Scanner, x: Lexeme)
    requires Sound(s) && Next(s, x)
    ensures Fetch(s, x).Some? ==> Sound(Fetch(s, x).value)
  {
    hide KeysOk, InTextOrder, Nested, Depth, LevelsGrow, Approach, FetchEnd, FetchMark, FetchOpen, FetchClose,
      FetchIndicator, FetchKeyed, FetchUnkeyed, FetchWord, FetchBlockText;
    if Approach(s, x).Some? {
      ApproachKeeps(s, x);
      var a := Approach(s, x).value;
      KeyedNow(a);
      match x.glyph
      case EndOfInput =>
        if FetchEnd(a, x).Some? {
          FetchEndKeeps(a, x);
        }
      case DirectiveLine => FetchMarkKeeps(a, x);
      case DocumentMark => FetchMarkKeeps(a, x);
      case FlowOpen => FetchOpenKeeps(a, x);
      case FlowClose => FetchCloseKeeps(a, x);
      case Comma => FetchIndicatorKeeps(a, x, None, FlowEntryT, true);
      case Dash => FetchIndicatorKeeps(a, x, Some(BlockSequenceStartT), BlockEntryT, true);
      case Question => FetchIndicatorKeeps(a, x, Some(BlockMappingStartT), KeyT, a.flow == 0);
      case Colon =>
        if TopKey(a).possible {
          FetchKeyedKeeps(a, x);
        } else {
          FetchUnkeyedKeeps(a, x);
        }
      case Word => FetchWordKeeps(a, x);
      case BlockText => FetchBlockTextKeeps(a, x);
      case Unknown =>
    }
  }

  /** Where a key is possible when its ':' comes, no block collection ends in between. */
  lemma NothingEnds(s: Scanner, x: Lexeme)
    requires Sound(s) && Next(s, x) && Approach(s, x).Some? && Approach(s, x).value.keys != [] &&
      TopKey(Approach(s, x).value).possible
    ensures Approach(s, x).value.tokens == s.tokens && Approach(s, x).value.indent == s.indent
    ensures s.keys != [] && TopKey(s) == TopKey(Approach(s, x).value)
  {
    hide InTextOrder, Nested, Depth, LevelsGrow;
    var keys := Stale(s.keys, x.start).value;
    var n := |s.keys| - 1;
    assert AtToken(s, s.keys[n]);
    assert !IsStale(s.keys[n], x.start);
    if s.flow == 0 {
      assert s.indent <= s.keys[0].mark.column < x.start.column;
    }
  }

  /** A ':' behind a possible key: the KEY, with a BLOCK-MAPPING-START if the key's column begins
      a mapping, lands just before the waiting token that starts at the key's mark. */
  lemma KeyLandsBeforeItsToken(s: Scanner, x: Lexeme)
    requires Sound(s) && Next(s, x) && x.glyph.Colon? && Approach(s, x).Some?
    requires Approach(s, x).value.keys != [] && TopKey(Approach(s, x).value).possible
    ensures Fetch(s, x).Some? && s.keys != []
    ensures var k := TopKey(s); var i := k.number - |s.handed|; var t := Fetch(s, x).value;
      && 0 <= i < |s.tokens| && s.tokens[i].mark == k.mark
      && t.handed == s.handed
      && t.tokens == s.tokens[..i] + KeyTokens(s) + s.tokens[i..] + [Queued(ValueT, x.start)]
  {
    hide FetchKeyed, Approach, KeysOk, InTextOrder, Nested, Depth, LevelsGrow, KeyTokens, Next, FetchUnkeyed;
    NothingEnds(s, x);
    ApproachKeeps(s, x);
    var a := Approach(s, x).value;
    LowerKeys(a);
    KeyedNow(a);
    FetchKeyedTokens(a, x);
    Untouched(s, x);
    SameKeyTokens(s, a);
  }

  lemma Untouched(s: Scanner, x: Lexeme)
    requires Approach(s, x).Some?
    ensures Approach(s, x).value.handed == s.handed && Approach(s, x).value.flow == s.flow
  {
  }

  lemma SameKeyTokens(s: Scanner, a: Scanner)
    requires s.keys != [] && a.keys != [] && TopKey(a) == TopKey(s) && a.flow == s.flow && a.indent == s.indent
    ensures KeyTokens(a) == KeyTokens(s)
  {
  }

  // ---------------------------------------------------------------- handing tokens out

  /** No possible key is at the head of the queue. */
  predicate HeadIsSure(s: Scanner) {
    s.tokens != [] && forall i :: 0 <= i < |s.keys| ==> !(s.keys[i].possible && s.keys[i].number == |s.handed|)
  }

  function HandOut(s: Scanner): Scanner
    requires s.tokens != []
  {
    s.(handed := s.handed + [s.tokens[0]], tokens := s.tokens[1..])
  }

  lemma HandOutKeeps(s: Scanner)
    requires Sound(s) && HeadIsSure(s)
    ensures Sound(HandOut(s)) && All(HandOut(s)) == All(s)
  {
    var t := HandOut(s);
    assert All(t) == All(s);
    forall i | 0 <= i < |t.keys| ensures AtToken(t, t.keys[i]) {
      assert AtToken(s, s.keys[i]);
    }
  }

  // ---------------------------------------------------------------- whole texts

  /** A text from a position on: lexemes in order, the end of the input last. */
  predicate Text(mark: Mark, xs: seq<Lexeme>)
    decreases |xs|
  {
    xs != [] &&
    var x := xs[0];
    && (x.start == mark || Before(mark, x.start)) && (x.glyph.EndOfInput? || Before(x.start, x.end)) &&
      Weight(x.kind) == 0
    && if x.glyph.EndOfInput? then |xs| == 1 else Text(x.end, xs[1..])
  }

  /** What one call of `yaml_parser_fetch_more_tokens` comes to. */
  datatype Fetched = Enough(s: Scanner, rest: seq<Lexeme>) | Failed | Starved

  /** `yaml_parser_fetch_more_tokens`: until the head of the queue is sure. */
  ghost function FetchMore(s: Scanner, xs: seq<Lexeme>): (r: Fetched)
    requires Sound(s) && (xs != [] ==> Text(s.mark, xs))
    ensures r.Enough? ==> |r.rest| <= |xs| && (|r.rest| == |xs| ==> r.s.tokens == s.tokens)
    decreases |xs|
  {
    var keys := if s.tokens == [] then Some(s.keys) else Stale(s.keys, s.mark);
    if keys.None? then Failed
    else
      var t := s.(keys := keys.value);
      if HeadIsSure(t) then Enough(t, xs)
      else if xs == [] then Starved
      else
        StillFetches(s, t.keys);
        var r := Fetch(t, xs[0]);
        if r.None? then Failed
        else
          FetchKeeps(t, xs[0]);
          FetchMoves(t, xs[0]);
          FetchMore(r.value, xs[1..])
  }

  lemma StillFetches(s: Scanner, keys: seq<SimpleKey>)
    requires Sound(s) && (keys == s.keys || Stale(s.keys, s.mark) == Some(keys))
    ensures Sound(s.(keys := keys))
  {
    FewerKeep(s, keys);
  }

  lemma DispatchMoves(s: Scanner, x: Lexeme)
    requires Keyed(s) && !x.glyph.EndOfInput?
    ensures Dispatch(s, x).Some? ==> Dispatch(s, x).value.mark == x.end
  {
    hide SaveKey, RemoveKey, Roll, Unroll, InsertAt;
  }

  lemma NothingHanded(s: Scanner, x: Lexeme)
    requires Sound(s) && Next(s, x)
    ensures Fetch(s, x).Some? ==> Fetch(s, x).value.handed == s.handed && Fetch(s, x).value.keys != []
  {
    hide KeysOk, InTextOrder, Nested, Depth, LevelsGrow, Approach, Dispatch;
    FetchKeeps(s, x);
    if Approach(s, x).Some? {
      ApproachKeeps(s, x);
      Untouched(s, x);
      KeyedNow(Approach(s, x).value);
      DispatchHands(Approach(s, x).value, x);
    }
    if Fetch(s, x).Some? {
      HasKeys(Fetch(s, x).value);
    }
  }

  lemma HasKeys(s: Scanner)
    requires Sound(s)
    ensures s.keys != []
  {
  }

  lemma PartsHand(s: Scanner, kind: Kind)
    requires s.keys != []
    ensures RemoveKey(s).Some? ==> RemoveKey(s).value.handed == s.handed
    ensures SaveKey(s).Some? ==> SaveKey(s).value.handed == s.handed
    ensures Roll(s, s.mark.column, |s.tokens|, kind, s.mark).handed == s.handed
    ensures Roll(s, s.mark.column, |s.tokens|, kind, s.mark).keys == s.keys
  {
  }

  lemma DispatchHands(s: Scanner, x: Lexeme)
    requires Keyed(s)
    ensures Dispatch(s, x).Some? ==> Dispatch(s, x).value.handed == s.handed
  {
    hide RemoveKey, SaveKey, Roll, Unroll;
    match x.glyph
    case EndOfInput =>
      var mark := if s.mark.column != 0 then Mark(s.mark.index, s.mark.line + 1, 0) else s.mark;
      PartsHand(Unroll(s.(mark := mark), -1), KeyT);
    case DirectiveLine => PartsHand(Unroll(s, -1), KeyT);
    case DocumentMark => PartsHand(Unroll(s, -1), KeyT);
    case Dash =>
      PartsHand(s, BlockSequenceStartT);
      PartsHand(Roll(s, s.mark.column, |s.tokens|, BlockSequenceStartT, s.mark), KeyT);
    case Question =>
      PartsHand(s, BlockMappingStartT);
      PartsHand(Roll(s, s.mark.column, |s.tokens|, BlockMappingStartT, s.mark), KeyT);
    case Colon =>
      PartsHand(s, BlockMappingStartT);
      if TopKey(s).possible {
        KeyedHands(s, x);
      }
    case _ => PartsHand(s, KeyT);
  }

  lemma KeyedHands(s: Scanner, x: Lexeme)
    requires Keyed(s) && TopKey(s).possible
    ensures FetchKeyed(s, x).handed == s.handed
  {
  }

  /** The whole text has been read: no key is possible for long, and outside flow collections
      all block collections have ended. */
  ghost predicate Ended(s: Scanner) {
    KeysEnded(s) && (s.flow == 0 ==> Depth(All(s)) == 0)
  }

  /** A fetch other than of the end leaves the scanner at the lexeme's end. */
  lemma FetchMoves(s: Scanner, x: Lexeme)
    requires Sound(s) && Next(s, x)
    ensures Fetch(s, x).Some? && !x.glyph.EndOfInput? ==> Fetch(s, x).value.mark == x.end
    ensures Fetch(s, x).Some? && x.glyph.EndOfInput? ==> Ended(Fetch(s, x).value) && Fetch(s, x).value.tokens != []
  {
    hide KeysOk, InTextOrder, Nested, Depth, LevelsGrow, Approach, FetchEnd, FetchMark, FetchOpen, FetchClose,
      FetchIndicator, FetchKeyed, FetchUnkeyed, FetchWord, FetchBlockText;
    if Approach(s, x).Some? {
      var a := Approach(s, x).value;
      ApproachKeeps(s, x);
      KeyedNow(a);
      if x.glyph.EndOfInput? {
        if FetchEnd(a, x).Some? {
          FetchEndKeeps(a, x);
          EndWaits(a, x);
        }
      } else {
        DispatchMoves(a, x);
      }
    }
  }

  lemma EndWaits(s: Scanner, x: Lexeme)
    requires s.keys != [] && FetchEnd(s, x).Some?
    ensures FetchEnd(s, x).value.tokens != []
  {
  }

  /** All keys stale: the head of the queue is sure. */
  lemma EndedIsSure(s: Scanner)
    requires Ended(s) && s.tokens != [] && Stale(s.keys, s.mark).Some?
    ensures HeadIsSure(s.(keys := Stale(s.keys, s.mark).value))
  {
    var keys := Stale(s.keys, s.mark).value;
    forall i | 0 <= i < |keys| ensures !keys[i].possible {
      assert s.keys[i].possible ==> s.keys[i].mark.line < s.mark.line;
    }
  }

  /** Where a scanner may be between two calls, `xs` being what is left of the text. */
  ghost predicate Between(s: Scanner, xs: seq<Lexeme>) {
    Sound(s) && if xs == [] then Ended(s) else Text(s.mark, xs)
  }

  lemma EndedStays(s: Scanner, keys: seq<SimpleKey>)
    requires Ended(s) && Stale(s.keys, s.mark) == Some(keys)
    ensures Ended(s.(keys := keys))
  {
  }

  lemma FetchStays(s: Scanner, xs: seq<Lexeme>)
    requires Sound(s) && xs != [] && Text(s.mark, xs) && Fetch(s, xs[0]).Some?
    ensures Between(Fetch(s, xs[0]).value, xs[1..]) && (xs[1..] == [] ==> Fetch(s, xs[0]).value.tokens != [])
  {
    hide Sound, Fetch, Ended;
    FetchKeeps(s, xs[0]);
    FetchMoves(s, xs[0]);
    if xs[0].glyph.EndOfInput? {
      assert xs[1..] == [];
    }
  }

  /** The scanner never asks for more text than there is: when the end has been reached, what is
      in the queue is sure. */
  lemma {:induction false} NeverStarves(s: Scanner, xs: seq<Lexeme>)
    requires Between(s, xs) && (xs == [] ==> s.tokens != [])
    ensures !FetchMore(s, xs).Starved?
    ensures FetchMore(s, xs).Enough? ==>
      Between(FetchMore(s, xs).s, FetchMore(s, xs).rest) && HeadIsSure(FetchMore(s, xs).s)
    decreases |xs|
  {
    hide Sound, Fetch, Ended, HeadIsSure;
    var keys := if s.tokens == [] then Some(s.keys) else Stale(s.keys, s.mark);
    if keys.Some? {
      StillFetches(s, keys.value);
      var t := s.(keys := keys.value);
      if xs == [] {
        EndedIsSure(s);
        EndedStays(s, keys.value);
      } else if !HeadIsSure(t) && Fetch(t, xs[0]).Some? {
        FetchStays(t, xs);
        NeverStarves(Fetch(t, xs[0]).value, xs[1..]);
      }
    }
  }

  /** All the tokens of a text; None for an error. */
  ghost function ScanAll(s: Scanner, xs: seq<Lexeme>): Option<Scanner>
    requires Between(s, xs)
    decreases |xs|, |s.tokens|
  {
    if xs == [] && s.tokens == [] then Some(s)
    else
      NeverStarves(s, xs);
      var r := FetchMore(s, xs);
      if r.Failed? then None
      else
        HandOutKeeps(r.s);
        ScanAll(HandOut(r.s), r.rest)
  }

  /** The tokens of any text come in its order, no block collection ends that did not begin, and
      all have ended if the flow collections have. */
  lemma {:induction false} ScannedInOrder(s: Scanner, xs: seq<Lexeme>)
    requires Between(s, xs) && ScanAll(s, xs).Some?
    ensures var t := ScanAll(s, xs).value;
      && t.tokens == [] && InTextOrder(t.handed, t.mark) && Nested(t.handed)
      && (t.flow == 0 ==> Depth(t.handed) == 0)
    decreases |xs|, |s.tokens|
  {
    hide KeysOk, InTextOrder, Nested, Depth, LevelsGrow, FetchMore;
    if xs == [] && s.tokens == [] {
      assert All(s) == s.handed;
    } else {
      NeverStarves(s, xs);
      var r := FetchMore(s, xs);
      HandOutKeeps(r.s);
      ScannedInOrder(HandOut(r.s), r.rest);
    }
  }

  /** The scanner once it has fetched STREAM-START. */
  const STARTED: Scanner :=
    Scanner([], [Queued(StreamStartT, Mark(0, 0, 0))], [NO_KEY], true, 0, [], -1, Mark(0, 0, 0))

  lemma StartIsNested(ts: seq<Queued>)
    requires |ts| == 1 && Weight(ts[0].kind) == 0
    ensures Nested(ts) && Depth(ts) == 0
  {
    assert ts[..0] == [] && ts[..1] == ts;
  }

  lemma StartHasKeys()
    ensures KeysOk(STARTED) && LevelsGrow([], -1)
  {
  }

  lemma StartIsInOrder(ts: seq<Queued>)
    requires |ts| == 1
    ensures InTextOrder(ts, ts[0].mark)
  {
  }

  lemma StartIsBetween(xs: seq<Lexeme>)
    requires Text(Mark(0, 0, 0), xs)
    ensures Between(STARTED, xs)
  {
    hide Text, Nested, Depth, KeysOk, LevelsGrow, InTextOrder;
    var ts := [Queued(StreamStartT, Mark(0, 0, 0))];
    StartIsNested(ts);
    StartHasKeys();
    StartIsInOrder(ts);
    assert [] + ts == ts;
  }

  // ---------------------------------------------------------------- the scanner in place

  class TokenScanner {
    // parser->tokens_parsed counts the tokens in `handed`
    var tokensParsed: nat
    ghost var handed: seq<Queued>
    var tokens: seq<Queued>
    var simpleKeys: seq<SimpleKey>
    var simpleKeyAllowed: bool
    var flowLevel: nat
    var indents: seq<int>
    var indent: int
    var mark: Mark
    var error: bool
    // the text that is still to come
    var text: seq<Lexeme>

    ghost function View(): Scanner
      reads this
    {
      Scanner(handed, tokens, simpleKeys, simpleKeyAllowed, flowLevel, indents, indent, mark)
    }

    ghost predicate Counted()
      reads this
    {
      tokensParsed == |handed| && |simpleKeys| > 0
    }

    /** The call did what `r` says. */
    ghost predicate Did(r: Option<Scanner>, ok: bool)
      reads this
    {
      tokensParsed == |handed| && ok == r.Some? && error == !ok && (ok ==> View() == r.value)
    }

    /** `yaml_parser_fetch_stream_start` */
    constructor (text: seq<Lexeme>)
      ensures View() == STARTED && Counted() && !error && this.text == text
    {
      tokensParsed, handed, tokens := 0, [], [Queued(StreamStartT, Mark(0, 0, 0))];
      simpleKeys, simpleKeyAllowed, flowLevel := [NO_KEY], true, 0;
      indents, indent, mark, error := [], -1, Mark(0, 0, 0), false;
      this.text := text;
    }

    method StaleSimpleKeys() returns (ok: bool)
      requires !error
      modifies `simpleKeys, `error
      ensures ok == Stale(old(simpleKeys), mark).Some? && error == !ok
      ensures ok ==> Some(simpleKeys) == Stale(old(simpleKeys), mark)
    {
      ghost var keys := simpleKeys;
      var i := 0;
      while i < |simpleKeys|
        invariant 0 <= i <= |simpleKeys| == |keys| && !error
        invariant simpleKeys[i..] == keys[i..]
        invariant forall j :: 0 <= j < i ==>
          !(IsStale(keys[j], mark) && keys[j].required) &&
          simpleKeys[j] == if IsStale(keys[j], mark) then keys[j].(possible := false) else keys[j]
      {
        var k := simpleKeys[i];
        assert k == simpleKeys[i..][0] == keys[i..][0] == keys[i];
        if IsStale(k, mark) {
          if k.required {
            error := true;
            StaleFails(keys, mark, i);
            return false;
          }
          simpleKeys := simpleKeys[i := k.(possible := false)];
        }
        assert simpleKeys[i + 1..] == keys[i..][1..] == keys[i + 1..];
        i := i + 1;
      }
      StaleIs(keys, simpleKeys, mark);
      ok := true;
    }

    method RemoveSimpleKey() returns (ok: bool)
      requires !error && Counted()
      modifies `simpleKeys, `error
      ensures Did(RemoveKey(old(View())), ok) && |simpleKeys| == |old(simpleKeys)|
    {
      var top := |simpleKeys| - 1;
      var k := simpleKeys[top];
      if k.possible {
        if k.required {
          error := true;
          return false;
        }
      }
      simpleKeys := simpleKeys[top := k.(possible := false)];
      ok := true;
    }

    method SaveSimpleKey() returns (ok: bool)
      requires !error && Counted()
      modifies `simpleKeys, `error
      ensures Did(SaveKey(old(View())), ok) && |simpleKeys| == |old(simpleKeys)|
      ensures !simpleKeyAllowed ==> ok && simpleKeys == old(simpleKeys)
      ensures var key := SimpleKey(true, flowLevel == 0 && indent == mark.column, tokensParsed + |tokens|, mark);
        ok && simpleKeyAllowed ==> simpleKeys[|simpleKeys| - 1] == key
    {
      var required := flowLevel == 0 && indent == mark.column;
      ok := true;
      if simpleKeyAllowed {
        var k := SimpleKey(true, required, tokensParsed + |tokens|, mark);
        ok := RemoveSimpleKey();
        if ok {
          simpleKeys := simpleKeys[|simpleKeys| - 1 := k];
        }
      }
    }

    method EnqueueToken(kind: Kind, at: Mark)
      modifies `tokens
      ensures tokens == old(tokens) + [Queued(kind, at)]
    {
      tokens := tokens + [Queued(kind, at)];
    }

    /** `number` is the place in the queue counted from the first token ever, or None for its end. */
    method RollIndent(column: nat, number: Option<nat>, kind: Kind, at: Mark)
      requires Counted() && (number.Some? ==> tokensParsed <= number.value <= tokensParsed + |tokens|)
      modifies `tokens, `indents, `indent
      ensures View() == Roll(old(View()), column, if number.None? then |old(tokens)|
        else number.value - tokensParsed, kind, at)
    {
      if flowLevel != 0 {
        return;
      }
      if indent < column {
        indents := indents + [indent];
        indent := column;
        if number.None? {
          assert tokens[..|tokens|] + [Queued(kind, at)] + tokens[|tokens|..] == tokens + [Queued(kind, at)];
          EnqueueToken(kind, at);
        } else {
          var i := number.value - tokensParsed;
          tokens := tokens[..i] + [Queued(kind, at)] + tokens[i..];
        }
      }
    }

    method UnrollIndent(column: int)
      requires LevelsGrow(indents, indent) && column >= -1
      modifies `tokens, `indents, `indent
      ensures View() == Unroll(old(View()), column)
    {
      hide LevelsGrow;
      if flowLevel != 0 {
        return;
      }
      while indent > column
        invariant LevelsGrow(indents, indent) && UnrollLevels(View(), column) == UnrollLevels(old(View()), column)
        decreases |indents|
      {
        NoLevels(indents, indent);
        LevelsPop(indents, indent);
        EnqueueToken(BlockEndT, mark);
        indent := indents[|indents| - 1];
        indents := indents[..|indents| - 1];
      }
    }

    /** The lexeme's token; its text is then behind. */
    method AppendToken(kind: Kind, x: Lexeme)
      modifies `tokens, `mark
      ensures View() == Append(old(View()), kind, x)
    {
      EnqueueToken(kind, x.start);
      mark := x.end;
    }

    method FetchStreamEnd(x: Lexeme) returns (ok: bool)
      requires !error && Counted() && LevelsGrow(indents, indent)
      modifies this
      ensures Did(FetchEnd(old(View()), x), ok) && text == old(text)
    {
      hide Unroll;
      if mark.column != 0 {
        mark := Mark(mark.index, mark.line + 1, 0);
      }
      UnrollIndent(-1);
      ok := RemoveSimpleKey();
      if ok {
        simpleKeyAllowed := false;
        EnqueueToken(StreamEndT, mark);
      }
    }

    /** `yaml_parser_fetch_directive` and `_document_indicator` */
    method FetchLine(x: Lexeme) returns (ok: bool)
      requires !error && Counted() && LevelsGrow(indents, indent)
      modifies this
      ensures Did(FetchMark(old(View()), x), ok) && text == old(text)
    {
      UnrollIndent(-1);
      ok := RemoveSimpleKey();
      if ok {
        simpleKeyAllowed := false;
        AppendToken(x.kind, x);
      }
    }

    method FetchFlowCollectionStart(x: Lexeme) returns (ok: bool)
      requires !error && Counted()
      modifies this
      ensures Did(FetchOpen(old(View()), x), ok) && text == old(text)
    {
      ok := SaveSimpleKey();
      if ok {
        simpleKeys := simpleKeys + [NO_KEY];
        flowLevel := flowLevel + 1;
        simpleKeyAllowed := true;
        AppendToken(x.kind, x);
      }
    }

    method FetchFlowCollectionEnd(x: Lexeme) returns (ok: bool)
      requires !error && Counted()
      modifies this
      ensures Did(FetchClose(old(View()), x), ok) && text == old(text)
    {
      ok := RemoveSimpleKey();
      if ok {
        if flowLevel != 0 {
          flowLevel := flowLevel - 1;
          simpleKeys := simpleKeys[..|simpleKeys| - 1];
        }
        simpleKeyAllowed := false;
        AppendToken(x.kind, x);
      }
    }

    /** `yaml_parser_fetch_flow_entry`, `_block_entry` and `_key` */
    method FetchSign(x: Lexeme, collection: Option<Kind>, kind: Kind, allowed: bool) returns (ok: bool)
      requires !error && Counted()
      modifies this
      ensures Did(FetchIndicator(old(View()), x, collection, kind, allowed), ok) && text == old(text)
    {
      hide RemoveKey, Roll, Append;
      if collection.Some? {
        if flowLevel == 0 && !simpleKeyAllowed {
          error := true;
          return false;
        }
        RollIndent(mark.column, None, collection.value, mark);
      }
      ok := RemoveSimpleKey();
      if ok {
        simpleKeyAllowed := allowed;
        AppendToken(kind, x);
      }
    }

    method FetchValue(x: Lexeme) returns (ok: bool)
      requires !error && Counted() && Keyed(View())
      modifies this
      ensures Did(if TopKey(old(View())).possible then Some(FetchKeyed(old(View()), x))
        else FetchUnkeyed(old(View()), x), ok)
      ensures text == old(text)
    {
      var top := |simpleKeys| - 1;
      var k := simpleKeys[top];
      ok := true;
      if k.possible {
        var i := k.number - tokensParsed;
        tokens := tokens[..i] + [Queued(KeyT, k.mark)] + tokens[i..];
        RollIndent(k.mark.column, Some(k.number), BlockMappingStartT, k.mark);
        simpleKeys := simpleKeys[top := k.(possible := false)];
        simpleKeyAllowed := false;
      } else {
        if flowLevel == 0 {
          if !simpleKeyAllowed {
            error := true;
            return false;
          }
          RollIndent(mark.column, None, BlockMappingStartT, mark);
        }
        simpleKeyAllowed := flowLevel == 0;
      }
      AppendToken(ValueT, x);
    }

    /** `yaml_parser_fetch_anchor`, `_tag`, `_flow_scalar` and `_plain_scalar` */
    method FetchToken(x: Lexeme) returns (ok: bool)
      requires !error && Counted()
      modifies this
      ensures Did(FetchWord(old(View()), x), ok) && text == old(text)
    {
      ok := SaveSimpleKey();
      if ok {
        simpleKeyAllowed := false;
        if x.reopens {
          simpleKeyAllowed := true;
        }
        AppendToken(x.kind, x);
      }
    }

    method FetchBlockScalar(x: Lexeme) returns (ok: bool)
      requires !error && Counted()
      modifies this
      ensures Did(FetchBlockText(old(View()), x), ok) && text == old(text)
    {
      ok := RemoveSimpleKey();
      if ok {
        simpleKeyAllowed := true;
        AppendToken(x.kind, x);
      }
    }

    /** What comes before the dispatch. */
    method ApproachToken(x: Lexeme) returns (ok: bool)
      requires !error && Counted() && Sound(View()) && Next(View(), x)
      modifies this
      ensures Did(Approach(old(View()), x), ok) && text == old(text)
      ensures ok ==> |simpleKeys| == |old(simpleKeys)| && LevelsGrow(indents, indent)
    {
      hide KeysOk, InTextOrder, Nested, Depth, LevelsGrow, Stale, UnrollLevels;
      if x.newline && flowLevel == 0 {
        simpleKeyAllowed := true;
      }
      mark := x.start;
      ok := StaleSimpleKeys();
      if ok {
        UnrollGrows(View(), x.start.column);
        UnrollIndent(x.start.column);
      }
    }

    /** `yaml_parser_fetch_next_token`'s dispatch */
    method DispatchToken(x: Lexeme) returns (ok: bool)
      requires !error && Counted() && Keyed(View()) && LevelsGrow(indents, indent)
      modifies this
      ensures Did(Dispatch(old(View()), x), ok) && text == old(text)
    {
      hide FetchEnd, FetchMark, FetchOpen, FetchClose, FetchIndicator, FetchKeyed, FetchUnkeyed, FetchWord,
        FetchBlockText;
      match x.glyph {
        case EndOfInput => ok := FetchStreamEnd(x);
        case DirectiveLine => ok := FetchLine(x);
        case DocumentMark => ok := FetchLine(x);
        case FlowOpen => ok := FetchFlowCollectionStart(x);
        case FlowClose => ok := FetchFlowCollectionEnd(x);
        case Comma => ok := FetchSign(x, None, FlowEntryT, true);
        case Dash => ok := FetchSign(x, Some(BlockSequenceStartT), BlockEntryT, true);
        case Question => ok := FetchSign(x, Some(BlockMappingStartT), KeyT, flowLevel == 0);
        case Colon => ok := FetchValue(x);
        case Word => ok := FetchToken(x);
        case BlockText => ok := FetchBlockScalar(x);
        case Unknown => error := true; ok := false;
      }
    }

    method FetchNextToken() returns (ok: bool)
      requires !error && Counted() && Sound(View()) && text != [] && Text(mark, text)
      modifies this
      ensures Did(Fetch(old(View()), old(text)[0]), ok) && text == old(text)[1..]
    {
      hide Sound, Approach, Dispatch, LevelsGrow;
      var x := text[0];
      ghost var before := View();
      ok := ApproachToken(x);
      text := text[1..];
      if ok {
        ApproachKeeps(before, x);
        KeyedNow(View());
        ok := DispatchToken(x);
      }
    }

    /** Whether a possible key is at the head of the queue. */
    method KeyAtHead() returns (found: bool)
      requires Counted()
      ensures found == exists i ::
        0 <= i < |simpleKeys| && simpleKeys[i].possible && simpleKeys[i].number == tokensParsed
    {
      var i := 0;
      while i < |simpleKeys|
        invariant 0 <= i <= |simpleKeys|
        invariant forall j :: 0 <= j < i ==> !(simpleKeys[j].possible && simpleKeys[j].number == tokensParsed)
      {
        if simpleKeys[i].possible && simpleKeys[i].number == tokensParsed {
          return true;
        }
        i := i + 1;
      }
      found := false;
    }

    /** `yaml_parser_fetch_more_tokens` */
    method FetchMoreTokens() returns (ok: bool)
      requires !error && Counted() && Between(View(), text) && (text == [] ==> tokens != [])
      modifies this
      ensures !ok ==> error && FetchMore(old(View()), old(text)).Failed?
      ensures ok ==> !error && Counted() && FetchMore(old(View()), old(text)) == Enough(View(), text)
      ensures ok ==> Between(View(), text) && HeadIsSure(View()) && handed == old(handed)
    {
      hide Sound, Text, Ended, Fetch, Stale;
      NeverStarves(View(), text);
      ghost var s, xs := View(), text;
      while true
        invariant !error && Counted() && Between(View(), text) && (text == [] ==> tokens != []) && handed == old(handed)
        invariant FetchMore(View(), text) == FetchMore(s, xs)
        decreases |text|
      {
        NeverStarves(View(), text);
        ghost var t := View();
        var needMoreTokens := tokens == [];
        if !needMoreTokens {
          ok := StaleSimpleKeys();
          if !ok {
            return;
          }
          needMoreTokens := KeyAtHead();
        }
        ghost var u := View();
        Sureness(u);
        if !needMoreTokens {
          return true;
        }
        MoreText(t, u, text);
        FetchOnce(t, u, text);
        ok := FetchNextToken();
        if !ok {
          return;
        }
      }
    }

    /** `yaml_parser_scan`: the next token; None for an error. */
    method Scan() returns (token: Option<Queued>)
      requires !error && Counted() && Between(View(), text) && (text == [] ==> tokens != [])
      modifies this
      ensures token.None? ==> error && FetchMore(old(View()), old(text)).Failed?
      ensures token.Some? ==> !error && Counted() && Between(View(), text)
      ensures token.Some? ==> handed == old(handed) + [token.value]
    {
      hide Sound, Text, Ended, FetchMore, HeadIsSure;
      var ok := FetchMoreTokens();
      if !ok {
        return None;
      }
      HandsOut(View(), text);
      token := Some(tokens[0]);
      handed := handed + [tokens[0]];
      tokens := tokens[1..];
      tokensParsed := tokensParsed + 1;
    }
  }

  lemma {:induction false} UnrollGrows(s: Scanner, column: int)
    requires LevelsGrow(s.indents, s.indent)
    ensures LevelsGrow(UnrollLevels(s, column).indents, UnrollLevels(s, column).indent)
    decreases |s.indents|
  {
    if s.indent > column && s.indents != [] {
      var n := |s.indents| - 1;
      LevelsPop(s.indents, s.indent);
      UnrollGrows(Enqueue(s, Queued(BlockEndT, s.mark)).(indents := s.indents[..n], indent := s.indents[n]), column);
    }
  }

  lemma Sureness(s: Scanner)
    ensures HeadIsSure(s) <==>
      s.tokens != [] && !exists i :: 0 <= i < |s.keys| && s.keys[i].possible && s.keys[i].number == |s.handed|
  {
  }

  /** A head that is not sure: there is more text. */
  lemma MoreText(s: Scanner, t: Scanner, xs: seq<Lexeme>)
    requires Between(s, xs) && (xs == [] ==> s.tokens != []) && t == s.(keys := t.keys) && !HeadIsSure(t)
    requires Some(t.keys) == if s.tokens == [] then Some(s.keys) else Stale(s.keys, s.mark)
    ensures xs != [] && Text(t.mark, xs) && Sound(t)
  {
    hide Sound, Ended, HeadIsSure, Stale;
    StillFetches(s, t.keys);
    if xs == [] {
      EndedIsSure(s);
    }
  }

  /** One round of the loop. */
  lemma FetchOnce(s: Scanner, t: Scanner, xs: seq<Lexeme>)
    requires Between(s, xs) && xs != [] && Text(t.mark, xs) && Sound(t) && t == s.(keys := t.keys) && !HeadIsSure(t)
    requires Some(t.keys) == if s.tokens == [] then Some(s.keys) else Stale(s.keys, s.mark)
    ensures Fetch(t, xs[0]).None? ==> FetchMore(s, xs).Failed?
    ensures Fetch(t, xs[0]).Some? ==>
      && Between(Fetch(t, xs[0]).value, xs[1..]) && (xs[1..] == [] ==> Fetch(t, xs[0]).value.tokens != [])
      && FetchMore(s, xs) == FetchMore(Fetch(t, xs[0]).value, xs[1..])
      && Fetch(t, xs[0]).value.handed == t.handed && Fetch(t, xs[0]).value.keys != []
  {
    hide Sound, Fetch, HeadIsSure, Stale;
    NothingHanded(t, xs[0]);
    if Fetch(t, xs[0]).Some? {
      FetchStays(t, xs);
    }
  }

  lemma HandsOut(s: Scanner, xs: seq<Lexeme>)
    requires Between(s, xs) && HeadIsSure(s)
    ensures s.tokens != [] && Between(HandOut(s), xs)
  {
    HandOutKeeps(s);
  }

  lemma {:induction false} StaleFails(keys: seq<SimpleKey>, mark: Mark, i: nat)
    requires i < |keys| && IsStale(keys[i], mark) && keys[i].required
    ensures Stale(keys, mark).None?
  {
    if i > 0 {
      StaleFails(keys[1..], mark, i - 1);
    }
  }

  lemma {:induction false} StaleIs(keys: seq<SimpleKey>, after: seq<SimpleKey>, mark: Mark)
    requires |after| == |keys| && forall j :: 0 <= j < |keys| ==>
      !(IsStale(keys[j], mark) && keys[j].required) &&
      after[j] == if IsStale(keys[j], mark) then keys[j].(possible := false) else keys[j]
    ensures Stale(keys, mark) == Some(after)
  {
    if keys != [] {
      StaleIs(keys[1..], after[1..], mark);
      assert after == [after[0]] + after[1..];
    }
  }
}
