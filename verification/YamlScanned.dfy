/**
 The scanner finds the tree that lies in the text: for the lexemes of any laid-out documents it
 hands out exactly the tokens that spell them.
 */
module YamlScanned {
  import opened Bytes
  import opened YamlTokens
  import opened YamlSyntax
  import opened YamlScanner
  import opened YamlLayout

  function QueuedKinds(ts: seq<Queued>): (ks: seq<Kind>)
    ensures |ks| == |ts| && forall i :: 0 <= i < |ts| ==> ks[i] == ts[i].kind
  {
    seq(|ts|, i requires 0 <= i < |ts| => ts[i].kind)
  }

  lemma {:induction false} KindsBoth(a: seq<Queued>, b: seq<Queued>)
    ensures QueuedKinds(a + b) == QueuedKinds(a) + QueuedKinds(b)
  {
  }

  lemma {:induction false} KindOne(t: Queued)
    ensures QueuedKinds([t]) == [t.kind]
  {
  }

  // ---------------------------------------------------------------- positions

  predicate Upto(a: Mark, b: Mark) {
    a.index <= b.index && a.line <= b.line
  }

  /** Lexemes from a position on. */
  predicate Chain(m: Mark, xs: seq<Lexeme>)
    decreases |xs|
  {
    xs == [] ||
    (&& (xs[0].start == m || Before(m, xs[0].start)) && Before(xs[0].start, xs[0].end)
     && Weight(xs[0].kind) == 0 && !xs[0].glyph.EndOfInput? && Chain(xs[0].end, xs[1..]))
  }

  function EndMark(m: Mark, xs: seq<Lexeme>): Mark {
    if xs == [] then m else xs[|xs| - 1].end
  }

  lemma {:induction false} ChainBoth(m: Mark, a: seq<Lexeme>, b: seq<Lexeme>)
    ensures Chain(m, a + b) <==> Chain(m, a) && Chain(EndMark(m, a), b)
    decreases |a|
  {
    if a == [] {
      assert a + b == b;
    } else {
      assert (a + b)[0] == a[0] && (a + b)[1..] == a[1..] + b;
      ChainBoth(a[0].end, a[1..], b);
      assert EndMark(a[0].end, a[1..]) == EndMark(m, a);
    }
  }

  lemma {:induction false} ChainUpto(m: Mark, xs: seq<Lexeme>, i: nat)
    requires Chain(m, xs) && i < |xs|
    ensures Upto(m, xs[i].start) && Upto(xs[i].start, xs[|xs| - 1].start)
    decreases |xs|
  {
    if i == 0 {
      if |xs| > 1 {
        ChainUpto(xs[0].end, xs[1..], |xs| - 2);
      }
    } else {
      ChainUpto(xs[0].end, xs[1..], i - 1);
    }
  }

  // ---------------------------------------------------------------- keys grow old

  function Aged(k: SimpleKey, m: Mark): SimpleKey {
    if IsStale(k, m) then k.(possible := false) else k
  }

  function AgedAll(keys: seq<SimpleKey>, m: Mark): (r: seq<SimpleKey>)
    ensures |r| == |keys| && forall i :: 0 <= i < |keys| ==> r[i] == Aged(keys[i], m)
  {
    seq(|keys|, i requires 0 <= i < |keys| => Aged(keys[i], m))
  }

  /** As it is where the last of the lexemes starts. */
  function AgedBy(k: SimpleKey, xs: seq<Lexeme>): SimpleKey {
    if xs == [] then k else Aged(k, xs[|xs| - 1].start)
  }

  /** No required key has gone stale. */
  predicate Calm(keys: seq<SimpleKey>, m: Mark) {
    forall i :: 0 <= i < |keys| ==> !(IsStale(keys[i], m) && keys[i].required)
  }

  lemma {:induction false} StaleCalm(keys: seq<SimpleKey>, m: Mark)
    requires Calm(keys, m)
    ensures Stale(keys, m) == Some(AgedAll(keys, m))
  {
    hide IsStale;
    StaleIs(keys, AgedAll(keys, m), m);
  }

  lemma {:induction false} AgedAgain(k: SimpleKey, a: Mark, b: Mark)
    requires Upto(a, b)
    ensures Aged(Aged(k, a), b) == Aged(k, b)
  {
  }

  lemma {:induction false} CalmBefore(keys: seq<SimpleKey>, a: Mark, b: Mark)
    requires Calm(keys, b) && Upto(a, b)
    ensures Calm(keys, a)
  {
  }

  lemma {:induction false} CalmAged(keys: seq<SimpleKey>, aged: seq<SimpleKey>, a: Mark, b: Mark)
    requires Calm(keys, b) && |aged| == |keys|
    requires forall i :: 0 <= i < |keys| ==> aged[i] == Aged(keys[i], a)
    ensures Calm(aged, b)
  {
  }

  // ---------------------------------------------------------------- several fetches

  /** Fetching the lexemes leads from `s` to `t`. */
  ghost predicate Goes(s: Scanner, xs: seq<Lexeme>, t: Scanner)
    decreases |xs|
  {
    Sound(s) &&
    if xs == [] then t == s
    else Next(s, xs[0]) && Fetch(s, xs[0]).Some? && Goes(Fetch(s, xs[0]).value, xs[1..], t)
  }

  lemma {:induction false} GoesOn(s: Scanner, a: seq<Lexeme>, t: Scanner, b: seq<Lexeme>, u: Scanner)
    requires Goes(s, a, t) && Goes(t, b, u)
    ensures Goes(s, a + b, u)
    decreases |a|
  {
    hide Sound, Fetch, Next;
    if a == [] {
      assert a + b == b;
    } else {
      assert (a + b)[0] == a[0] && (a + b)[1..] == a[1..] + b;
      GoesOn(Fetch(s, a[0]).value, a[1..], t, b, u);
    }
  }

  lemma {:induction false} GoesOne(s: Scanner, x: Lexeme, t: Scanner)
    requires Sound(s) && Next(s, x) && Fetch(s, x) == Some(t)
    ensures Goes(s, [x], t)
  {
    hide Sound, Fetch, Next;
    FetchKeeps(s, x);
    assert [x][1..] == [];
    assert Goes(t, [], t);
  }

  lemma {:induction false} GoesTo(s: Scanner, xs: seq<Lexeme>, t: Scanner)
    requires Goes(s, xs, t) && Chain(s.mark, xs)
    ensures Sound(t) && t.mark == EndMark(s.mark, xs)
    decreases |xs|
  {
    hide Sound, Fetch, Next;
    if xs != [] {
      FetchMoves(s, xs[0]);
      GoesTo(Fetch(s, xs[0]).value, xs[1..], t);
    }
  }

  // ---------------------------------------------------------------- up to a lexeme

  ghost predicate Reaches(s: Scanner, x: Lexeme, a: Scanner) {
    && Sound(s) && Next(s, x) && !x.glyph.EndOfInput? && Approach(s, x) == Some(a)
    && |a.keys| == a.flow + 1 && a.mark == x.start && Keyed(a)
  }

  /** The scanner at a lexeme before which no block collection ends. */
  function Here(s: Scanner, x: Lexeme): Scanner {
    s.(mark := x.start, keys := AgedAll(s.keys, x.start), allowed := s.allowed || (x.newline && s.flow == 0))
  }

  predicate NotOut(s: Scanner, x: Lexeme) {
    s.flow > 0 || s.indent <= x.start.column
  }

  lemma {:induction false} ReachesHere(s: Scanner, x: Lexeme)
    requires Sound(s) && Next(s, x) && !x.glyph.EndOfInput? && NotOut(s, x) && Calm(s.keys, x.start)
    ensures Reaches(s, x, Here(s, x))
  {
    StaleCalm(s.keys, x.start);
    ApproachKeeps(s, x);
    KeyedNow(Approach(s, x).value);
    HasLevels(Approach(s, x).value);
    hide Sound, Next, Stale;
  }

  lemma {:induction false} HasLevels(s: Scanner)
    requires Sound(s)
    ensures |s.keys| == s.flow + 1
  {
  }

  lemma {:induction false} DispatchGoes(s: Scanner, x: Lexeme, a: Scanner, t: Scanner)
    requires Reaches(s, x, a) && Dispatch(a, x) == Some(t)
    ensures Goes(s, [x], t)
  {
    hide Sound, Approach, Dispatch, Next;
    GoesOne(s, x, t);
  }

  // ---------------------------------------------------------------- one lexeme

  /** The key of the level cannot be given up. */
  predicate Held(a: Scanner)
    requires a.keys != []
  {
    TopKey(a).possible && TopKey(a).required
  }

  /** The key at the level where a word or a bracket comes: a new one if one is allowed. */
  function NewTop(a: Scanner): SimpleKey
    requires a.keys != []
  {
    if a.allowed then SimpleKey(true, a.flow == 0 && a.indent == a.mark.column, |a.handed| + |a.tokens|, a.mark)
    else TopKey(a)
  }

  function Unkeyed(a: Scanner): Scanner
    requires a.keys != []
  {
    WithTop(a, TopKey(a).(possible := false))
  }

  lemma {:induction false} WordGoes(s: Scanner, x: Lexeme, a: Scanner)
    requires Reaches(s, x, a) && x.glyph.Word? && (a.allowed ==> !Held(a))
    ensures Goes(s, [x], Append(WithTop(a, NewTop(a)).(allowed := x.reopens), x.kind, x))
  {
    hide Sound, Approach, Next, Goes;
    assert WithTop(a, TopKey(a)) == a;
    assert FetchWord(a, x) == Some(Append(WithTop(a, NewTop(a)).(allowed := x.reopens), x.kind, x));
    DispatchGoes(s, x, a, Append(WithTop(a, NewTop(a)).(allowed := x.reopens), x.kind, x));
  }

  /** A level deeper. */
  function Opened(a: Scanner): Scanner
    requires a.keys != []
  {
    var t := WithTop(a, NewTop(a));
    t.(keys := t.keys + [NO_KEY], flow := t.flow + 1, allowed := true)
  }

  lemma {:induction false} OpenGoes(s: Scanner, x: Lexeme, a: Scanner)
    requires Reaches(s, x, a) && x.glyph.FlowOpen? && (a.allowed ==> !Held(a))
    ensures Goes(s, [x], Append(Opened(a), x.kind, x))
  {
    hide Sound, Approach, Next, Goes;
    assert WithTop(a, TopKey(a)) == a;
    assert FetchOpen(a, x) == Some(Append(Opened(a), x.kind, x));
    DispatchGoes(s, x, a, Append(Opened(a), x.kind, x));
  }

  function Closed(a: Scanner): Scanner
    requires a.keys != [] && a.flow > 0
  {
    a.(flow := a.flow - 1, keys := a.keys[..|a.keys| - 1], allowed := false)
  }

  lemma {:induction false} CloseGoes(s: Scanner, x: Lexeme, a: Scanner)
    requires Reaches(s, x, a) && x.glyph.FlowClose? && a.flow > 0 && !Held(a)
    ensures Goes(s, [x], Append(Closed(a), x.kind, x))
  {
    hide Sound, Approach, Next, Goes;
    assert FetchClose(a, x) == Some(Append(Closed(a), x.kind, x));
    DispatchGoes(s, x, a, Append(Closed(a), x.kind, x));
  }

  lemma {:induction false} CommaGoes(s: Scanner, x: Lexeme, a: Scanner)
    requires Reaches(s, x, a) && x.glyph.Comma? && !Held(a)
    ensures Goes(s, [x], Append(Unkeyed(a).(allowed := true), FlowEntryT, x))
  {
    hide Sound, Approach, Next, Goes;
    assert FetchIndicator(a, x, None, FlowEntryT, true) == Some(Append(Unkeyed(a).(allowed := true), FlowEntryT, x));
    DispatchGoes(s, x, a, Append(Unkeyed(a).(allowed := true), FlowEntryT, x));
  }

  /** A dash or a question mark. */
  lemma {:induction false} SignGoes(s: Scanner, x: Lexeme, a: Scanner)
    requires Reaches(s, x, a) && (x.glyph.Dash? || x.glyph.Question?) && !Held(a) && (a.flow > 0 || a.allowed)
    ensures var dash := x.glyph.Dash?;
      var r := Roll(a, x.start.column, |a.tokens|, if dash then BlockSequenceStartT else BlockMappingStartT, x.start);
      r.keys != [] && Goes(s, [x], Append(Unkeyed(r).(allowed := dash || a.flow == 0),
        if dash then BlockEntryT else KeyT, x))
  {
    hide Sound, Approach, Next, Goes;
    var dash := x.glyph.Dash?;
    var kind := if dash then BlockSequenceStartT else BlockMappingStartT;
    var r := Roll(a, x.start.column, |a.tokens|, kind, x.start);
    RollKeys(a, x.start.column, |a.tokens|, kind, x.start);
    hide Roll;
    var allowed, sign := dash || a.flow == 0, if dash then BlockEntryT else KeyT;
    assert RemoveKey(r) == Some(Unkeyed(r));
    assert FetchIndicator(a, x, Some(kind), sign, allowed) == Some(Append(Unkeyed(r).(allowed := allowed), sign, x));
    DispatchGoes(s, x, a, Append(Unkeyed(r).(allowed := allowed), sign, x));
  }

  lemma {:induction false} RollKeys(a: Scanner, column: nat, i: nat, kind: Kind, mark: Mark)
    requires i <= |a.tokens|
    ensures var r := Roll(a, column, i, kind, mark);
      r == a.(tokens := r.tokens, indents := r.indents, indent := r.indent)
  {
  }

  lemma {:induction false} KeyedGoes(s: Scanner, x: Lexeme, a: Scanner)
    requires Reaches(s, x, a) && x.glyph.Colon? && TopKey(a).possible
    ensures Goes(s, [x], FetchKeyed(a, x))
  {
    hide Sound, Approach, Next, Goes;
    DispatchGoes(s, x, a, FetchKeyed(a, x));
  }

  lemma {:induction false} UnkeyedGoes(s: Scanner, x: Lexeme, a: Scanner)
    requires Reaches(s, x, a) && x.glyph.Colon? && !TopKey(a).possible && (a.flow > 0 || a.allowed)
    ensures Goes(s, [x],
      Append(Roll(a, x.start.column, |a.tokens|, BlockMappingStartT, x.start).(allowed := a.flow == 0), ValueT, x))
  {
    hide Sound, Approach, Next, Goes;
    var r := Roll(a, x.start.column, |a.tokens|, BlockMappingStartT, x.start);
    DispatchGoes(s, x, a, Append(r.(allowed := a.flow == 0), ValueT, x));
  }

  // ---------------------------------------------------------------- a key is saved

  /** The columns of the open block collections, and -1. */
  function Levels(s: Scanner): seq<int> {
    s.indents + [s.indent]
  }

  /** A column is the innermost one left after closing what is deeper just if it is one of them. */
  lemma {:induction false} UnrollTo(s: Scanner, c: int)
    requires LevelsGrow(s.indents, s.indent) && c >= -1
    ensures UnrollLevels(s, c).indent == c <==> c in Levels(s)
    decreases |s.indents|
  {
    if s.indent > c && s.indents != [] {
      var n := |s.indents| - 1;
      LevelsPop(s.indents, s.indent);
      var t := Enqueue(s, Queued(BlockEndT, s.mark)).(indents := s.indents[..n], indent := s.indents[n]);
      UnrollTo(t, c);
      assert Levels(t) == s.indents && Levels(s) == Levels(t) + [s.indent];
    } else {
      NotDeeper(s.indents, s.indent, c);
    }
  }

  lemma {:induction false} NotDeeper(indents: seq<int>, indent: int, c: int)
    requires LevelsGrow(indents, indent) && (indent <= c || indents == []) && c >= -1
    ensures indent == c <==> c in indents + [indent]
  {
    forall i | 0 <= i < |indents| ensures indents[i] < c {
      assert indents[i] <= indents[|indents| - 1];
    }
    assert (indents + [indent])[|indents|] == indent;
  }

  /** Behind a word or an opening bracket where a key is allowed, a key of its level is possible:
      its number is that of the word's own token, its mark where that starts, and it is required
      just if a block collection is open at that column. Where none is allowed, the level's key
      has only grown older. */
  lemma {:induction false} KeySaved(s: Scanner, x: Lexeme)
    requires Sound(s) && Next(s, x) && (x.glyph.Word? || x.glyph.FlowOpen?) && Fetch(s, x).Some? && s.keys != []
    ensures var t := Fetch(s, x).value; var all, n := All(t), |s.keys| - 1;
      && all != [] && all[|all| - 1] == Queued(x.kind, x.start) && n < |t.keys|
      && t.keys[n] ==
           if s.allowed || (x.newline && s.flow == 0) then
             SimpleKey(true, s.flow == 0 && x.start.column in Levels(s), |all| - 1, x.start)
           else Aged(s.keys[n], x.start)
  {
    hide Goes, Fetch, Dispatch, Levels, KeysOk, InTextOrder, Nested, Depth, LevelsGrow, Stale;
    ApproachThere(s, x);
    var a := Approach(s, x).value;
    ApproachIndent(s, x, a);
    SavedDispatch(a, x);
    var t := Dispatch(a, x).value;
    assert All(t)[|All(t)| - 1] == t.tokens[|t.tokens| - 1];
  }

  lemma {:induction false} ApproachThere(s: Scanner, x: Lexeme)
    requires Sound(s) && Next(s, x) && Fetch(s, x).Some? && s.keys != []
    ensures Approach(s, x).Some? && Keyed(Approach(s, x).value)
    ensures Fetch(s, x) == Dispatch(Approach(s, x).value, x)
  {
    hide Sound, Next, Approach, Dispatch;
    if Approach(s, x).Some? {
      ApproachKeeps(s, x);
      KeyedNow(Approach(s, x).value);
    }
  }

  lemma {:induction false} ApproachIndent(s: Scanner, x: Lexeme, a: Scanner)
    requires Sound(s) && s.keys != [] && Approach(s, x) == Some(a)
    ensures a.handed == s.handed && a.flow == s.flow && |a.keys| == |s.keys| && a.mark == x.start
    ensures forall i :: 0 <= i < |a.keys| ==> a.keys[i] == Aged(s.keys[i], x.start)
    ensures a.allowed == (s.allowed || (x.newline && s.flow == 0))
    ensures a.flow == 0 ==> (a.indent == x.start.column <==> x.start.column in Levels(s))
  {
    hide KeysOk, InTextOrder, Nested, Depth, LevelsGrow;
    var t := s.(mark := x.start, keys := a.keys, allowed := a.allowed);
    if s.flow == 0 {
      UnrollTo(t, x.start.column);
    }
  }

  lemma {:induction false} SavedDispatch(a: Scanner, x: Lexeme)
    requires Keyed(a) && (x.glyph.Word? || x.glyph.FlowOpen?) && Dispatch(a, x).Some? && a.mark == x.start
    ensures var t := Dispatch(a, x).value; var n := |a.keys| - 1;
      && t.tokens == a.tokens + [Queued(x.kind, x.start)] && t.handed == a.handed && n < |t.keys|
      && t.keys[n] == NewTop(a)
  {
  }

  // ---------------------------------------------------------------- stretches of text

  /** From `a` to `t` the tokens `ks` have come, no level of flow or indentation has changed, and
      the keys below the top one have only grown old. */
  ghost predicate Stretch(a: Scanner, t: Scanner, xs: seq<Lexeme>, ks: seq<Kind>) {
    && a.handed == [] && t.handed == [] && QueuedKinds(t.tokens) == QueuedKinds(a.tokens) + ks
    && t.flow == a.flow && t.indents == a.indents && t.indent == a.indent && |t.keys| == |a.keys| && a.keys != []
    && forall i :: 0 <= i < |a.keys| - 1 ==> t.keys[i] == AgedBy(a.keys[i], xs)
  }

  /** And the top key is the one saved at `a`. */
  ghost predicate Unit(a: Scanner, t: Scanner, xs: seq<Lexeme>, ks: seq<Kind>, allowed: bool) {
    Stretch(a, t, xs, ks) && xs != [] && TopKey(t) == AgedBy(NewTop(a), xs) && t.allowed == allowed
  }

  lemma {:induction false} ReachesFacts(s: Scanner, x: Lexeme, a: Scanner)
    requires Reaches(s, x, a)
    ensures a.handed == s.handed && a.flow == s.flow && |a.keys| == |s.keys| && a.keys != []
    ensures forall i :: 0 <= i < |a.keys| ==> a.keys[i] == Aged(s.keys[i], x.start) == Aged(a.keys[i], x.start)
    ensures a.allowed == (s.allowed || (x.newline && s.flow == 0))
  {
    hide Sound, Next, Unroll;
  }

  lemma {:induction false} AppendKinds(a: Scanner, kind: Kind, x: Lexeme)
    ensures QueuedKinds(Append(a, kind, x).tokens) == QueuedKinds(a.tokens) + [kind]
  {
    KindsBoth(a.tokens, [Queued(kind, x.start)]);
    KindOne(Queued(kind, x.start));
  }

  lemma {:induction false} WordUnit(s: Scanner, x: Lexeme, a: Scanner) returns (t: Scanner)
    requires Reaches(s, x, a) && x.glyph.Word? && (a.allowed ==> !Held(a)) && a.handed == []
    ensures Goes(s, [x], t) && Unit(a, t, [x], [x.kind], x.reopens)
  {
    hide Goes, Reaches, Aged, QueuedKinds;
    ReachesFacts(s, x, a);
    ReachesMark(s, x, a);
    WordGoes(s, x, a);
    var b := WithTop(a, NewTop(a)).(allowed := x.reopens);
    t := Append(b, x.kind, x);
    AppendKinds(b, x.kind, x);
    NewTopAged(a, x.start);
  }

  lemma {:induction false} ReachesMark(s: Scanner, x: Lexeme, a: Scanner)
    requires Reaches(s, x, a)
    ensures a.mark == x.start
  {
    hide Sound, Next, Approach;
  }

  /** A key saved at a lexeme is not stale there. */
  lemma {:induction false} NewTopAged(a: Scanner, m: Mark)
    requires a.keys != [] && a.mark == m && TopKey(a) == Aged(TopKey(a), m)
    ensures Aged(NewTop(a), m) == NewTop(a)
  {
  }

  /** Nothing later is saved as a key at the level of `a`, and no block collection ends. */
  predicate Steady(a: Scanner, xs: seq<Lexeme>) {
    a.flow > 0 || forall i :: 0 < i < |xs| ==> !xs[i].newline && a.indent <= xs[i].start.column
  }

  lemma {:induction false} AgedThrough(m: Mark, k: SimpleKey, xs: seq<Lexeme>, ys: seq<Lexeme>)
    requires xs != [] && ys != [] && Chain(m, xs + ys)
    ensures Upto(xs[|xs| - 1].start, ys[0].start) && Upto(ys[0].start, ys[|ys| - 1].start)
    ensures AgedBy(Aged(AgedBy(k, xs), ys[0].start), ys) == AgedBy(k, xs + ys)
  {
    ChainBoth(m, xs, ys);
    ChainUpto(EndMark(m, xs), ys, 0);
    LastBehind(m, xs);
    AgedAgain(k, xs[|xs| - 1].start, ys[0].start);
    AgedAgain(k, ys[0].start, ys[|ys| - 1].start);
  }

  lemma {:induction false} LastBehind(m: Mark, xs: seq<Lexeme>)
    requires Chain(m, xs) && xs != []
    ensures Upto(xs[|xs| - 1].start, EndMark(m, xs))
    decreases |xs|
  {
    if |xs| > 1 {
      LastBehind(xs[0].end, xs[1..]);
    }
  }

  /** Where a unit goes on without a key being allowed, it is one unit. */
  lemma {:induction false} UnitThen(m: Mark, a: Scanner, t: Scanner, xs: seq<Lexeme>, ks: seq<Kind>, u: Scanner,
      ys: seq<Lexeme>, ls: seq<Kind>, allowed: bool)
    requires Unit(a, t, xs, ks, false) && ys != [] && Chain(m, xs + ys) && (t.flow > 0 || !ys[0].newline)
    requires Unit(Here(t, ys[0]), u, ys, ls, allowed)
    ensures Unit(a, u, xs + ys, ks + ls, allowed)
  {
    hide QueuedKinds, Chain, Aged, AgedBy, Upto;
    var b := Here(t, ys[0]);
    assert NewTop(b) == TopKey(b);
    forall i | 0 <= i < |a.keys| - 1 ensures u.keys[i] == AgedBy(a.keys[i], xs + ys) {
      AgedThrough(m, a.keys[i], xs, ys);
    }
    AgedThrough(m, NewTop(a), xs, ys);
    assert QueuedKinds(a.tokens) + ks + ls == QueuedKinds(a.tokens) + (ks + ls);
  }

  lemma {:induction false} SteadyOn(a: Scanner, xs: seq<Lexeme>, ys: seq<Lexeme>, b: Scanner)
    requires Steady(a, xs + ys) && xs != [] && ys != [] && b.flow == a.flow && b.indent == a.indent
    ensures Steady(b, ys) && (a.flow > 0 || !ys[0].newline) && NotOut(b, ys[0])
  {
    assert (xs + ys)[|xs|] == ys[0];
    if a.flow == 0 {
      forall i | 0 < i < |ys| ensures !ys[i].newline && a.indent <= ys[i].start.column {
        assert (xs + ys)[|xs| + i] == ys[i];
      }
    }
  }

  /** A scanner that may not save a key goes to the next lexeme of the line. */
  lemma {:induction false} HereCalm(t: Scanner, x: Lexeme, m: Mark)
    requires t.keys != [] && !t.allowed && (t.flow > 0 || !x.newline) && Calm(t.keys, m)
    ensures var b := Here(t, x); b.keys != [] && !b.allowed && Calm(WithTop(b, NewTop(b)).keys, m)
  {
    hide Calm;
    var b := Here(t, x);
    CalmAged(t.keys, b.keys, x.start, m);
    assert WithTop(b, NewTop(b)) == b;
  }

  lemma {:induction false} UnitFacts(a: Scanner, t: Scanner, xs: seq<Lexeme>, ks: seq<Kind>, allowed: bool)
    requires Unit(a, t, xs, ks, allowed)
    ensures xs != [] && t.handed == [] && t.flow == a.flow && t.indent == a.indent && t.allowed == allowed
    ensures t.indents == a.indents && |t.keys| == |a.keys| && t.keys != []
  {
    hide QueuedKinds, AgedBy, NewTop;
  }

  /** What the next lexeme of a unit finds. */
  lemma {:induction false} UnitGoesOn(s: Scanner, a: Scanner, t: Scanner, xs: seq<Lexeme>, ks: seq<Kind>,
      ys: seq<Lexeme>)
    requires Goes(s, xs, t) && Unit(a, t, xs, ks, false) && ys != [] && Chain(s.mark, xs + ys) && Steady(a, xs + ys)
    requires Calm(WithTop(a, NewTop(a)).keys, ys[|ys| - 1].start)
    ensures var b := Here(t, ys[0]);
      && Reaches(t, ys[0], b) && !b.allowed && b.handed == [] && (t.flow > 0 || !ys[0].newline) && Steady(b, ys)
      && Calm(WithTop(b, NewTop(b)).keys, ys[|ys| - 1].start) && Chain(t.mark, ys)
  {
    hide Goes, Sound, Chain, Calm, Steady, Unit, Reaches, NewTop, NotOut, Next;
    var x, m := ys[0], ys[|ys| - 1].start;
    UnitFacts(a, t, xs, ks, false);
    ChainBoth(s.mark, xs, ys);
    GoesTo(s, xs, t);
    ChainUpto(t.mark, ys, 0);
    NextIn(t.mark, ys);
    UnitCalm(a, t, xs, ks, m);
    CalmBefore(t.keys, x.start, m);
    SteadyOn(a, xs, ys, t);
    ReachesHere(t, x);
    HereCalm(t, x, m);
    SteadyOn(a, xs, ys, Here(t, x));
  }

  lemma {:induction false} UnitCalm(a: Scanner, t: Scanner, xs: seq<Lexeme>, ks: seq<Kind>, m: Mark)
    requires Unit(a, t, xs, ks, false) && Calm(WithTop(a, NewTop(a)).keys, m)
    ensures Calm(t.keys, m)
  {
    hide QueuedKinds, Calm;
    CalmAged(WithTop(a, NewTop(a)).keys, t.keys, xs[|xs| - 1].start, m);
  }

  lemma {:induction false} PropsUnit(props: seq<Lexeme>, s: Scanner, a: Scanner) returns (t: Scanner)
    requires props != [] && AreProps(props) && Reaches(s, props[0], a) && a.handed == [] && Chain(s.mark, props)
    requires (a.allowed ==> !Held(a)) && Steady(a, props)
    requires Calm(WithTop(a, NewTop(a)).keys, props[|props| - 1].start)
    ensures Goes(s, props, t) && Unit(a, t, props, LexemeKinds(props), false)
    decreases |props|
  {
    hide Goes, Reaches, Unit, Sound, Steady, Calm, Chain, Held;
    ReachesFacts(s, props[0], a);
    var n := |props| - 1;
    var x := props[n];
    if n == 0 {
      assert props == [x] && LexemeKinds(props) == [x.kind];
      t := WordUnit(s, x, a);
    } else {
      var front := props[..n];
      assert props == front + [x];
      FrontCalm(s.mark, a, props, n - 1);
      FrontSteady(a, props, n);
      ChainBoth(s.mark, front, [x]);
      var t1 := PropsUnit(front, s, a);
      UnitGoesOn(s, a, t1, front, LexemeKinds(front), [x]);
      t := WordUnit(t1, x, Here(t1, x));
      GoesOn(s, front, t1, [x], t);
      UnitThen(s.mark, a, t1, front, LexemeKinds(front), t, [x], [x.kind], false);
      assert LexemeKinds(props) == LexemeKinds(front) + [x.kind];
    }
  }

  lemma {:induction false} FrontCalm(m: Mark, a: Scanner, xs: seq<Lexeme>, i: nat)
    requires a.keys != [] && Chain(m, xs) && i < |xs|
    requires Calm(WithTop(a, NewTop(a)).keys, xs[|xs| - 1].start)
    ensures Calm(WithTop(a, NewTop(a)).keys, xs[i].start)
  {
    hide Calm, NewTop, Chain;
    ChainUpto(m, xs, i);
    CalmBefore(WithTop(a, NewTop(a)).keys, xs[i].start, xs[|xs| - 1].start);
  }

  lemma {:induction false} FrontSteady(a: Scanner, xs: seq<Lexeme>, n: nat)
    requires Steady(a, xs) && n <= |xs|
    ensures Steady(a, xs[..n])
  {
  }

  lemma {:induction false} StretchThen(m: Mark, s: Scanner, t: Scanner, xs: seq<Lexeme>, ks: seq<Kind>, u: Scanner,
      ys: seq<Lexeme>, ls: seq<Kind>)
    requires Stretch(s, t, xs, ks) && Stretch(t, u, ys, ls) && Chain(m, xs + ys)
    ensures Stretch(s, u, xs + ys, ks + ls)
  {
    hide QueuedKinds, Chain, Aged, AgedBy;
    forall i | 0 <= i < |s.keys| - 1 ensures u.keys[i] == AgedBy(s.keys[i], xs + ys) {
      AgedByThen(m, s.keys[i], xs, ys);
    }
    assert QueuedKinds(s.tokens) + ks + ls == QueuedKinds(s.tokens) + (ks + ls);
  }

  lemma {:induction false} AgedByThen(m: Mark, k: SimpleKey, xs: seq<Lexeme>, ys: seq<Lexeme>)
    requires Chain(m, xs + ys)
    ensures AgedBy(AgedBy(k, xs), ys) == AgedBy(k, xs + ys)
  {
    if xs == [] {
      assert xs + ys == ys;
    } else if ys == [] {
      assert xs + ys == xs;
    } else {
      ChainUpto(m, xs + ys, |xs| - 1);
      AgedAgain(k, xs[|xs| - 1].start, ys[|ys| - 1].start);
    }
  }

  lemma {:induction false} NoStretch(s: Scanner)
    requires s.handed == [] && s.keys != []
    ensures Stretch(s, s, [], [])
  {
    assert QueuedKinds(s.tokens) + [] == QueuedKinds(s.tokens);
  }

  /** What came behind the approach to its first lexeme came behind the scanner before. */
  lemma {:induction false} HereStretch(m: Mark, s: Scanner, t: Scanner, xs: seq<Lexeme>, ks: seq<Kind>)
    requires xs != [] && Chain(m, xs) && Stretch(Here(s, xs[0]), t, xs, ks)
    ensures Stretch(s, t, xs, ks)
  {
    hide QueuedKinds, Chain, Aged;
    ChainUpto(m, xs, 0);
    forall i | 0 <= i < |s.keys| - 1 ensures t.keys[i] == AgedBy(s.keys[i], xs) {
      AgedAgain(s.keys[i], xs[0].start, xs[|xs| - 1].start);
    }
  }

  // ---------------------------------------------------------------- between brackets

  /** The scanner between brackets, no key of this level being needed. */
  ghost predicate Free(s: Scanner) {
    Sound(s) && s.flow > 0 && s.handed == [] && s.keys != [] && !TopKey(s).required
  }

  /** A stretch between brackets that leaves no key needed. */
  ghost predicate Loose(s: Scanner, t: Scanner, xs: seq<Lexeme>, ks: seq<Kind>) {
    Goes(s, xs, t) && Stretch(s, t, xs, ks) && Free(t)
  }

  lemma {:induction false} FlowHere(s: Scanner, xs: seq<Lexeme>)
    requires Free(s) && xs != [] && Chain(s.mark, xs) && Calm(s.keys, xs[|xs| - 1].start)
    ensures var a := Here(s, xs[0]);
      && Reaches(s, xs[0], a) && a.handed == [] && !Held(a) && Steady(a, xs)
      && Calm(WithTop(a, NewTop(a)).keys, xs[|xs| - 1].start)
  {
    hide Sound, Chain, IsStale;
    ChainUpto(s.mark, xs, 0);
    NextIn(s.mark, xs);
    CalmBefore(s.keys, xs[0].start, xs[|xs| - 1].start);
    ReachesHere(s, xs[0]);
    CalmAged(s.keys, Here(s, xs[0]).keys, xs[0].start, xs[|xs| - 1].start);
  }

  lemma {:induction false} NextIn(m: Mark, xs: seq<Lexeme>)
    requires xs != [] && Chain(m, xs)
    ensures forall s: Scanner :: s.mark == m ==> Next(s, xs[0])
    ensures !xs[0].glyph.EndOfInput?
  {
  }

  lemma {:induction false} FreeOne(s: Scanner, x: Lexeme, t: Scanner, kind: Kind)
    requires Free(s) && Chain(s.mark, [x]) && Goes(s, [x], t)
    requires Stretch(Here(s, x), t, [x], [kind]) && !TopKey(t).required
    ensures Loose(s, t, [x], [kind])
  {
    hide Goes, Sound;
    GoesTo(s, [x], t);
    HereStretch(s.mark, s, t, [x], [kind]);
  }

  lemma {:induction false} FlowComma(s: Scanner, x: Lexeme) returns (t: Scanner)
    requires Free(s) && Chain(s.mark, [x]) && Calm(s.keys, x.start) && x.glyph.Comma?
    ensures Loose(s, t, [x], [FlowEntryT]) && t.allowed
  {
    hide Goes, Sound, Chain, Calm, Reaches, QueuedKinds;
    FlowHere(s, [x]);
    var a := Here(s, x);
    CommaGoes(s, x, a);
    var b := Unkeyed(a).(allowed := true);
    t := Append(b, FlowEntryT, x);
    AppendKinds(b, FlowEntryT, x);
    ReachesFacts(s, x, a);
    FreeOne(s, x, t, FlowEntryT);
  }

  lemma {:induction false} FlowQuestion(s: Scanner, x: Lexeme) returns (t: Scanner)
    requires Free(s) && Chain(s.mark, [x]) && Calm(s.keys, x.start) && x.glyph.Question?
    ensures Loose(s, t, [x], [KeyT]) && !t.allowed && !TopKey(t).possible
  {
    hide Goes, Sound, Chain, Calm, Reaches, QueuedKinds;
    FlowHere(s, [x]);
    var a := Here(s, x);
    SignGoes(s, x, a);
    var b := Unkeyed(a).(allowed := false);
    t := Append(b, KeyT, x);
    AppendKinds(b, KeyT, x);
    ReachesFacts(s, x, a);
    FreeOne(s, x, t, KeyT);
  }

  /** A ':' behind a key that began with '?'. */
  lemma {:induction false} FlowColon(s: Scanner, x: Lexeme) returns (t: Scanner)
    requires Free(s) && Chain(s.mark, [x]) && Calm(s.keys, x.start) && x.glyph.Colon? && !TopKey(s).possible
    ensures Loose(s, t, [x], [ValueT]) && !t.allowed && !TopKey(t).possible
  {
    hide Goes, Sound, Chain, Calm, Reaches, QueuedKinds;
    FlowHere(s, [x]);
    var a := Here(s, x);
    UnkeyedGoes(s, x, a);
    var b := a.(allowed := false);
    t := Append(b, ValueT, x);
    AppendKinds(b, ValueT, x);
    ReachesFacts(s, x, a);
    FreeOne(s, x, t, ValueT);
  }

  lemma {:induction false} LooseThen(s: Scanner, t: Scanner, xs: seq<Lexeme>, ks: seq<Kind>, u: Scanner,
      ys: seq<Lexeme>, ls: seq<Kind>)
    requires Loose(s, t, xs, ks) && Loose(t, u, ys, ls) && Chain(s.mark, xs + ys)
    ensures Loose(s, u, xs + ys, ks + ls)
  {
    hide Goes, Stretch, Free, Chain;
    GoesOn(s, xs, t, ys, u);
    StretchThen(s.mark, s, t, xs, ks, u, ys, ls);
  }

  /** What a stretch leaves for the next. */
  lemma {:induction false} LooseGoesOn(s: Scanner, t: Scanner, xs: seq<Lexeme>, ks: seq<Kind>, ys: seq<Lexeme>)
    requires Free(s) && Loose(s, t, xs, ks) && Chain(s.mark, xs + ys)
    requires xs + ys != [] && Calm(s.keys, (xs + ys)[|xs + ys| - 1].start)
    ensures Free(t) && Chain(t.mark, ys) && (ys != [] ==> Calm(t.keys, ys[|ys| - 1].start))
  {
    hide Goes, Sound, Chain, QueuedKinds;
    ChainBoth(s.mark, xs, ys);
    GoesTo(s, xs, t);
    if ys != [] {
      LooseCalm(s, t, xs, ks, ys[|ys| - 1].start);
    }
  }

  lemma {:induction false} LooseCalm(s: Scanner, t: Scanner, xs: seq<Lexeme>, ks: seq<Kind>, m: Mark)
    requires Free(s) && Loose(s, t, xs, ks) && Calm(s.keys, m)
    ensures Calm(t.keys, m)
  {
    hide Goes, Sound, QueuedKinds;
    forall i | 0 <= i < |t.keys| ensures !(IsStale(t.keys[i], m) && t.keys[i].required) {
      if i < |t.keys| - 1 {
        assert t.keys[i] == AgedBy(s.keys[i], xs);
      }
    }
  }

  // ---------------------------------------------------------------- simple keys

  lemma {:induction false} InsertKinds(s: Scanner, i: nat, t: Queued, front: seq<Kind>, back: seq<Kind>)
    requires i == |front| && QueuedKinds(s.tokens) == front + back
    ensures i <= |s.tokens| && QueuedKinds(InsertAt(s, i, t).tokens) == front + [t.kind] + back
  {
    assert |QueuedKinds(s.tokens)| == |front| + |back|;
    var a, b := s.tokens[..i], s.tokens[i..];
    assert s.tokens == a + b;
    KindsBoth(a, b);
    assert QueuedKinds(a) == (front + back)[..i] && QueuedKinds(b) == (front + back)[i..];
    KindsBoth(a, [t]);
    KindsBoth(a + [t], b);
    KindOne(t);
  }

  /** The tokens that come before a simple key, where it is the first of a block mapping and
      where it is not. */
  function KeySigns(s: Scanner, column: nat): seq<Kind> {
    if s.flow == 0 && s.indent < column then [BlockMappingStartT, KeyT] else [KeyT]
  }

  lemma {:induction false} RolledKinds(c: Scanner, column: nat, mark: Mark, front: seq<Kind>, back: seq<Kind>)
    requires QueuedKinds(c.tokens) == front + [KeyT] + back
    ensures |c.tokens| == |front| + 1 + |back|
    ensures var r := Roll(c, column, |front|, BlockMappingStartT, mark); var starts := c.flow == 0 && c.indent < column;
      && QueuedKinds(r.tokens) == front + KeySigns(c, column) + back
      && r == c.(tokens := r.tokens, indents := if starts then c.indents + [c.indent] else c.indents,
                 indent := if starts then column else c.indent)
  {
    hide QueuedKinds;
    assert |QueuedKinds(c.tokens)| == |front| + 1 + |back|;
    assert front + [KeyT] + back == front + ([KeyT] + back);
    InsertKinds(c, |front|, Queued(BlockMappingStartT, mark), front, [KeyT] + back);
    assert front + [BlockMappingStartT] + ([KeyT] + back) == front + [BlockMappingStartT, KeyT] + back;
  }

  /** A ':' behind a possible key: its tokens land before those of the key. */
  lemma {:induction false} KeyedKinds(b: Scanner, x: Lexeme, front: seq<Kind>, back: seq<Kind>)
    requires b.keys != [] && b.handed == [] && TopKey(b).number == |front| && QueuedKinds(b.tokens) == front + back
    ensures |b.tokens| == |front| + |back| && |b.handed| <= TopKey(b).number <= |b.handed| + |b.tokens|
    ensures var t := FetchKeyed(b, x); var k := TopKey(b);
      && QueuedKinds(t.tokens) == front + KeySigns(b, k.mark.column) + back + [ValueT]
      && t == b.(tokens := t.tokens, indents := t.indents, indent := t.indent, mark := x.end, allowed := false,
                 keys := WithTop(b, k.(possible := false)).keys)
      && t.indents == (if b.flow == 0 && b.indent < k.mark.column then b.indents + [b.indent] else b.indents)
      && t.indent == (if b.flow == 0 && b.indent < k.mark.column then k.mark.column else b.indent)
  {
    hide QueuedKinds, Roll;
    var k, i := TopKey(b), |front|;
    assert |QueuedKinds(b.tokens)| == |front| + |back|;
    InsertKinds(b, i, Queued(KeyT, k.mark), front, back);
    var c := InsertAt(b, i, Queued(KeyT, k.mark));
    RolledKinds(c, k.mark.column, k.mark, front, back);
    var r := Roll(c, k.mark.column, i, BlockMappingStartT, k.mark);
    AppendKinds(WithTop(r, k.(possible := false)).(allowed := false), ValueT, x);
  }

  /** The key saved at the first lexeme is still possible at a ':' that fits. */
  lemma {:induction false} KeyStillPossible(m: Mark, a: Scanner, t: Scanner, xs: seq<Lexeme>, ks: seq<Kind>,
      allowed: bool, x: Lexeme)
    requires Unit(a, t, xs, ks, allowed) && a.allowed && KeyFits(xs, x) && Chain(m, xs + [x])
    requires a.mark == xs[0].start
    ensures Aged(TopKey(t), x.start) == NewTop(a)
  {
    hide QueuedKinds, Chain;
    AgedThrough(m, NewTop(a), xs, [x]);
    AgedAgain(NewTop(a), xs[|xs| - 1].start, x.start);
  }

  lemma {:induction false} UnitTopCalm(m: Mark, a: Scanner, t: Scanner, xs: seq<Lexeme>, ks: seq<Kind>, allowed: bool,
      x: Lexeme)
    requires Unit(a, t, xs, ks, allowed) && Calm(WithTop(a, NewTop(a)).keys, x.start)
    ensures Calm(t.keys, x.start)
  {
    hide QueuedKinds, Calm;
    CalmAged(WithTop(a, NewTop(a)).keys, t.keys, xs[|xs| - 1].start, x.start);
  }

  lemma {:induction false} KeyedStretch(s: Scanner, t: Scanner, xs: seq<Lexeme>, ks: seq<Kind>, allowed: bool,
      x: Lexeme)
    returns (u: Scanner)
    requires s.flow > 0 && s.handed == [] && s.keys != [] && s.allowed && xs != [] && Chain(s.mark, xs + [x])
    requires Unit(Here(s, xs[0]), t, xs, ks, allowed) && TopKey(Here(t, x)) == NewTop(Here(s, xs[0]))
    ensures u == FetchKeyed(Here(t, x), x) && Stretch(s, u, xs + [x], [KeyT] + ks + [ValueT]) && u.flow > 0
    ensures u.handed == [] && u.keys != [] && !u.allowed && !TopKey(u).possible && !TopKey(u).required
  {
    hide QueuedKinds, Chain, Aged, FetchKeyed;
    var b := Here(t, x);
    KeyedKinds(b, x, QueuedKinds(s.tokens), ks);
    u := FetchKeyed(b, x);
    forall j | 0 <= j < |s.keys| - 1 ensures u.keys[j] == AgedBy(s.keys[j], xs + [x]) {
      AgedTwice(s.mark, s.keys[j], xs, x);
    }
    Assoc4(QueuedKinds(s.tokens), [KeyT], ks, [ValueT]);
  }

  /** A key and its ':' between brackets. */
  lemma {:induction false} FlowKeyed(s: Scanner, t: Scanner, xs: seq<Lexeme>, ks: seq<Kind>, allowed: bool, x: Lexeme)
    returns (u: Scanner)
    requires Free(s) && s.allowed && xs != [] && Goes(s, xs, t) && Unit(Here(s, xs[0]), t, xs, ks, allowed)
    requires KeyFits(xs, x) && Chain(s.mark, xs + [x]) && Calm(s.keys, x.start)
    ensures Loose(s, u, xs + [x], [KeyT] + ks + [ValueT]) && !u.allowed && !TopKey(u).possible
  {
    hide Goes, Sound, Chain, Calm, Aged, AgedAll, KeyFits, Unit, Reaches, Stretch, NewTop, Steady, FetchKeyed,
      QueuedKinds;
    var a, zs := Here(s, xs[0]), xs + [x];
    assert zs[0] == xs[0] && zs[|zs| - 1] == x;
    FlowHere(s, zs);
    UnitFacts(a, t, xs, ks, allowed);
    KeyStillPossible(s.mark, a, t, xs, ks, allowed, x);
    UnitTopCalm(s.mark, a, t, xs, ks, allowed, x);
    ChainBoth(s.mark, xs, [x]);
    GoesTo(s, xs, t);
    var b := ColonHere(t, x);
    TopAged(t, x);
    NewTopPossible(a);
    ColonIs(xs, x);
    KeyedGoes(t, x, b);
    u := KeyedStretch(s, t, xs, ks, allowed, x);
    GoesOn(s, xs, t, [x], u);
    GoesTo(s, zs, u);
  }

  lemma {:induction false} TopAged(t: Scanner, x: Lexeme)
    requires t.keys != []
    ensures Here(t, x).keys != [] && TopKey(Here(t, x)) == Aged(TopKey(t), x.start)
  {
    hide Aged;
  }

  lemma {:induction false} NewTopPossible(a: Scanner)
    requires a.keys != [] && a.allowed
    ensures NewTop(a).possible
  {
  }

  lemma {:induction false} ColonIs(xs: seq<Lexeme>, x: Lexeme)
    requires KeyFits(xs, x)
    ensures x.glyph.Colon?
  {
  }

  lemma {:induction false} Assoc4(a: seq<Kind>, b: seq<Kind>, c: seq<Kind>, d: seq<Kind>)
    ensures a + b + c + d == a + (b + c + d)
  {
  }

  /** The approach to a ':' on the same level. */
  lemma {:induction false} ColonHere(t: Scanner, x: Lexeme) returns (b: Scanner)
    requires Sound(t) && Chain(t.mark, [x]) && NotOut(t, x) && Calm(t.keys, x.start)
    ensures b == Here(t, x) && Reaches(t, x, b)
  {
    hide Sound, Chain, Calm;
    NextIn(t.mark, [x]);
    b := Here(t, x);
    ReachesHere(t, x);
  }

  lemma {:induction false} AgedTwice(m: Mark, k: SimpleKey, xs: seq<Lexeme>, x: Lexeme)
    requires xs != [] && Chain(m, xs + [x])
    ensures Aged(AgedBy(Aged(k, xs[0].start), xs), x.start) == AgedBy(k, xs + [x])
  {
    hide Chain, Aged;
    var zs := xs + [x];
    ChainUpto(m, zs, 0);
    ChainUpto(m, zs, |xs| - 1);
    ChainBoth(m, xs, [x]);
    ChainUpto(m, xs, 0);
    assert zs[0] == xs[0] && zs[|xs| - 1] == xs[|xs| - 1];
    AgedAgain(k, xs[0].start, xs[|xs| - 1].start);
    AgedAgain(k, xs[|xs| - 1].start, x.start);
  }

  // ---------------------------------------------------------------- nodes between brackets

  /** What a node that comes at `a` needs. */
  ghost predicate Due(s: Scanner, a: Scanner, xs: seq<Lexeme>) {
    && xs != [] && Reaches(s, xs[0], a) && a.handed == [] && a.keys != [] && Chain(s.mark, xs)
    && (a.allowed ==> !Held(a)) && Calm(WithTop(a, NewTop(a)).keys, xs[|xs| - 1].start)
  }

  /** What it comes to. */
  ghost predicate Done(s: Scanner, a: Scanner, u: Scanner, xs: seq<Lexeme>, ks: seq<Kind>, allowed: bool) {
    Goes(s, xs, u) && Unit(a, u, xs, ks, allowed)
  }

  /** Properties, and where what follows them begins. */
  lemma {:induction false} PropsThen(props: seq<Lexeme>, ys: seq<Lexeme>, s: Scanner, a: Scanner)
    returns (t: Scanner, b: Scanner)
    requires props != [] && AreProps(props) && ys != [] && Due(s, a, props + ys) && Steady(a, props + ys)
    ensures Done(s, a, t, props, LexemeKinds(props), false) && b == Here(t, ys[0]) && Due(t, b, ys)
    ensures t.flow > 0 || !ys[0].newline
  {
    hide Goes, Sound, Unit, Reaches, Chain, Calm, Held, Steady, AreProps;
    var zs := props + ys;
    assert zs[0] == props[0];
    ChainBoth(s.mark, props, ys);
    FrontCalm(s.mark, a, zs, |props| - 1);
    FrontSteady(a, zs, |props|);
    assert zs[..|props|] == props;
    t := PropsUnit(props, s, a);
    UnitGoesOn(s, a, t, props, LexemeKinds(props), ys);
    b := Here(t, ys[0]);
    ReachesFacts(t, ys[0], b);
  }

  /** Properties and the rest are one unit. */
  lemma {:induction false} PropsJoin(props: seq<Lexeme>, ys: seq<Lexeme>, s: Scanner, a: Scanner, t: Scanner,
      u: Scanner, ls: seq<Kind>, allowed: bool)
    requires Done(s, a, t, props, LexemeKinds(props), false) && ys != [] && Chain(s.mark, props + ys)
    requires (t.flow > 0 || !ys[0].newline) && Done(t, Here(t, ys[0]), u, ys, ls, allowed)
    ensures Done(s, a, u, props + ys, LexemeKinds(props) + ls, allowed)
  {
    hide Goes, Unit, Chain;
    GoesOn(s, props, t, ys, u);
    UnitThen(s.mark, a, t, props, LexemeKinds(props), u, ys, ls, allowed);
  }

  lemma {:induction false} WordDone(s: Scanner, a: Scanner, x: Lexeme) returns (u: Scanner)
    requires Due(s, a, [x]) && x.glyph.Word?
    ensures Done(s, a, u, [x], [x.kind], x.reopens)
  {
    hide Goes, Unit, Chain, Reaches, Calm;
    u := WordUnit(s, x, a);
  }

  lemma {:induction false} WordsKinds(props: seq<Lexeme>, x: Lexeme)
    ensures x.kind.ScalarT? ==> NodeKinds(Erased(Words(props, x))) == LexemeKinds(props) + [x.kind]
    ensures x.kind.AliasT? ==> NodeKinds(Erased(Sole(x))) == [x.kind]
    ensures NodeKinds(Erased(Marked(props))) == LexemeKinds(props)
  {
  }

  /** The tokens of a bracketed group. */
  function FlowKinds(t: Laid): seq<Kind>
    requires t.Flow?
  {
    [t.start.kind] + EntriesKinds(t.form, ErasedLines(t.entries)) + (if t.comma == [] then [] else [FlowEntryT])
    + [t.end.kind]
  }

  function FlowLexemes(t: Laid): seq<Lexeme>
    requires t.Flow?
  {
    [t.start] + LinesLexemes(t.entries) + t.comma + [t.end]
  }

  lemma {:induction false} FlowIs(t: Laid)
    requires t.Flow? && Bracketed(t.form, t.start, t.entries, t.comma, t.end)
    ensures NodeKinds(Erased(t)) == LexemeKinds(t.props) + FlowKinds(t)
    ensures Lexemes(t) == t.props + FlowLexemes(t)
  {
    hide EntriesKinds, ErasedLines, LinesLexemes;
    var p, o := LexemeKinds(t.props), [t.start.kind];
    var e, z := EntriesKinds(t.form, ErasedLines(t.entries)), [t.end.kind];
    var c := if t.comma == [] then [] else [FlowEntryT];
    assert p + o + e + c + z == p + (o + e + c + z);
  }

  lemma {:induction false} FlowHas(t: Laid)
    requires t.Flow? && InFlow(t)
    ensures AreProps(t.props) && Bracketed(t.form, t.start, t.entries, t.comma, t.end)
    ensures forall i :: 0 <= i < |t.entries| ==> LineInFlow(t.entries[i], i == 0)
  {
  }

  /** A node between brackets, or a simple key: one unit, whose tokens are those of the tree. */
  lemma {:induction false} NodeUnit(t: Laid, s: Scanner, a: Scanner) returns (u: Scanner)
    requires InFlow(t) && Due(s, a, Lexemes(t)) && Steady(a, Lexemes(t))
    ensures Done(s, a, u, Lexemes(t), NodeKinds(Erased(t)), OpenAfter(t, false))
    decreases t, 1
  {
    hide Due, Done, Steady, AreProps, NodeKinds, Erased, LinesLexemes;
    match t
    case Sole(x) =>
      WordsKinds([], x);
      u := WordDone(s, a, x);
    case Words(props, x) =>
      WordsKinds(props, x);
      if props == [] {
        assert [] + [x] == [x] && LexemeKinds([]) + [x.kind] == [x.kind];
        u := WordDone(s, a, x);
      } else {
        var t1, b := PropsThen(props, [x], s, a);
        u := WordDone(t1, b, x);
        DueChain(s, a, props + [x]);
        PropsJoin(props, [x], s, a, t1, u, [x.kind], x.reopens);
      }
    case Marked(props) =>
      WordsKinds(props, props[0]);
      u := MarkedDone(props, s, a);
    case Flow(form, props, start, entries, comma, end) =>
      FlowHas(t);
      FlowIs(t);
      var ys := FlowLexemes(t);
      hide FlowLexemes, FlowKinds, Lexemes;
      FlowFirst(t);
      if props == [] {
        assert [] + ys == ys && LexemeKinds([]) + FlowKinds(t) == FlowKinds(t);
        u := GroupUnit(t, s, a);
      } else {
        var t1, b := PropsThen(props, ys, s, a);
        u := GroupUnit(t, t1, b);
        DueChain(s, a, props + ys);
        PropsJoin(props, ys, s, a, t1, u, FlowKinds(t), false);
      }
  }

  lemma {:induction false} FlowFirst(t: Laid)
    requires t.Flow?
    ensures FlowLexemes(t) != [] && FlowLexemes(t)[0] == t.start
  {
  }

  lemma {:induction false} DueChain(s: Scanner, a: Scanner, xs: seq<Lexeme>)
    requires Due(s, a, xs)
    ensures xs != [] && Chain(s.mark, xs)
  {
  }

  lemma {:induction false} MarkedDone(props: seq<Lexeme>, s: Scanner, a: Scanner) returns (u: Scanner)
    requires props != [] && AreProps(props) && Due(s, a, props) && Steady(a, props)
    ensures Done(s, a, u, props, LexemeKinds(props), false)
  {
    hide Goes, Unit, Reaches, Chain, Calm, Steady, AreProps, Held;
    u := PropsUnit(props, s, a);
  }

  /** Behind an opening bracket. */
  lemma {:induction false} GroupOpens(s: Scanner, a: Scanner, x: Lexeme, rest: seq<Lexeme>) returns (t: Scanner)
    requires Due(s, a, [x] + rest) && rest != [] && x.glyph.FlowOpen?
    ensures Goes(s, [x], t) && Free(t) && t.allowed && Chain(t.mark, rest) && t.handed == []
    ensures QueuedKinds(t.tokens) == QueuedKinds(a.tokens) + [x.kind]
    ensures t.indents == a.indents && t.indent == a.indent && t.flow == a.flow + 1
    ensures a.keys != [] && t.keys == WithTop(a, NewTop(a)).keys + [NO_KEY]
    ensures Calm(t.keys, rest[|rest| - 1].start)
  {
    hide Goes, Sound, Chain, Reaches, Calm;
    var xs := [x] + rest;
    assert xs[0] == x && xs[|xs| - 1] == rest[|rest| - 1];
    ReachesFacts(s, x, a);
    OpenGoes(s, x, a);
    t := Append(Opened(a), x.kind, x);
    AppendKinds(Opened(a), x.kind, x);
    ChainBoth(s.mark, [x], rest);
    GoesTo(s, [x], t);
    CalmMore(WithTop(a, NewTop(a)).keys, rest[|rest| - 1].start);
  }

  lemma {:induction false} CalmMore(keys: seq<SimpleKey>, m: Mark)
    requires Calm(keys, m)
    ensures Calm(keys + [NO_KEY], m)
  {
  }

  /** A closing bracket goes back to the level around. */
  lemma {:induction false} GroupCloses(t: Scanner, x: Lexeme) returns (u: Scanner)
    requires Free(t) && Chain(t.mark, [x]) && Calm(t.keys, x.start) && x.glyph.FlowClose?
    ensures Goes(t, [x], u) && u.handed == [] && QueuedKinds(u.tokens) == QueuedKinds(t.tokens) + [x.kind]
    ensures u.indents == t.indents && u.indent == t.indent && u.flow == t.flow - 1 && !u.allowed
    ensures t.keys != [] && u.keys == AgedAll(t.keys, x.start)[..|t.keys| - 1]
  {
    hide Goes, Sound, Chain, Reaches, Calm, QueuedKinds;
    FlowHere(t, [x]);
    var a := Here(t, x);
    CloseGoes(t, x, a);
    u := Append(Closed(a), x.kind, x);
    AppendKinds(Closed(a), x.kind, x);
  }

  /** A bracketed group: for the level around, one unit. */
  lemma {:induction false} GroupUnit(t: Laid, s: Scanner, a: Scanner) returns (u: Scanner)
    requires t.Flow? && InFlow(t) && Due(s, a, FlowLexemes(t))
    ensures Done(s, a, u, FlowLexemes(t), FlowKinds(t), false)
    decreases t, 0
  {
    hide Due, Done, Free, Loose, LinesLexemes, EntriesKinds, ErasedLines, QueuedKinds, Goes, Chain, Calm, Sound,
      LineInFlow;
    FlowHas(t);
    var xs, inner, ks := FlowLexemes(t), LinesLexemes(t.entries), EntriesKinds(t.form, ErasedLines(t.entries));
    var rest := inner + t.comma + [t.end];
    assert xs == [t.start] + rest && rest[|rest| - 1] == t.end;
    DueChain(s, a, xs);
    var t1 := GroupOpens(s, a, t.start, rest);
    var t3 := InsideGoes(t, t1);
    u := GroupCloses(t3, t.end);
    GroupWhole(t, s, a, t1, t3, u);
  }

  /** The entries, and maybe a comma behind them. */
  lemma {:induction false} InsideGoes(t: Laid, s: Scanner) returns (u: Scanner)
    requires t.Flow? && Bracketed(t.form, t.start, t.entries, t.comma, t.end) && Free(s) && s.allowed
    requires forall i :: 0 <= i < |t.entries| ==> LineInFlow(t.entries[i], i == 0)
    requires Chain(s.mark, LinesLexemes(t.entries) + t.comma + [t.end]) && Calm(s.keys, t.end.start)
    ensures Loose(s, u, LinesLexemes(t.entries) + t.comma,
              EntriesKinds(t.form, ErasedLines(t.entries)) + if t.comma == [] then [] else [FlowEntryT])
    ensures Free(u) && Chain(u.mark, [t.end]) && Calm(u.keys, t.end.start)
    decreases t.entries, 1
  {
    hide Free, Loose, LinesLexemes, EntriesKinds, ErasedLines, Chain, Calm, LineInFlow;
    var xs, ks := LinesLexemes(t.entries), EntriesKinds(t.form, ErasedLines(t.entries));
    var ys := t.comma + [t.end];
    assert xs + ys == xs + t.comma + [t.end] && ys[|ys| - 1] == t.end;
    PartCalm(s, xs, ys);
    var u0 := LinesGo(t.form, t.entries, s);
    LooseGoesOn(s, u0, xs, ks, t.comma + [t.end]);
    if t.comma == [] {
      assert xs + t.comma == xs && ks + [] == ks && t.comma + [t.end] == [t.end];
      u := u0;
    } else {
      var c := t.comma[0];
      assert t.comma == [c];
      PartCalm(u0, [c], [t.end]);
      u := FlowComma(u0, c);
      ChainBoth(s.mark, xs + t.comma, [t.end]);
      LooseThen(s, u0, xs, ks, u, [c], [FlowEntryT]);
      LooseGoesOn(u0, u, [c], [FlowEntryT], [t.end]);
    }
  }

  /** A chain of lexemes in two parts: the first is calm if the last lexeme is. */
  lemma {:induction false} PartCalm(s: Scanner, xs: seq<Lexeme>, ys: seq<Lexeme>)
    requires ys != [] && Chain(s.mark, xs + ys) && Calm(s.keys, ys[|ys| - 1].start)
    ensures Chain(s.mark, xs) && (xs != [] ==> Calm(s.keys, xs[|xs| - 1].start))
  {
    hide Chain, Calm;
    ChainBoth(s.mark, xs, ys);
    if xs != [] {
      ChainUpto(s.mark, xs + ys, |xs| - 1);
      CalmBefore(s.keys, xs[|xs| - 1].start, ys[|ys| - 1].start);
    }
  }

  /** The entries between brackets. */
  lemma {:induction false} LinesGo(form: Form, entries: seq<Line>, s: Scanner) returns (u: Scanner)
    requires IsFlow(form) && Free(s) && s.allowed
    requires forall i :: 0 <= i < |entries| ==> LineInFlow(entries[i], i == 0)
    requires var xs := LinesLexemes(entries);
      Chain(s.mark, xs) && (xs != [] ==> Calm(s.keys, xs[|xs| - 1].start))
    ensures Loose(s, u, LinesLexemes(entries), EntriesKinds(form, ErasedLines(entries)))
    ensures entries == [] ==> u == s
    decreases entries, 0
  {
    hide Free, Loose, Chain, Calm, LineInFlow, LinesLexemes, LineLexemes, ErasedLines, FlowLineKinds, EntriesKinds,
      IsFlow;
    LinesNone(form);
    if entries == [] {
      u := s;
      NothingLoose(s);
    } else {
      var n := |entries| - 1;
      var front, last := LinesLexemes(entries[..n]), LineLexemes(entries[n]);
      var ks, ls := EntriesKinds(form, ErasedLines(entries[..n])), FlowLineKinds(form, entries[n], n == 0);
      LineSome(entries[n], n == 0);
      LinesSnoc(form, entries);
      assert (front + last)[|front + last| - 1] == last[|last| - 1];
      PartCalm(s, front, last);
      var t := LinesGo(form, entries[..n], s);
      LooseGoesOn(s, t, front, ks, last);
      u := LineGo(form, entries[n], n == 0, t);
      LooseThen(s, t, front, ks, u, last, ls);
    }
  }

  lemma {:induction false} LinesNone(form: Form)
    ensures LinesLexemes([]) == [] && EntriesKinds(form, ErasedLines([])) == []
  {
  }

  lemma {:induction false} LinesSnoc(form: Form, entries: seq<Line>)
    requires IsFlow(form) && entries != []
    ensures var n := |entries| - 1;
      && LinesLexemes(entries) == LinesLexemes(entries[..n]) + LineLexemes(entries[n])
      && EntriesKinds(form, ErasedLines(entries))
        == EntriesKinds(form, ErasedLines(entries[..n])) + FlowLineKinds(form, entries[n], n == 0)
  {
    hide LineLexemes, EntriesKinds, FlowLineKinds, ErasedLine, IsFlow;
    var n := |entries| - 1;
    FlowKindsSnoc(form, ErasedLines(entries[..n]), entries[n]);
  }

  lemma {:induction false} NothingLoose(s: Scanner)
    requires Free(s)
    ensures Loose(s, s, [], [])
  {
    NoStretch(s);
  }

  /** The tokens of an entry with its comma. */
  function FlowLineKinds(form: Form, e: Line, first: bool): seq<Kind> {
    (if first then [] else [FlowEntryT]) + EntryKinds(form, ErasedLine(e))
  }

  lemma {:induction false} FlowKindsSnoc(form: Form, front: seq<Entry>, e: Line)
    requires IsFlow(form)
    ensures EntriesKinds(form, front + [ErasedLine(e)]) ==
      EntriesKinds(form, front) + FlowLineKinds(form, e, front == [])
  {
    hide EntryKinds, ErasedLine, IsFlow;
    var all := front + [ErasedLine(e)];
    assert all[..|front|] == front;
    var k := EntryKinds(form, ErasedLine(e));
    if front == [] {
      assert EntriesKinds(form, front) == [];
      assert [] + [] + k == [] + ([] + k);
    } else {
      assert EntriesKinds(form, front) + [FlowEntryT] + k == EntriesKinds(form, front) + ([FlowEntryT] + k);
    }
  }

  lemma {:induction false} LineSome(e: Line, first: bool)
    requires LineInFlow(e, first)
    ensures LineLexemes(e) != []
  {
    if e.OnItem? {
      NodeSome(e.node);
    }
  }

  lemma {:induction false} NodeSome(t: Laid)
    requires InFlow(t)
    ensures Lexemes(t) != []
  {
  }

  /** An entry without its comma. */
  function BodyLexemes(e: Line): seq<Lexeme> {
    match e
    case OnItem(_, node) => Lexemes(node)
    case OnPair(_, key, colon, value) => Lexemes(key) + [colon] + Lexemes(value)
    case OnKey(_, question, key, colons, value) => [question] + Lexemes(key) + colons + Lexemes(value)
  }

  lemma {:induction false} LineIs(e: Line)
    ensures LineLexemes(e) == e.lead + BodyLexemes(e)
  {
    hide Lexemes;
    match e
    case OnItem(_, _) =>
    case OnPair(lead, key, colon, value) =>
      assert lead + Lexemes(key) + [colon] + Lexemes(value) == lead + (Lexemes(key) + [colon] + Lexemes(value));
    case OnKey(lead, q, key, colons, value) =>
      var k, v := Lexemes(key), Lexemes(value);
      assert lead + [q] + k + colons + v == lead + ([q] + k + colons + v);
  }

  lemma {:induction false} BodySome(e: Line, first: bool)
    requires LineInFlow(e, first)
    ensures BodyLexemes(e) != []
  {
    if e.OnItem? {
      NodeSome(e.node);
    }
  }

  /** An entry between brackets, with the comma before it. */
  lemma {:induction false} LineGo(form: Form, e: Line, first: bool, s: Scanner) returns (u: Scanner)
    requires IsFlow(form) && LineInFlow(e, first) && Free(s) && (first ==> s.allowed) && LineLexemes(e) != []
    requires Chain(s.mark, LineLexemes(e)) && Calm(s.keys, LineLexemes(e)[|LineLexemes(e)| - 1].start)
    ensures Loose(s, u, LineLexemes(e), FlowLineKinds(form, e, first))
    decreases e, 2
  {
    hide Free, Loose, Chain, Calm, BodyLexemes, LineLexemes, ErasedLine, EntryKinds;
    BodySome(e, first);
    LineIs(e);
    var ys := BodyLexemes(e);
    if first {
      assert [] + ys == ys && [] + EntryKinds(form, ErasedLine(e)) == EntryKinds(form, ErasedLine(e));
      u := BodyGo(form, e, first, s);
    } else {
      var c := e.lead[0];
      assert e.lead == [c];
      PartCalm(s, [c], ys);
      var t := FlowComma(s, c);
      LooseGoesOn(s, t, [c], [FlowEntryT], ys);
      u := BodyGo(form, e, first, t);
      LooseThen(s, t, [c], [FlowEntryT], u, ys, EntryKinds(form, ErasedLine(e)));
    }
  }

  lemma {:induction false} UnitLoose(s: Scanner, u: Scanner, xs: seq<Lexeme>, ks: seq<Kind>, allowed: bool)
    requires Free(s) && xs != [] && Chain(s.mark, xs) && Done(s, Here(s, xs[0]), u, xs, ks, allowed)
    ensures Loose(s, u, xs, ks)
    ensures u.keys != [] && (!s.allowed && !TopKey(s).possible ==> !TopKey(u).possible)
  {
    hide Goes, Sound, Chain, QueuedKinds;
    GoesTo(s, xs, u);
    HereStretch(s.mark, s, u, xs, ks);
  }

  /** A node between brackets, from where the scanner is. */
  lemma {:induction false} ItemGo(t: Laid, s: Scanner) returns (u: Scanner, allowed: bool)
    requires InFlow(t) && Free(s) && Lexemes(t) != []
    requires Chain(s.mark, Lexemes(t)) && Calm(s.keys, Lexemes(t)[|Lexemes(t)| - 1].start)
    ensures Done(s, Here(s, Lexemes(t)[0]), u, Lexemes(t), NodeKinds(Erased(t)), allowed)
    decreases t, 2
  {
    hide Reaches, Sound, Chain, Calm, Steady, Done, Lexemes, NodeKinds, Erased, Held;
    var xs := Lexemes(t);
    var a := Here(s, xs[0]);
    FlowHere(s, xs);
    ReachesFacts(s, xs[0], a);
    u := NodeUnit(t, s, a);
    allowed := OpenAfter(t, false);
  }

  /** A node that may be left out. */
  lemma {:induction false} SlotGo(t: Laid, s: Scanner) returns (u: Scanner)
    requires SlotInFlow(t) && Free(s) && Chain(s.mark, Lexemes(t))
    requires var xs := Lexemes(t); xs != [] ==> Calm(s.keys, xs[|xs| - 1].start)
    ensures Loose(s, u, Lexemes(t), NodeKinds(Erased(t)))
    ensures s.keys != [] && u.keys != [] && (!s.allowed && !TopKey(s).possible ==> !TopKey(u).possible)
    decreases t, 3
  {
    if t.NoNode? {
      u := s;
      NothingLoose(s);
    } else {
      NodeSome(t);
      hide Loose, Chain, Calm, Sound, Done, Lexemes, NodeKinds, Erased;
      var allowed;
      u, allowed := ItemGo(t, s);
      UnitLoose(s, u, Lexemes(t), NodeKinds(Erased(t)), allowed);
    }
  }

  /** An entry between brackets, behind its comma. */
  lemma {:induction false} BodyGo(form: Form, e: Line, first: bool, s: Scanner) returns (u: Scanner)
    requires IsFlow(form) && LineInFlow(e, first) && Free(s) && s.allowed && BodyLexemes(e) != []
    requires Chain(s.mark, BodyLexemes(e)) && Calm(s.keys, BodyLexemes(e)[|BodyLexemes(e)| - 1].start)
    ensures Loose(s, u, BodyLexemes(e), EntryKinds(form, ErasedLine(e)))
    decreases e, 1
  {
    hide Free, Loose, Chain, Calm, Lexemes, Erased, NodeKinds, InFlow, Done, KeyFits;
    match e
    case OnItem(_, node) =>
      var allowed;
      u, allowed := ItemGo(node, s);
      UnitLoose(s, u, Lexemes(node), NodeKinds(Erased(node)), allowed);
      assert [] + NodeKinds(Erased(node)) == NodeKinds(Erased(node));
    case OnPair(_, _, _, _) => u := PairGo(form, e, first, s);
    case OnKey(_, _, _, _, _) => u := KeyGo(form, e, first, s);
  }

  lemma {:induction false} PairGo(form: Form, e: Line, first: bool, s: Scanner) returns (u: Scanner)
    requires IsFlow(form) && e.OnPair? && LineInFlow(e, first) && Free(s) && s.allowed && BodyLexemes(e) != []
    requires Chain(s.mark, BodyLexemes(e)) && Calm(s.keys, BodyLexemes(e)[|BodyLexemes(e)| - 1].start)
    ensures Loose(s, u, BodyLexemes(e), EntryKinds(form, ErasedLine(e)))
    decreases e, 0
  {
    hide Free, Loose, Chain, Calm, Lexemes, Erased, NodeKinds, InFlow, Done, KeyFits;
    var xs, x, ys := Lexemes(e.key), e.colon, Lexemes(e.value);
    var ks, ls := NodeKinds(Erased(e.key)), NodeKinds(Erased(e.value));
    assert BodyLexemes(e) == xs + ([x] + ys) == xs + [x] + ys;
    NodeSome(e.key);
    PartCalm(s, xs, [x] + ys);
    PartCalmColon(s, xs + [x], ys);
    var t, allowed := ItemGo(e.key, s);
    var v := KeyedNext(s, t, xs, ks, allowed, x);
    LooseGoesOn(s, v, xs + [x], [KeyT] + ks + [ValueT], ys);
    u := SlotGo(e.value, v);
    LooseThen(s, v, xs + [x], [KeyT] + ks + [ValueT], u, ys, ls);
  }

  lemma {:induction false} KeyIs(form: Form, e: Line)
    requires e.OnKey?
    ensures BodyLexemes(e) == [e.question] + Lexemes(e.key) + (e.colons + Lexemes(e.value))
    ensures EntryKinds(form, ErasedLine(e)) == [KeyT] + NodeKinds(Erased(e.key))
      + if e.colons == [] then [] else [ValueT] + NodeKinds(Erased(e.value))
  {
    hide Lexemes, NodeKinds, Erased;
    var a, b, c := [e.question] + Lexemes(e.key), e.colons, Lexemes(e.value);
    assert a + b + c == a + (b + c);
    var k, v := [KeyT] + NodeKinds(Erased(e.key)), NodeKinds(Erased(e.value));
    assert k + [] == k && k + [ValueT] + v == k + ([ValueT] + v);
  }

  lemma {:induction false} KeyHas(e: Line, first: bool)
    requires e.OnKey? && LineInFlow(e, first)
    ensures e.question.glyph.Question? && SlotInFlow(e.key) && SlotInFlow(e.value)
    ensures if e.colons == [] then e.value.NoNode? else e.colons == [e.colons[0]] && e.colons[0].glyph.Colon?
  {
    hide InFlow;
  }

  lemma {:induction false} KeyGo(form: Form, e: Line, first: bool, s: Scanner) returns (u: Scanner)
    requires IsFlow(form) && e.OnKey? && LineInFlow(e, first) && Free(s) && s.allowed && BodyLexemes(e) != []
    requires Chain(s.mark, BodyLexemes(e)) && Calm(s.keys, BodyLexemes(e)[|BodyLexemes(e)| - 1].start)
    ensures Loose(s, u, BodyLexemes(e), EntryKinds(form, ErasedLine(e)))
    decreases e, 0
  {
    hide Free, Loose, Chain, Calm, Lexemes, Erased, NodeKinds, InFlow, SlotInFlow, EntryKinds, ErasedLine, BodyLexemes,
      LineInFlow;
    KeyIs(form, e);
    KeyHas(e, first);
    var q, xs, ys := e.question, Lexemes(e.key), e.colons + Lexemes(e.value);
    var ks := NodeKinds(Erased(e.key));
    assert [q] + xs + ys == [q] + (xs + ys);
    PartCalmColon(s, [q] + xs, ys);
    PartCalmColon(s, [q], xs + ys);
    var t1 := FlowQuestion(s, q);
    LooseGoesOn(s, t1, [q], [KeyT], xs);
    var t2 := SlotGo(e.key, t1);
    LooseThen(s, t1, [q], [KeyT], t2, xs, ks);
    if e.colons == [] {
      NoNodeIs(e.value);
      assert ys == [] && [q] + xs + ys == [q] + xs && [KeyT] + ks + [] == [KeyT] + ks;
      u := t2;
    } else {
      LooseGoesOn(s, t2, [q] + xs, [KeyT] + ks, ys);
      u := ValueGo(e.value, e.colons[0], t2);
      LooseThen(s, t2, [q] + xs, [KeyT] + ks, u, ys, [ValueT] + NodeKinds(Erased(e.value)));
    }
  }

  lemma {:induction false} NoNodeIs(t: Laid)
    requires t.NoNode?
    ensures Lexemes(t) == [] && NodeKinds(Erased(t)) == []
  {
  }

  /** The first part of a chain is calm if the whole is. */
  lemma {:induction false} PartCalmColon(s: Scanner, xs: seq<Lexeme>, ys: seq<Lexeme>)
    requires xs != [] && Chain(s.mark, xs + ys) && Calm(s.keys, (xs + ys)[|xs + ys| - 1].start)
    ensures Chain(s.mark, xs) && Calm(s.keys, xs[|xs| - 1].start)
  {
    hide Chain, Calm;
    ChainBoth(s.mark, xs, ys);
    ChainUpto(s.mark, xs + ys, |xs| - 1);
    CalmBefore(s.keys, xs[|xs| - 1].start, (xs + ys)[|xs + ys| - 1].start);
  }

  lemma {:induction false} KeyedNext(s: Scanner, t: Scanner, xs: seq<Lexeme>, ks: seq<Kind>, allowed: bool, x: Lexeme)
    returns (u: Scanner)
    requires Free(s) && s.allowed && xs != [] && Done(s, Here(s, xs[0]), t, xs, ks, allowed)
    requires KeyFits(xs, x) && Chain(s.mark, xs + [x]) && Calm(s.keys, x.start)
    ensures Loose(s, u, xs + [x], [KeyT] + ks + [ValueT])
  {
    hide Goes, Unit, KeyFits, Chain, Calm, Loose;
    u := FlowKeyed(s, t, xs, ks, allowed, x);
  }

  /** A ':' behind a key that began with '?', and its value. */
  lemma {:induction false} ValueGo(value: Laid, x: Lexeme, s: Scanner) returns (u: Scanner)
    requires SlotInFlow(value) && x.glyph.Colon? && Free(s) && s.keys != [] && !TopKey(s).possible
    requires Chain(s.mark, [x] + Lexemes(value))
    requires var xs := [x] + Lexemes(value); Calm(s.keys, xs[|xs| - 1].start)
    ensures Loose(s, u, [x] + Lexemes(value), [ValueT] + NodeKinds(Erased(value)))
    decreases value, 4
  {
    hide Free, Loose, Chain, Calm, Lexemes, Erased, NodeKinds, InFlow, SlotInFlow;
    var ys := Lexemes(value);
    PartCalmColon(s, [x], ys);
    var t := FlowColon(s, x);
    LooseGoesOn(s, t, [x], [ValueT], ys);
    u := SlotGo(value, t);
    LooseThen(s, t, [x], [ValueT], u, ys, NodeKinds(Erased(value)));
  }

  lemma {:induction false} GroupWhole(t: Laid, s: Scanner, a: Scanner, t1: Scanner, t3: Scanner, u: Scanner)
    requires t.Flow? && Bracketed(t.form, t.start, t.entries, t.comma, t.end)
    requires Due(s, a, FlowLexemes(t)) && Goes(s, [t.start], t1) && Goes(t3, [t.end], u)
    requires t1.handed == [] && t1.keys == WithTop(a, NewTop(a)).keys + [NO_KEY]
    requires QueuedKinds(t1.tokens) == QueuedKinds(a.tokens) + [t.start.kind]
    requires t1.indents == a.indents && t1.indent == a.indent && t1.flow == a.flow + 1
    requires Loose(t1, t3, LinesLexemes(t.entries) + t.comma,
               EntriesKinds(t.form, ErasedLines(t.entries)) + if t.comma == [] then [] else [FlowEntryT])
    requires u.handed == [] && QueuedKinds(u.tokens) == QueuedKinds(t3.tokens) + [t.end.kind]
    requires u.indents == t3.indents && u.indent == t3.indent && u.flow == t3.flow - 1 && !u.allowed
    requires t3.keys != [] && u.keys == AgedAll(t3.keys, t.end.start)[..|t3.keys| - 1]
    ensures Done(s, a, u, FlowLexemes(t), FlowKinds(t), false)
  {
    hide Goes, Chain, Calm, Reaches, LinesLexemes, EntriesKinds, ErasedLines, QueuedKinds, Aged, Free, NewTop;
    var inner := LinesLexemes(t.entries) + t.comma;
    var ks := EntriesKinds(t.form, ErasedLines(t.entries)) + if t.comma == [] then [] else [FlowEntryT];
    var xs := FlowLexemes(t);
    assert xs == [t.start] + inner + [t.end];
    GoesOn(s, [t.start], t1, inner, t3);
    GoesOn(s, [t.start] + inner, t3, [t.end], u);
    assert QueuedKinds(a.tokens) + [t.start.kind] + ks + [t.end.kind]
      == QueuedKinds(a.tokens) + ([t.start.kind] + ks + [t.end.kind]);
    forall i | 0 <= i < |a.keys| ensures u.keys[i] == AgedBy(t1.keys[i], xs) {
      AgedInside(s.mark, t1.keys[i], t.start, inner, t.end);
    }
  }

  lemma {:induction false} AgedInside(m: Mark, k: SimpleKey, start: Lexeme, inner: seq<Lexeme>, end: Lexeme)
    requires Chain(m, [start] + inner + [end])
    ensures Aged(AgedBy(k, inner), end.start) == AgedBy(k, [start] + inner + [end])
  {
    hide Chain, Aged;
    var xs := [start] + inner + [end];
    if inner != [] {
      ChainUpto(m, xs, |inner|);
      AgedAgain(k, inner[|inner| - 1].start, end.start);
    }
  }

  // ---------------------------------------------------------------- levels still to be closed

  /** Between lexemes outside brackets, no key being needed. */
  ghost predicate Still(s: Scanner) {
    Sound(s) && s.flow == 0 && s.handed == [] && |s.keys| == 1 && !Held(s)
  }

  /** Once the levels deeper than `c` are closed, the tokens are `ks` and the levels `inds`, `ind`
      the last of them. */
  ghost predicate Pending(s: Scanner, c: int, ind: int, inds: seq<int>, ks: seq<Kind>) {
    Still(s) && -1 <= ind <= c &&
    var u := UnrollLevels(s, c);
    QueuedKinds(u.tokens) == ks && u.indents == inds && u.indent == ind
  }

  lemma {:induction false} UnrollAlike(s: Scanner, t: Scanner, c: int)
    requires s.indents == t.indents && s.indent == t.indent && QueuedKinds(s.tokens) == QueuedKinds(t.tokens)
    ensures var u, v := UnrollLevels(s, c), UnrollLevels(t, c);
      u.indents == v.indents && u.indent == v.indent && QueuedKinds(u.tokens) == QueuedKinds(v.tokens)
    decreases |s.indents|
  {
    hide QueuedKinds;
    if s.indent > c && s.indents != [] {
      var n := |s.indents| - 1;
      KindsBoth(s.tokens, [Queued(BlockEndT, s.mark)]);
      KindsBoth(t.tokens, [Queued(BlockEndT, t.mark)]);
      KindOne(Queued(BlockEndT, s.mark));
      KindOne(Queued(BlockEndT, t.mark));
      UnrollAlike(Enqueue(s, Queued(BlockEndT, s.mark)).(indents := s.indents[..n], indent := s.indents[n]),
        Enqueue(t, Queued(BlockEndT, t.mark)).(indents := t.indents[..n], indent := t.indents[n]), c);
    }
  }

  lemma {:induction false} UnrollTwice(s: Scanner, c: int, d: int)
    requires d <= c
    ensures UnrollLevels(UnrollLevels(s, c), d) == UnrollLevels(s, d)
    decreases |s.indents|
  {
    if s.indent > c && s.indents != [] {
      var n := |s.indents| - 1;
      UnrollTwice(Enqueue(s, Queued(BlockEndT, s.mark)).(indents := s.indents[..n], indent := s.indents[n]), c, d);
    }
  }

  /** A collection that is still open has only to be closed. */
  lemma {:induction false} PendingEnds(s: Scanner, c: int, indent: int, inds: seq<int>, ks: seq<Kind>)
    requires Pending(s, c, c, inds + [indent], ks) && -1 <= indent < c
    ensures Pending(s, indent, indent, inds, ks + [BlockEndT])
  {
    hide Still, QueuedKinds;
    UnrollTwice(s, c, indent);
    var u := UnrollLevels(s, c);
    assert (inds + [indent])[..|inds|] == inds;
    KindsBoth(u.tokens, [Queued(BlockEndT, u.mark)]);
    KindOne(Queued(BlockEndT, u.mark));
  }

  /** Where nothing is open. */
  lemma {:induction false} PendingNow(s: Scanner, c: int)
    requires Still(s) && -1 <= s.indent <= c
    ensures Pending(s, c, s.indent, s.indents, QueuedKinds(s.tokens))
  {
    hide Still, QueuedKinds;
  }

  /** A first lexeme at the column closes what is deeper. */
  lemma {:induction false} ReachesPending(s: Scanner, x: Lexeme, c: int, ind: int, inds: seq<int>, ks: seq<Kind>)
    returns (a: Scanner)
    requires Pending(s, c, ind, inds, ks) && Chain(s.mark, [x]) && x.start.column == c
    ensures Reaches(s, x, a) && a.flow == 0 && a.handed == [] && |a.keys| == 1 && !Held(a)
    ensures QueuedKinds(a.tokens) == ks && a.indents == inds && a.indent == ind
    ensures a.allowed == (s.allowed || x.newline) && a.keys[0] == Aged(s.keys[0], x.start)
  {
    hide Sound, QueuedKinds, Next, UnrollLevels;
    NextIn(s.mark, [x]);
    StaleCalm(s.keys, x.start);
    ApproachKeeps(s, x);
    a := Approach(s, x).value;
    KeyedNow(a);
    HasLevels(a);
    var t := s.(mark := x.start, keys := AgedAll(s.keys, x.start), allowed := s.allowed || (x.newline && s.flow == 0));
    assert a == UnrollLevels(t, c);
    UnrollAlike(t, s, c);
  }

  // ---------------------------------------------------------------- words outside brackets

  /** A possible key began no later than the line of the last lexeme. */
  predicate KeyBy(s: Scanner, xs: seq<Lexeme>)
    requires s.keys != [] && xs != []
  {
    TopKey(s).possible ==> TopKey(s).mark.line <= xs[|xs| - 1].start.line
  }

  /** A stretch in which no block collection begins or ends. */
  ghost predicate Plain(s: Scanner, t: Scanner, xs: seq<Lexeme>, ks: seq<Kind>) {
    && Goes(s, xs, t) && Still(t) && t.indents == s.indents && t.indent == s.indent
    && QueuedKinds(t.tokens) == QueuedKinds(s.tokens) + ks && (if xs == [] then t == s else KeyBy(t, xs))
  }

  lemma {:induction false} PlainThen(s: Scanner, t: Scanner, xs: seq<Lexeme>, ks: seq<Kind>, u: Scanner,
      ys: seq<Lexeme>, ls: seq<Kind>)
    requires Plain(s, t, xs, ks) && Plain(t, u, ys, ls) && ys != []
    ensures Plain(s, u, xs + ys, ks + ls)
  {
    hide Goes, Still, QueuedKinds;
    GoesOn(s, xs, t, ys, u);
    assert (xs + ys)[|xs + ys| - 1] == ys[|ys| - 1];
    assert QueuedKinds(s.tokens) + ks + ls == QueuedKinds(s.tokens) + (ks + ls);
  }

  /** A lexeme deeper than the collection around. */
  lemma {:induction false} PlainHere(s: Scanner, x: Lexeme) returns (a: Scanner)
    requires Still(s) && Chain(s.mark, [x]) && s.indent < x.start.column
    ensures a == Here(s, x) && Reaches(s, x, a) && a.handed == [] && |a.keys| == 1 && !Held(a)
    ensures TopKey(a).possible ==> TopKey(a).mark.line <= x.start.line
    ensures a.allowed ==> !NewTop(a).required
  {
    KeyBehind(s);
    hide Sound, Next;
    NextIn(s.mark, [x]);
    a := Here(s, x);
    ReachesHere(s, x);
  }

  lemma {:induction false} KeyBehind(s: Scanner)
    requires Sound(s) && |s.keys| == 1
    ensures s.keys[0].possible ==> s.keys[0].mark.line <= s.mark.line
  {
    assert AtToken(s, s.keys[0]);
  }

  lemma {:induction false} PlainWord(s: Scanner, x: Lexeme) returns (t: Scanner)
    requires Still(s) && Chain(s.mark, [x]) && s.indent < x.start.column && x.glyph.Word?
    ensures Plain(s, t, [x], [x.kind]) && t.allowed == x.reopens
  {
    hide Goes, Sound, Reaches, QueuedKinds, Chain;
    var a := PlainHere(s, x);
    WordGoes(s, x, a);
    var b := WithTop(a, NewTop(a)).(allowed := x.reopens);
    t := Append(b, x.kind, x);
    AppendKinds(b, x.kind, x);
    GoesTo(s, [x], t);
  }

  lemma {:induction false} PlainText(s: Scanner, x: Lexeme) returns (t: Scanner)
    requires Still(s) && Chain(s.mark, [x]) && s.indent < x.start.column && x.glyph.BlockText?
    ensures Plain(s, t, [x], [x.kind]) && t.allowed
  {
    hide Goes, Sound, QueuedKinds, Chain, Approach, Next;
    var a := PlainHere(s, x);
    var b := Unkeyed(a).(allowed := true);
    t := Append(b, x.kind, x);
    DispatchGoes(s, x, a, t);
    AppendKinds(b, x.kind, x);
    GoesTo(s, [x], t);
  }

  lemma {:induction false} PlainGroup(t: Laid, s: Scanner) returns (u: Scanner)
    requires t.Flow? && InFlow(t) && Still(s) && Chain(s.mark, FlowLexemes(t)) && s.indent < t.start.start.column
    ensures Plain(s, u, FlowLexemes(t), FlowKinds(t)) && !u.allowed
  {
    hide Goes, Sound, Reaches, QueuedKinds, Chain, FlowKinds, InFlow;
    var xs := FlowLexemes(t);
    FlowFirst(t);
    assert xs == [t.start] + xs[1..];
    ChainBoth(s.mark, [t.start], xs[1..]);
    var a := PlainHere(s, t.start);
    u := GroupUnit(t, s, a);
    GoesTo(s, xs, u);
    ChainUpto(s.mark, xs, 0);
  }

  lemma {:induction false} PlainProps(props: seq<Lexeme>, s: Scanner) returns (t: Scanner)
    requires AreProps(props) && Still(s) && Chain(s.mark, props) && Indented(props, s.indent)
    ensures Plain(s, t, props, LexemeKinds(props)) && t.allowed == (s.allowed && props == [])
    decreases |props|
  {
    hide Goes, Still, QueuedKinds, Chain, KeyBy, Plain;
    if props == [] {
      t := s;
      NothingPlain(s);
    } else {
      var n := |props| - 1;
      var front, x := props[..n], props[n];
      assert props == front + [x] && LexemeKinds(props) == LexemeKinds(front) + [x.kind];
      ChainBoth(s.mark, front, [x]);
      var t1 := PlainProps(front, s);
      PlainTo(s, t1, front, LexemeKinds(front));
      t := PlainWord(t1, x);
      PlainThen(s, t1, front, LexemeKinds(front), t, [x], [x.kind]);
    }
  }

  lemma {:induction false} NothingPlain(s: Scanner)
    requires Still(s)
    ensures Plain(s, s, [], []) && LexemeKinds([]) == []
  {
    assert QueuedKinds(s.tokens) + [] == QueuedKinds(s.tokens);
  }

  lemma {:induction false} PlainTo(s: Scanner, t: Scanner, xs: seq<Lexeme>, ks: seq<Kind>)
    requires Plain(s, t, xs, ks) && Chain(s.mark, xs)
    ensures Still(t) && t.mark == EndMark(s.mark, xs) && t.indent == s.indent && t.indents == s.indents
    ensures QueuedKinds(t.tokens) == QueuedKinds(s.tokens) + ks
  {
    hide Goes, Still, QueuedKinds, Chain, KeyBy;
    GoesTo(s, xs, t);
  }

  // ---------------------------------------------------------------- nodes outside brackets

  /** What a node outside brackets comes to: its tokens, but for the collections in it that are
      still open. */
  ghost predicate Comes(s: Scanner, u: Scanner, xs: seq<Lexeme>, ks: seq<Kind>, indent: int, inds: seq<int>,
      allowed: bool) {
    && Goes(s, xs, u) && Pending(u, indent, indent, inds, ks) && u.allowed == allowed
    && (if xs == [] then u == s else u.keys != [] && KeyBy(u, xs))
  }

  lemma {:induction false} PlainComes(s: Scanner, u: Scanner, xs: seq<Lexeme>, ks: seq<Kind>, allowed: bool)
    requires Plain(s, u, xs, ks) && -1 <= s.indent && u.allowed == allowed
    ensures Comes(s, u, xs, QueuedKinds(s.tokens) + ks, s.indent, s.indents, allowed)
  {
    hide Goes, QueuedKinds, KeyBy, Sound;
    PendingNow(u, s.indent);
  }

  /** A node in block context. */
  lemma {:induction false} NodeInBlock(t: Laid, s: Scanner, indent: int, indentless: bool) returns (u: Scanner)
    requires InBlock(t, indent, s.allowed, indentless) && Still(s) && s.indent == indent >= -1
    requires Chain(s.mark, Lexemes(t))
    ensures Comes(s, u, Lexemes(t), QueuedKinds(s.tokens) + NodeKinds(Erased(t)), indent, s.indents,
              OpenAfter(t, s.allowed))
    decreases t, 1
  {
    hide Goes, Still, QueuedKinds, Chain, KeyBy, Plain, Comes, LinesLexemes, EntriesKinds, ErasedLines, InFlow;
    match t
    case NoNode =>
      u := s;
      NothingPlain(s);
      NoNodeIs(t);
      PlainComes(s, s, [], [], s.allowed);
    case Sole(x) =>
      WordsKinds([], x);
      assert [x][0].start.column > indent;
      u := PlainWord(s, x);
      PlainComes(s, u, [x], [x.kind], x.reopens);
    case Words(props, x) =>
      u := WordsInBlock(props, x, s);
      WordsKinds(props, x);
      PlainComes(s, u, props + [x], LexemeKinds(props) + [x.kind], x.glyph.BlockText? || x.reopens);
    case Marked(props) =>
      WordsKinds(props, props[0]);
      u := PlainProps(props, s);
      PlainComes(s, u, props, LexemeKinds(props), false);
    case Flow(_, props, _, _, _, _) =>
      u := FlowInBlock(t, s);
      FlowHas(t);
      FlowIs(t);
      PlainComes(s, u, props + FlowLexemes(t), LexemeKinds(props) + FlowKinds(t), false);
    case Block(_, _, _) =>
      u := CollectionInBlock(t, s, indent, indentless);
  }

  lemma {:induction false} WordsInBlock(props: seq<Lexeme>, x: Lexeme, s: Scanner) returns (u: Scanner)
    requires AreProps(props) && (x.glyph.Word? || x.glyph.BlockText?) && Still(s)
    requires Chain(s.mark, props + [x]) && Indented(props + [x], s.indent)
    ensures Plain(s, u, props + [x], LexemeKinds(props) + [x.kind])
    ensures u.allowed == (x.glyph.BlockText? || x.reopens)
  {
    hide Goes, Still, QueuedKinds, Chain, KeyBy, Plain;
    ChainBoth(s.mark, props, [x]);
    IndentedParts(props, [x], s.indent);
    var t := PlainProps(props, s);
    PlainTo(s, t, props, LexemeKinds(props));
    if x.glyph.Word? {
      u := PlainWord(t, x);
    } else {
      u := PlainText(t, x);
    }
    PlainThen(s, t, props, LexemeKinds(props), u, [x], [x.kind]);
  }

  lemma {:induction false} IndentedParts(a: seq<Lexeme>, b: seq<Lexeme>, indent: int)
    requires Indented(a + b, indent)
    ensures Indented(a, indent) && Indented(b, indent)
    ensures b != [] ==> b[0].start.column > indent
  {
    forall i | 0 <= i < |a| ensures a[i].start.column > indent {
      assert (a + b)[i] == a[i];
    }
    forall i | 0 <= i < |b| ensures b[i].start.column > indent {
      assert (a + b)[|a| + i] == b[i];
    }
  }

  lemma {:induction false} FlowInBlock(t: Laid, s: Scanner) returns (u: Scanner)
    requires t.Flow? && InFlow(t) && Still(s) && Chain(s.mark, Lexemes(t))
    requires Indented(t.props + [t.start], s.indent)
    ensures Plain(s, u, t.props + FlowLexemes(t), LexemeKinds(t.props) + FlowKinds(t)) && !u.allowed
  {
    FlowHas(t);
    FlowIs(t);
    hide Goes, Still, QueuedKinds, Chain, KeyBy, Plain, InFlow, FlowLexemes, FlowKinds, Lexemes;
    FlowFirst(t);
    ChainBoth(s.mark, t.props, FlowLexemes(t));
    IndentedParts(t.props, [t.start], s.indent);
    var v := PlainProps(t.props, s);
    PlainTo(s, v, t.props, LexemeKinds(t.props));
    u := PlainGroup(t, v);
    PlainThen(s, v, t.props, LexemeKinds(t.props), u, FlowLexemes(t), FlowKinds(t));
  }

  lemma {:induction false} BlockHas(t: Laid, indent: int, open: bool, indentless: bool)
    requires t.Block? && InBlock(t, indent, open, indentless)
    ensures var c := ColumnOf(t.entries);
      && AreProps(t.props) && Indented(t.props, indent) && t.entries != [] && !IsFlow(t.form)
      && (if t.form.Indentless? then indentless && c == indent else c > indent)
    ensures LinesAt(t.form, t.entries, ColumnOf(t.entries), open && t.props == [])
  {
    hide LinesAt, ColumnOf;
  }

  lemma {:induction false} BlockIs(t: Laid)
    requires t.Block?
    ensures t.entries != [] ==> forall open :: OpenAfter(t, open) == OpenAfterLine(t.entries[|t.entries| - 1])
    ensures Lexemes(t) == t.props + LinesLexemes(t.entries)
    ensures NodeKinds(Erased(t)) ==
      LexemeKinds(t.props) + (Opening(t.form) + EntriesKinds(t.form, ErasedLines(t.entries)) + Closing(t.form))
  {
    hide LinesLexemes, EntriesKinds, ErasedLines, Opening, Closing;
    var p, o, e := LexemeKinds(t.props), Opening(t.form), EntriesKinds(t.form, ErasedLines(t.entries));
    assert Erased(t) == Group(t.form, p, ErasedLines(t.entries), false);
    assert p + o + e + [] + Closing(t.form) == p + (o + e + Closing(t.form));
  }

  /** A block collection. */
  lemma {:induction false} CollectionInBlock(t: Laid, s: Scanner, indent: int, indentless: bool) returns (u: Scanner)
    requires t.Block? && InBlock(t, indent, s.allowed, indentless) && Still(s) && s.indent == indent >= -1
    requires Chain(s.mark, Lexemes(t))
    ensures Comes(s, u, Lexemes(t), QueuedKinds(s.tokens) + NodeKinds(Erased(t)), indent, s.indents,
              OpenAfter(t, s.allowed))
    decreases t, 0
  {
    BlockHas(t, indent, s.allowed, indentless);
    BlockIs(t);
    hide Goes, Still, QueuedKinds, Chain, KeyBy, Plain, Comes, LinesLexemes, EntriesKinds, ErasedLines, LinesAt,
      Lexemes, NodeKinds, Erased, ColumnOf, Indented, AreProps, OpenAfterLine, OpenAfter, InBlock, Opening, Closing;
    var xs, ps := LinesLexemes(t.entries), LexemeKinds(t.props);
    var c, n := ColumnOf(t.entries), |t.entries|;
    ChainBoth(s.mark, t.props, xs);
    var v := PlainProps(t.props, s);
    PlainTo(s, v, t.props, ps);
    u := LinesInBlock(t.form, t.entries, v, c);
    var ks := Opening(t.form) + EntriesKinds(t.form, ErasedLines(t.entries));
    CollectionEnds(t.form, s, v, u, t.props, ps, xs, ks, indent, c, OpenAfterLine(t.entries[n - 1]));
  }

  /** Behind the last entry the collection is still open. */
  lemma {:induction false} CollectionEnds(form: Form, s: Scanner, v: Scanner, u: Scanner, props: seq<Lexeme>,
      ps: seq<Kind>, xs: seq<Lexeme>, ks: seq<Kind>, indent: int, c: int, allowed: bool)
    requires !IsFlow(form) && indent >= -1 && (if form.Indentless? then c == indent else c > indent)
    requires Plain(s, v, props, ps) && xs != [] && s.indent == indent
    requires Comes(v, u, xs, QueuedKinds(v.tokens) + ks, c,
      if form.Indentless? then v.indents else v.indents + [indent], allowed)
    ensures Comes(s, u, props + xs, QueuedKinds(s.tokens) + (ps + (ks + Closing(form))), indent, s.indents, allowed)
  {
    hide Goes, Still, QueuedKinds, Pending;
    GoesOn(s, props, v, xs, u);
    assert (props + xs)[|props + xs| - 1] == xs[|xs| - 1];
    var q := QueuedKinds(s.tokens);
    if form.Indentless? {
      assert q + ps + ks == q + (ps + (ks + []));
    } else {
      PendingEnds(u, c, indent, s.indents, q + ps + ks);
      assert q + ps + ks + [BlockEndT] == q + (ps + (ks + [BlockEndT]));
    }
  }

  function LevelsBehind(c: int, ind: int, inds: seq<int>): seq<int> {
    if ind < c then inds + [ind] else inds
  }

  /** The tokens of an entry, with that of the collection if it is the first. */
  function LineKinds(form: Form, e: Line, c: int, ind: int): seq<Kind> {
    (if ind < c then Opening(form) else []) + EntryKinds(form, ErasedLine(e))
  }

  lemma {:induction false} LineAt(form: Form, entries: seq<Line>, c: nat, open: bool, i: nat)
    requires LinesAt(form, entries, c, open) && i < |entries|
    ensures LineInBlock(form, entries[i], c, OpenBefore(entries, i, open))
  {
    hide OpenBefore;
  }

  lemma {:induction false} LinesAtFront(form: Form, entries: seq<Line>, c: nat, open: bool)
    requires LinesAt(form, entries, c, open) && entries != []
    ensures LinesAt(form, entries[..|entries| - 1], c, open)
  {
    hide OpenAfterLine;
    var front := entries[..|entries| - 1];
    forall i | 0 <= i < |front| ensures LineInBlock(form, front[i], c, OpenBefore(front, i, open)) {
      LineAt(form, entries, c, open, i);
      assert front[i] == entries[i] && OpenBefore(front, i, open) == OpenBefore(entries, i, open);
    }
  }

  /** Two stretches, the second of which goes on with the levels that are still to be closed. */
  lemma {:induction false} ComesThen(s: Scanner, t: Scanner, xs: seq<Lexeme>, ks: seq<Kind>, c: int, inds: seq<int>,
      open: bool, u: Scanner, ys: seq<Lexeme>, ls: seq<Kind>, allowed: bool)
    requires Comes(s, t, xs, ks, c, inds, open) && Comes(t, u, ys, ls, c, inds, allowed) && ys != []
    ensures Comes(s, u, xs + ys, ls, c, inds, allowed)
  {
    hide Goes, Pending;
    GoesOn(s, xs, t, ys, u);
    assert (xs + ys)[|xs + ys| - 1] == ys[|ys| - 1];
  }

  lemma {:induction false} ComesTo(s: Scanner, t: Scanner, xs: seq<Lexeme>, ks: seq<Kind>, c: int, inds: seq<int>,
      open: bool)
    requires Comes(s, t, xs, ks, c, inds, open) && Chain(s.mark, xs)
    ensures Pending(t, c, c, inds, ks) && t.mark == EndMark(s.mark, xs) && t.allowed == open
  {
    hide Goes, Pending, Chain;
    GoesTo(s, xs, t);
  }

  lemma {:induction false} BlockKindsSnoc(form: Form, front: seq<Entry>, e: Line, q: seq<Kind>, c: int, ind: int)
    requires !IsFlow(form) && (if front == [] then ind < c || form.Indentless? else ind >= c)
    ensures q + (Opening(form) + EntriesKinds(form, front + [ErasedLine(e)])) ==
      (if front == [] then q else q + (Opening(form) + EntriesKinds(form, front))) + LineKinds(form, e, c, ind)
  {
    hide EntryKinds, ErasedLine;
    var all := front + [ErasedLine(e)];
    assert all[..|front|] == front;
    var k := EntryKinds(form, ErasedLine(e));
    if front == [] {
      assert EntriesKinds(form, front) == [];
      assert [] + [] + k == k && [] + k == k;
    } else {
      var o, f := Opening(form), EntriesKinds(form, front);
      assert q + (o + (f + [] + k)) == q + (o + f) + ([] + k);
    }
  }

  /** The entries of a block collection at column `c`. */
  lemma {:induction false} LinesInBlock(form: Form, entries: seq<Line>, s: Scanner, c: int) returns (u: Scanner)
    requires Still(s) && -1 <= s.indent <= c && (form.Indentless? <==> s.indent == c) && !IsFlow(form) && entries != []
    requires c >= 0 && LinesAt(form, entries, c, s.allowed)
    requires Chain(s.mark, LinesLexemes(entries))
    ensures LinesLexemes(entries) != []
    ensures Comes(s, u, LinesLexemes(entries),
              QueuedKinds(s.tokens) + (Opening(form) + EntriesKinds(form, ErasedLines(entries))), c,
              if form.Indentless? then s.indents else s.indents + [s.indent], OpenAfterLine(entries[|entries| - 1]))
    decreases entries, 0
  {
    hide Goes, Still, QueuedKinds, Chain, Comes, Pending, EntriesKinds, LinesAt, LineLexemes, LineInBlock,
      OpenAfterLine, ErasedLine, LineKinds, Opening;
    var n := |entries| - 1;
    var front, e, q := entries[..n], entries[n], QueuedKinds(s.tokens);
    var xs, ys := LinesLexemes(front), LineLexemes(e);
    LinesAtFront(form, entries, c, s.allowed);
    LineAt(form, entries, c, s.allowed, n);
    ChainBoth(s.mark, xs, ys);
    BlockKindsSnoc(form, ErasedLines(front), e, q, c, if n == 0 then s.indent else c);
    if n == 0 {
      PendingNow(s, c);
      assert xs == [] && [] + ys == ys;
      u := LineBlock(form, e, s, c, s.indent, s.indents, q);
    } else {
      var inds := if form.Indentless? then s.indents else s.indents + [s.indent];
      var ks := q + (Opening(form) + EntriesKinds(form, ErasedLines(front)));
      var t := LinesInBlock(form, front, s, c);
      ComesTo(s, t, xs, ks, c, inds, OpenAfterLine(front[n - 1]));
      u := LineBlock(form, e, t, c, c, inds, ks);
      ComesThen(s, t, xs, ks, c, inds, OpenAfterLine(front[n - 1]), u, ys, ks + LineKinds(form, e, c, c),
        OpenAfterLine(e));
    }
  }

  /** An entry of a block collection at column `c`. */
  lemma {:induction false} LineBlock(form: Form, e: Line, s: Scanner, c: int, ind: int, inds: seq<int>, ks: seq<Kind>)
    returns (u: Scanner)
    requires Pending(s, c, ind, inds, ks) && c >= 0 && (form.Indentless? ==> ind == c) && !IsFlow(form)
    requires LineInBlock(form, e, c, s.allowed) && Chain(s.mark, LineLexemes(e))
    ensures LineLexemes(e) != []
    ensures Comes(s, u, LineLexemes(e), ks + LineKinds(form, e, c, ind), c, LevelsBehind(c, ind, inds),
      OpenAfterLine(e))
    decreases e, 4
  {
    hide Goes, QueuedKinds, Chain, Comes, Pending, LineKinds, InFlow, InBlock, Lexemes, Erased, NodeKinds, KeyFits,
      OneLine, OpenAfter;
    match e
    case OnItem(_, _) => u := ItemBlock(form, e, s, c, ind, inds, ks);
    case OnPair(_, _, _, _) => u := PairBlock(form, e, s, c, ind, inds, ks);
    case OnKey(_, _, _, _, _) => u := KeyBlock(form, e, s, c, ind, inds, ks);
  }

  /** A dash or a question mark begins an entry, and maybe the collection. */
  lemma {:induction false} SignBlock(s: Scanner, x: Lexeme, c: int, ind: int, inds: seq<int>, ks: seq<Kind>)
    returns (t: Scanner)
    requires Pending(s, c, ind, inds, ks) && c >= 0 && Chain(s.mark, [x]) && x.start.column == c
    requires (x.glyph.Dash? || x.glyph.Question?) && (s.allowed || x.newline)
    ensures Goes(s, [x], t) && Still(t) && t.indent == c && t.indents == LevelsBehind(c, ind, inds) && t.allowed
    ensures QueuedKinds(t.tokens) == ks
      + (if ind < c then [if x.glyph.Dash? then BlockSequenceStartT else BlockMappingStartT] else [])
      + [if x.glyph.Dash? then BlockEntryT else KeyT]
    ensures !TopKey(t).possible && t.mark == x.end
  {
    var a := ReachesPending(s, x, c, ind, inds, ks);
    PendingLow(s, c, ind, inds, ks);
    hide Goes, Sound, Reaches, QueuedKinds, Chain, Pending;
    SignGoes(s, x, a);
    var kind := if x.glyph.Dash? then BlockSequenceStartT else BlockMappingStartT;
    var r := Roll(a, c, |a.tokens|, kind, x.start);
    RollKinds(a, c, kind, x.start);
    var sign := if x.glyph.Dash? then BlockEntryT else KeyT;
    t := Append(Unkeyed(r).(allowed := true), sign, x);
    AppendKinds(Unkeyed(r).(allowed := true), sign, x);
    GoesTo(s, [x], t);
  }

  lemma {:induction false} PendingLow(s: Scanner, c: int, ind: int, inds: seq<int>, ks: seq<Kind>)
    requires Pending(s, c, ind, inds, ks)
    ensures ind <= c && Still(s)
  {
  }

  lemma {:induction false} RollKinds(a: Scanner, c: nat, kind: Kind, m: Mark)
    requires a.flow == 0 && a.indent <= c
    ensures var r := Roll(a, c, |a.tokens|, kind, m);
      && r == a.(tokens := r.tokens, indents := LevelsBehind(c, a.indent, a.indents), indent := c)
      && QueuedKinds(r.tokens) == QueuedKinds(a.tokens) + if a.indent < c then [kind] else []
  {
    hide QueuedKinds;
    if a.indent < c {
      assert a.tokens[..|a.tokens|] + [Queued(kind, m)] + a.tokens[|a.tokens|..] == a.tokens + [Queued(kind, m)];
      KindsBoth(a.tokens, [Queued(kind, m)]);
      KindOne(Queued(kind, m));
    } else {
      assert QueuedKinds(a.tokens) + [] == QueuedKinds(a.tokens);
    }
  }

  /** A node behind the start of its entry. */
  lemma {:induction false} ThenNode(s: Scanner, t: Scanner, xs: seq<Lexeme>, node: Laid, u: Scanner, c: int,
      inds: seq<int>, ks: seq<Kind>, allowed: bool)
    requires Goes(s, xs, t) && xs != [] && t.keys != [] && KeyBy(t, xs) && ks == QueuedKinds(t.tokens)
    requires Comes(t, u, Lexemes(node), ks + NodeKinds(Erased(node)), c, inds, allowed)
    ensures Comes(s, u, xs + Lexemes(node), ks + NodeKinds(Erased(node)), c, inds, allowed)
  {
    hide Goes, Pending, NodeKinds, Erased, Lexemes, QueuedKinds;
    var ys := Lexemes(node);
    GoesOn(s, xs, t, ys, u);
    if ys == [] {
      assert xs + ys == xs;
    } else {
      assert (xs + ys)[|xs + ys| - 1] == ys[|ys| - 1];
    }
  }

  lemma {:induction false} ItemBlock(form: Form, e: Line, s: Scanner, c: int, ind: int, inds: seq<int>, ks: seq<Kind>)
    returns (u: Scanner)
    requires Pending(s, c, ind, inds, ks) && c >= 0 && (form.Indentless? ==> ind == c) && !IsFlow(form)
    requires e.OnItem? && LineInBlock(form, e, c, s.allowed) && Chain(s.mark, LineLexemes(e))
    ensures LineLexemes(e) != []
    ensures Comes(s, u, LineLexemes(e), ks + LineKinds(form, e, c, ind), c, LevelsBehind(c, ind, inds),
      OpenAfterLine(e))
    decreases e, 0
  {
    hide Goes, Still, QueuedKinds, Chain, Comes, Pending, InBlock, Lexemes, Erased, NodeKinds, OpenAfter;
    var x, ys := e.lead[0], Lexemes(e.node);
    assert e.lead == [x];
    ChainBoth(s.mark, [x], ys);
    var t := SignBlock(s, x, c, ind, inds, ks);
    StillKeys(t);
    u := NodeInBlock(e.node, t, c, false);
    ThenNode(s, t, [x], e.node, u, c, t.indents, QueuedKinds(t.tokens), OpenAfter(e.node, true));
    var o := if ind < c then Opening(form) else [];
    var k := NodeKinds(Erased(e.node));
    assert ks + o + [BlockEntryT] + k == ks + (o + ([BlockEntryT] + k));
  }

  lemma {:induction false} StillKeys(t: Scanner)
    requires Still(t)
    ensures t.keys != []
  {
  }

  // A simple key.

  lemma {:induction false} ChainOrder(m: Mark, xs: seq<Lexeme>, i: nat)
    requires Chain(m, xs) && 0 < i < |xs|
    ensures Before(xs[0].start, xs[i].start)
    decreases |xs|
  {
    var ys := xs[1..];
    assert ys[0] == xs[1];
    if i > 1 {
      ChainOrder(xs[0].end, ys, i - 1);
    }
  }

  /** All of a key that fits is on the line it begins on. */
  lemma {:induction false} KeyOnLine(m: Mark, xs: seq<Lexeme>, x: Lexeme, i: nat)
    requires KeyFits(xs, x) && Chain(m, xs + [x]) && 0 < i <= |xs|
    ensures (xs + [x])[i].start.column > xs[0].start.column
  {
    hide Chain;
    var zs := xs + [x];
    assert zs[0] == xs[0];
    ChainOrder(m, zs, i);
    ChainUpto(m, zs, i);
  }

  lemma {:induction false} KeySteady(s: Scanner, a: Scanner, xs: seq<Lexeme>, x: Lexeme)
    requires xs != [] && Reaches(s, xs[0], a) && a.flow == 0 && a.indent <= xs[0].start.column
    requires KeyFits(xs, x) && OneLine(xs) && Chain(s.mark, xs + [x])
    ensures Steady(a, xs) && x.start.column > xs[0].start.column
  {
    hide Reaches, Chain, KeyFits;
    KeyNotEmpty(xs, x);
    KeyOnLine(s.mark, xs, x, |xs|);
    forall i | 0 < i < |xs| ensures !xs[i].newline && a.indent <= xs[i].start.column {
      KeyOnLine(s.mark, xs, x, i);
      assert (xs + [x])[i] == xs[i];
    }
  }

  lemma {:induction false} KeyNotEmpty(xs: seq<Lexeme>, x: Lexeme)
    requires KeyFits(xs, x)
    ensures xs != []
  {
  }

  /** The key that a fitting ':' is for has not gone stale before it. */
  lemma {:induction false} KeyCalm(s: Scanner, a: Scanner, xs: seq<Lexeme>, x: Lexeme, m: Mark)
    requires xs != [] && |a.keys| == 1 && !Held(a) && a.mark == xs[0].start && a.allowed
    requires KeyFits(xs, x) && Upto(m, x.start)
    ensures Calm(WithTop(a, NewTop(a)).keys, m)
  {
  }

  lemma {:induction false} KeyDue(s: Scanner, a: Scanner, xs: seq<Lexeme>, x: Lexeme)
    requires xs != [] && Reaches(s, xs[0], a) && a.flow == 0 && a.handed == [] && |a.keys| == 1 && !Held(a) && a.allowed
    requires KeyFits(xs, x) && Chain(s.mark, xs + [x])
    ensures Due(s, a, xs) && Calm(WithTop(a, NewTop(a)).keys, x.start)
  {
    hide Sound, Chain, KeyFits, Calm, Approach, Next;
    ChainBoth(s.mark, xs, [x]);
    ChainUpto(s.mark, xs + [x], |xs| - 1);
    assert (xs + [x])[|xs| - 1] == xs[|xs| - 1];
    KeyCalm(s, a, xs, x, xs[|xs| - 1].start);
    KeyCalm(s, a, xs, x, x.start);
  }

  /** Where a simple key begins. */
  lemma {:induction false} KeyedStarts(xs: seq<Lexeme>, x: Lexeme, s: Scanner, c: int, ind: int, inds: seq<int>,
      ks: seq<Kind>) returns (a: Scanner)
    requires Pending(s, c, ind, inds, ks) && c >= 0 && xs != [] && xs[0].start.column == c
    requires KeyFits(xs, x) && OneLine(xs) && Chain(s.mark, xs + [x]) && (s.allowed || xs[0].newline)
    ensures Reaches(s, xs[0], a) && a.flow == 0 && a.handed == [] && |a.keys| == 1 && !Held(a) && a.allowed
    ensures QueuedKinds(a.tokens) == ks && a.indents == inds && a.indent == ind <= c
    ensures Due(s, a, xs) && Steady(a, xs) && Calm(WithTop(a, NewTop(a)).keys, x.start) && x.start.column > c
  {
    hide Reaches, QueuedKinds, Chain, Pending, Due, Steady, KeyFits, OneLine, Calm;
    PendingLow(s, c, ind, inds, ks);
    var rest := xs[1..] + [x];
    assert xs + [x] == [xs[0]] + rest;
    ChainBoth(s.mark, [xs[0]], rest);
    a := ReachesPending(s, xs[0], c, ind, inds, ks);
    KeySteady(s, a, xs, x);
    KeyDue(s, a, xs, x);
  }

  /** A simple key and its ':'. */
  lemma {:induction false} KeyedBlock(key: Laid, x: Lexeme, s: Scanner, c: int, ind: int, inds: seq<int>,
      ks: seq<Kind>) returns (u: Scanner)
    requires Pending(s, c, ind, inds, ks) && c >= 0 && InFlow(key)
    requires Lexemes(key) != [] && Lexemes(key)[0].start.column == c
    requires KeyFits(Lexemes(key), x) && OneLine(Lexemes(key)) && Chain(s.mark, Lexemes(key) + [x])
    requires s.allowed || Lexemes(key)[0].newline
    ensures Goes(s, Lexemes(key) + [x], u) && Still(u) && u.indent == c && u.indents == LevelsBehind(c, ind, inds)
    ensures !u.allowed && u.keys != [] && !TopKey(u).possible && u.mark == x.end
    ensures QueuedKinds(u.tokens) == ks + (if ind < c then [BlockMappingStartT] else [])
      + ([KeyT] + NodeKinds(Erased(key)) + [ValueT])
  {
    hide Goes, Still, Reaches, QueuedKinds, Chain, Pending, Due, Done, Steady, KeyFits, OneLine, Lexemes, NodeKinds,
      Erased, InFlow, Calm, NewTop, Held, OpenAfter;
    var xs, k := Lexemes(key), NodeKinds(Erased(key));
    var a := KeyedStarts(xs, x, s, c, ind, inds, ks);
    var t := NodeUnit(key, s, a);
    u := KeyedEnds(s, a, t, xs, k, OpenAfter(key, false), x, c);
    StillKeys(u);
    var b := if ind < c then [BlockMappingStartT] else [];
    assert ks + (b + [KeyT]) + k + [ValueT] == ks + b + ([KeyT] + k + [ValueT]);
  }

  lemma {:induction false} KeyedEnds(s: Scanner, a: Scanner, t: Scanner, xs: seq<Lexeme>, k: seq<Kind>, allowed: bool,
      x: Lexeme, c: int) returns (u: Scanner)
    requires xs != [] && Reaches(s, xs[0], a) && a.flow == 0 && a.handed == [] && |a.keys| == 1 && !Held(a) && a.allowed
    requires Done(s, a, t, xs, k, allowed) && KeyFits(xs, x) && Chain(s.mark, xs + [x])
    requires Calm(WithTop(a, NewTop(a)).keys, x.start) && xs[0].start.column == c >= a.indent && x.start.column > c
    ensures Goes(s, xs + [x], u) && Still(u) && u.indent == c && u.indents == LevelsBehind(c, a.indent, a.indents)
    ensures !u.allowed && !TopKey(u).possible && u.mark == x.end
    ensures QueuedKinds(u.tokens) == QueuedKinds(a.tokens)
      + ((if a.indent < c then [BlockMappingStartT] else []) + [KeyT]) + k + [ValueT]
  {
    hide Goes, Sound, QueuedKinds, Chain, KeyFits, Calm, Approach, Next, Aged;
    KeyStillPossible(s.mark, a, t, xs, k, allowed, x);
    UnitTopCalm(s.mark, a, t, xs, k, allowed, x);
    ChainBoth(s.mark, xs, [x]);
    GoesTo(s, xs, t);
    var b := ColonHere(t, x);
    assert TopKey(b) == NewTop(a);
    ColonIs(xs, x);
    KeyedGoes(t, x, b);
    KeyedKinds(b, x, QueuedKinds(a.tokens), k);
    u := FetchKeyed(b, x);
    GoesOn(s, xs, t, [x], u);
    GoesTo(s, xs + [x], u);
    assert [BlockMappingStartT] + [KeyT] == [BlockMappingStartT, KeyT] && [] + [KeyT] == [KeyT];
  }

  lemma {:induction false} PairIs(form: Form, e: Line)
    requires e.OnPair? && e.lead == []
    ensures LineLexemes(e) == Lexemes(e.key) + [e.colon] + Lexemes(e.value)
    ensures EntryKinds(form, ErasedLine(e)) ==
      [KeyT] + NodeKinds(Erased(e.key)) + [ValueT] + NodeKinds(Erased(e.value))
  {
    assert [] + Lexemes(e.key) == Lexemes(e.key);
  }

  lemma {:induction false} PairHas(form: Form, e: Line, c: nat, open: bool)
    requires e.OnPair? && LineInBlock(form, e, c, open)
    ensures form == BlockMapping && e.lead == [] && InFlow(e.key) && InBlock(e.value, c, false, true)
    ensures var xs := Lexemes(e.key);
      KeyFits(xs, e.colon) && OneLine(xs) && xs != [] && xs[0].start.column == c && (open || xs[0].newline)
  {
    hide InFlow, InBlock;
  }

  lemma {:induction false} PairKinds(form: Form, e: Line, c: int, ind: int, ks: seq<Kind>)
    requires e.OnPair? && form == BlockMapping && e.lead == []
    ensures ks + (if ind < c then [BlockMappingStartT] else []) + ([KeyT] + NodeKinds(Erased(e.key)) + [ValueT])
      + NodeKinds(Erased(e.value)) == ks + LineKinds(form, e, c, ind)
    ensures OpenAfterLine(e) == OpenAfter(e.value, false)
  {
    hide NodeKinds, Erased, EntryKinds, ErasedLine, OpenAfter;
    PairIs(form, e);
    var o := if ind < c then [BlockMappingStartT] else [];
    var k, v := NodeKinds(Erased(e.key)), NodeKinds(Erased(e.value));
    assert ks + o + ([KeyT] + k + [ValueT]) + v == ks + (o + ([KeyT] + k + [ValueT] + v));
  }

  lemma {:induction false} NoKeyBy(t: Scanner, xs: seq<Lexeme>)
    requires xs != [] && t.keys != [] && !TopKey(t).possible
    ensures KeyBy(t, xs)
  {
  }

  lemma {:induction false} PairBlock(form: Form, e: Line, s: Scanner, c: int, ind: int, inds: seq<int>, ks: seq<Kind>)
    returns (u: Scanner)
    requires Pending(s, c, ind, inds, ks) && c >= 0 && (form.Indentless? ==> ind == c) && !IsFlow(form)
    requires e.OnPair? && LineInBlock(form, e, c, s.allowed) && Chain(s.mark, LineLexemes(e))
    ensures LineLexemes(e) != []
    ensures Comes(s, u, LineLexemes(e), ks + LineKinds(form, e, c, ind), c, LevelsBehind(c, ind, inds),
      OpenAfterLine(e))
    decreases e, 0
  {
    hide Goes, Still, QueuedKinds, Chain, Comes, Pending, InBlock, InFlow, Lexemes, Erased, NodeKinds, OpenAfter,
      LineInBlock, LineLexemes, EntryKinds, ErasedLine, KeyFits, OneLine, KeyBy;
    PairHas(form, e, c, s.allowed);
    PairIs(form, e);
    var xs, ys := Lexemes(e.key) + [e.colon], Lexemes(e.value);
    ChainBoth(s.mark, xs, ys);
    var t := KeyedBlock(e.key, e.colon, s, c, ind, inds, ks);
    NoKeyBy(t, xs);
    u := NodeInBlock(e.value, t, c, true);
    ThenNode(s, t, xs, e.value, u, c, t.indents, QueuedKinds(t.tokens), OpenAfter(e.value, false));
    PairKinds(form, e, c, ind, ks);
  }

  // A key behind a question mark.

  lemma {:induction false} KeyLineIs(form: Form, e: Line)
    requires e.OnKey? && e.lead == []
    ensures LineLexemes(e) == [e.question] + Lexemes(e.key) + (e.colons + Lexemes(e.value))
    ensures EntryKinds(form, ErasedLine(e)) == [KeyT] + NodeKinds(Erased(e.key))
      + if e.colons == [] then [] else [ValueT] + NodeKinds(Erased(e.value))
  {
    KeyIs(form, e);
    LineIs(e);
    hide LineLexemes, EntryKinds, ErasedLine, BodyLexemes;
    assert [] + BodyLexemes(e) == BodyLexemes(e);
  }

  lemma {:induction false} KeyLineHas(form: Form, e: Line, c: nat, open: bool)
    requires e.OnKey? && LineInBlock(form, e, c, open)
    ensures form == BlockMapping && e.lead == [] && e.question.glyph.Question? && e.question.start.column == c
    ensures (open || e.question.newline) && InBlock(e.key, c, true, true)
    ensures if e.colons == [] then e.value.NoNode?
      else
        && e.colons == [e.colons[0]] && e.colons[0].glyph.Colon? && e.colons[0].start.column == c
        && (OpenAfter(e.key, true) || e.colons[0].newline) && LaterLine(Lexemes(e.key), e.colons[0])
        && InBlock(e.value, c, true, true)
    ensures OpenAfterLine(e) == if e.colons == [] then OpenAfter(e.key, true) else OpenAfter(e.value, true)
  {
    hide InBlock, OpenAfter;
  }

  /** The ':' behind such a key, on a later line. */
  lemma {:induction false} ColonBlock(s: Scanner, x: Lexeme, c: int, inds: seq<int>, ks: seq<Kind>) returns (t: Scanner)
    requires Pending(s, c, c, inds, ks) && c >= 0 && Chain(s.mark, [x]) && x.start.column == c && x.glyph.Colon?
    requires (s.allowed || x.newline) && s.keys != []
    requires TopKey(s).possible ==> TopKey(s).mark.line < x.start.line
    ensures Goes(s, [x], t) && Still(t) && t.indent == c && t.indents == inds && t.allowed
    ensures QueuedKinds(t.tokens) == ks + [ValueT]
    ensures !TopKey(t).possible && t.mark == x.end
  {
    var a := ReachesPending(s, x, c, c, inds, ks);
    hide Goes, Sound, Reaches, QueuedKinds, Chain, Pending;
    UnkeyedGoes(s, x, a);
    t := Append(a.(allowed := true), ValueT, x);
    AppendKinds(a.(allowed := true), ValueT, x);
    GoesTo(s, [x], t);
  }

  lemma {:induction false} KeyKinds(form: Form, e: Line, c: int, ind: int, ks: seq<Kind>)
    requires e.OnKey? && form == BlockMapping && e.lead == []
    ensures var k := ks + (if ind < c then [BlockMappingStartT] else []) + [KeyT] + NodeKinds(Erased(e.key));
      ks + LineKinds(form, e, c, ind) == if e.colons == [] then k else k + ([ValueT] + NodeKinds(Erased(e.value)))
  {
    hide NodeKinds, Erased, EntryKinds, ErasedLine;
    KeyLineIs(form, e);
    var o := if ind < c then [BlockMappingStartT] else [];
    var k, w := NodeKinds(Erased(e.key)), if e.colons == [] then [] else [ValueT] + NodeKinds(Erased(e.value));
    assert ks + o + [KeyT] + k + w == ks + (o + ([KeyT] + k + w));
  }

  lemma {:induction false} KeyBlock(form: Form, e: Line, s: Scanner, c: int, ind: int, inds: seq<int>, ks: seq<Kind>)
    returns (u: Scanner)
    requires Pending(s, c, ind, inds, ks) && c >= 0 && (form.Indentless? ==> ind == c) && !IsFlow(form)
    requires e.OnKey? && LineInBlock(form, e, c, s.allowed) && Chain(s.mark, LineLexemes(e))
    ensures LineLexemes(e) != []
    ensures Comes(s, u, LineLexemes(e), ks + LineKinds(form, e, c, ind), c, LevelsBehind(c, ind, inds),
      OpenAfterLine(e))
    decreases e, 1
  {
    hide Goes, Still, QueuedKinds, Chain, Comes, Pending, InBlock, Lexemes, Erased, NodeKinds, OpenAfter, LineInBlock,
      LineLexemes, EntryKinds, ErasedLine, OpenAfterLine, KeyBy, LaterLine, LineKinds;
    KeyLineHas(form, e, c, s.allowed);
    KeyLineIs(form, e);
    var q, xs, ys := e.question, Lexemes(e.key), e.colons + Lexemes(e.value);
    ChainBoth(s.mark, [q] + xs, ys);
    ChainBoth(s.mark, [q], xs);
    var t := SignBlock(s, q, c, ind, inds, ks);
    StillKeys(t);
    NoKeyBy(t, [q]);
    var v := NodeInBlock(e.key, t, c, true);
    var k, levels := QueuedKinds(t.tokens) + NodeKinds(Erased(e.key)), LevelsBehind(c, ind, inds);
    ThenNode(s, t, [q], e.key, v, c, levels, QueuedKinds(t.tokens), OpenAfter(e.key, true));
    KeyKinds(form, e, c, ind, ks);
    if e.colons == [] {
      NoNodeIs(e.value);
      assert ys == [] && [q] + xs + ys == [q] + xs;
      u := v;
    } else {
      ComesTo(s, v, [q] + xs, k, c, levels, OpenAfter(e.key, true));
      KeyOld(t, v, xs, k, c, levels, OpenAfter(e.key, true), e.colons[0]);
      u := AnswerBlock(e, s, v, [q] + xs, k, c, levels);
    }
  }

  /** What may have been a key in the key is stale on a later line. */
  lemma {:induction false} KeyOld(t: Scanner, v: Scanner, xs: seq<Lexeme>, ks: seq<Kind>, c: int, inds: seq<int>,
      open: bool, x: Lexeme)
    requires Comes(t, v, xs, ks, c, inds, open) && t.keys != [] && !TopKey(t).possible && LaterLine(xs, x)
    ensures v.keys != [] && (TopKey(v).possible ==> TopKey(v).mark.line < x.start.line)
  {
    hide Goes, Pending;
  }

  /** The value of such a key. */
  lemma {:induction false} AnswerBlock(e: Line, s: Scanner, v: Scanner, xs: seq<Lexeme>, ks: seq<Kind>, c: int,
      inds: seq<int>) returns (u: Scanner)
    requires e.OnKey? && e.colons != [] && e.colons == [e.colons[0]] && c >= 0
    requires Comes(s, v, xs, ks, c, inds, v.allowed) && xs != []
    requires var x := e.colons[0];
      && x.glyph.Colon? && x.start.column == c && (v.allowed || x.newline) && InBlock(e.value, c, true, true)
      && v.keys != [] && (TopKey(v).possible ==> TopKey(v).mark.line < x.start.line)
    requires Chain(v.mark, e.colons + Lexemes(e.value))
    ensures Comes(s, u, xs + (e.colons + Lexemes(e.value)), ks + ([ValueT] + NodeKinds(Erased(e.value))), c, inds,
              OpenAfter(e.value, true))
    decreases e, 0
  {
    hide Goes, Still, QueuedKinds, Chain, Pending, InBlock, Lexemes, Erased, NodeKinds, OpenAfter, Comes, KeyBy;
    var x, ys, w := e.colons[0], Lexemes(e.value), NodeKinds(Erased(e.value));
    ChainBoth(v.mark, [x], ys);
    ComesParts(s, v, xs, ks, c, inds);
    var t := ColonBlock(v, x, c, inds, ks);
    StillKeys(t);
    NoKeyBy(t, xs + [x]);
    GoesOn(s, xs, v, [x], t);
    u := NodeInBlock(e.value, t, c, true);
    ThenNode(s, t, xs + [x], e.value, u, c, inds, QueuedKinds(t.tokens), OpenAfter(e.value, true));
    assert xs + [x] + ys == xs + ([x] + ys) && ks + [ValueT] + w == ks + ([ValueT] + w);
  }

  lemma {:induction false} ComesParts(s: Scanner, v: Scanner, xs: seq<Lexeme>, ks: seq<Kind>, c: int, inds: seq<int>)
    requires Comes(s, v, xs, ks, c, inds, v.allowed)
    ensures Goes(s, xs, v) && Pending(v, c, c, inds, ks)
  {
    hide Goes, Pending;
  }

  // ---------------------------------------------------------------- documents

  /** Between documents: once everything is closed, the tokens are `ks`. */
  ghost predicate Clear(s: Scanner, ks: seq<Kind>) {
    Pending(s, -1, -1, [], ks)
  }

  /** A directive, a '---' or a '...' closes everything. */
  lemma {:induction false} MarkGoes(s: Scanner, x: Lexeme, ks: seq<Kind>) returns (t: Scanner)
    requires Clear(s, ks) && Chain(s.mark, [x]) && (x.glyph.DirectiveLine? || x.glyph.DocumentMark?)
    ensures Goes(s, [x], t) && Still(t) && t.indent == -1 && t.indents == [] && !t.allowed && t.mark == x.end
    ensures QueuedKinds(t.tokens) == ks + [x.kind]
  {
    var a := ReachesClear(s, x, ks);
    var u := UnrollLevels(a, -1);
    UnrollTouches(a, -1);
    var b := Unkeyed(u).(allowed := false);
    t := Append(b, x.kind, x);
    hide Goes, Sound, Approach, Next, QueuedKinds, Chain, UnrollLevels;
    DispatchGoes(s, x, a, t);
    AppendKinds(b, x.kind, x);
    GoesTo(s, [x], t);
  }

  lemma {:induction false} UnrollTouches(s: Scanner, c: int)
    ensures var u := UnrollLevels(s, c); u == s.(tokens := u.tokens, indents := u.indents, indent := u.indent)
  {
  }

  /** The approach to any lexeme, when all that is open will be closed. */
  lemma {:induction false} ReachesClear(s: Scanner, x: Lexeme, ks: seq<Kind>) returns (a: Scanner)
    requires Clear(s, ks) && Chain(s.mark, [x])
    ensures Reaches(s, x, a) && a.flow == 0 && a.handed == [] && |a.keys| == 1 && !Held(a)
    ensures var u := UnrollLevels(a, -1); QueuedKinds(u.tokens) == ks && u.indents == [] && u.indent == -1
  {
    hide Sound, QueuedKinds, Next, UnrollLevels;
    NextIn(s.mark, [x]);
    a := ApproachClear(s, x, ks);
    KeyedNow(a);
    HasLevels(a);
  }

  lemma {:induction false} ApproachClear(s: Scanner, x: Lexeme, ks: seq<Kind>) returns (a: Scanner)
    requires Clear(s, ks) && Next(s, x)
    ensures Approach(s, x) == Some(a) && Sound(a) && a.mark == x.start
    ensures a.flow == 0 && a.handed == [] && |a.keys| == 1 && !Held(a)
    ensures var u := UnrollLevels(a, -1); QueuedKinds(u.tokens) == ks && u.indents == [] && u.indent == -1
  {
    hide Sound, QueuedKinds, Next, UnrollLevels;
    StaleCalm(s.keys, x.start);
    ApproachKeeps(s, x);
    a := Approach(s, x).value;
    var t := s.(mark := x.start, keys := AgedAll(s.keys, x.start), allowed := s.allowed || (x.newline && s.flow == 0));
    assert a == UnrollLevels(t, x.start.column);
    UnrollTwice(t, x.start.column, -1);
    UnrollAlike(t, s, -1);
    UnrollTouches(t, x.start.column);
  }

  lemma {:induction false} ClearNow(s: Scanner)
    requires Still(s) && s.indent == -1 && s.indents == []
    ensures Clear(s, QueuedKinds(s.tokens))
  {
    PendingNow(s, -1);
  }

  /** Directives and document marks. */
  lemma {:induction false} MarksGo(xs: seq<Lexeme>, s: Scanner, ks: seq<Kind>) returns (t: Scanner)
    requires Clear(s, ks) && Chain(s.mark, xs) && MarksOnly(xs)
    ensures Goes(s, xs, t) && Clear(t, ks + LexemeKinds(xs)) && t.mark == EndMark(s.mark, xs)
    ensures xs == [] ==> t == s
    ensures xs != [] ==> Still(t) && t.indent == -1 && t.indents == [] && !t.allowed
    decreases |xs|
  {
    hide Goes, Sound, Chain, QueuedKinds, Pending, Still;
    if xs == [] {
      t := s;
      ClearSound(s, ks);
      assert ks + LexemeKinds(xs) == ks;
    } else {
      var n := |xs| - 1;
      var front, x := xs[..n], xs[n];
      assert xs == front + [x] && LexemeKinds(xs) == LexemeKinds(front) + [x.kind];
      ChainBoth(s.mark, front, [x]);
      var t1 := MarksGo(front, s, ks);
      t := MarkGoes(t1, x, ks + LexemeKinds(front));
      GoesOn(s, front, t1, [x], t);
      ClearNow(t);
      assert ks + LexemeKinds(front) + [x.kind] == ks + LexemeKinds(xs);
    }
  }

  lemma {:induction false} ClearSound(s: Scanner, ks: seq<Kind>)
    requires Clear(s, ks)
    ensures Sound(s) && Goes(s, [], s)
  {
  }

  lemma {:induction false} RootGoes(root: Laid, s: Scanner) returns (u: Scanner)
    requires InBlock(root, -1, s.allowed, false) && Still(s) && s.indent == -1 && s.indents == []
    requires Chain(s.mark, Lexemes(root))
    ensures Goes(s, Lexemes(root), u) && Clear(u, QueuedKinds(s.tokens) + NodeKinds(Erased(root)))
    ensures u.mark == EndMark(s.mark, Lexemes(root))
  {
    hide Goes, Still, QueuedKinds, Chain, Pending, Lexemes, Erased, NodeKinds, InBlock, OpenAfter, KeyBy;
    u := NodeInBlock(root, s, -1, false);
    GoesTo(s, Lexemes(root), u);
  }

  lemma {:induction false} PageIs(d: Page)
    requires d.start == [] ==> d.heads == []
    requires AllMarks(d.ends, DocumentEndT) && AllMarks(d.start, DocumentStartT) && |d.start| <= 1
    ensures PageLexemes(d) == (d.heads + d.start) + (Lexemes(d.root) + d.ends)
    ensures WrittenKinds(ErasedPage(d)) ==
      LexemeKinds(d.heads + d.start) + (NodeKinds(Erased(d.root)) + LexemeKinds(d.ends))
  {
    hide Lexemes, NodeKinds, Erased;
    var h, r, e := d.heads + d.start, Lexemes(d.root), d.ends;
    assert h + r + e == h + (r + e);
    TimesKinds(d.ends);
    assert LexemeKinds(h) == if d.start == [] then [] else LexemeKinds(d.heads) + [DocumentStartT];
    var hk, rk, ek := LexemeKinds(h), NodeKinds(Erased(d.root)), LexemeKinds(d.ends);
    assert hk + rk + ek == hk + (rk + ek);
  }

  lemma {:induction false} TimesKinds(xs: seq<Lexeme>)
    requires AllMarks(xs, DocumentEndT)
    ensures LexemeKinds(xs) == Times(|xs|, DocumentEndT)
    decreases |xs|
  {
    if xs != [] {
      TimesKinds(xs[1..]);
      assert LexemeKinds(xs) == [DocumentEndT] + LexemeKinds(xs[1..]);
    }
  }

  /** Where a document may begin: between documents, or at the beginning of the text. */
  ghost predicate Starts(s: Scanner, first: bool, ks: seq<Kind>) {
    Clear(s, ks) && (first ==> AtStart(s) && ks == QueuedKinds(s.tokens))
  }

  ghost predicate AtStart(s: Scanner) {
    Still(s) && s.indent == -1 && s.indents == [] && s.allowed
  }

  lemma {:induction false} PageParts(d: Page, first: bool)
    requires OnPage(d, first)
    ensures AllMarks(d.ends, DocumentEndT) && AllMarks(d.start, DocumentStartT) && |d.start| <= 1
    ensures d.start == [] ==> d.heads == [] && first
    ensures InBlock(d.root, -1, d.start == [], false)
  {
    hide InBlock, AllMarks;
  }

  /** The lexemes before and behind the root. */
  predicate MarksOnly(xs: seq<Lexeme>) {
    forall i :: 0 <= i < |xs| ==> xs[i].glyph.DirectiveLine? || xs[i].glyph.DocumentMark?
  }

  lemma {:induction false} PageMarks(d: Page, first: bool)
    requires OnPage(d, first)
    ensures MarksOnly(d.heads + d.start) && MarksOnly(d.ends)
  {
    hide InBlock;
  }

  /** Behind a document's marks its root may begin. */
  lemma {:induction false} RootDue(s: Scanner, t: Scanner, h: seq<Lexeme>, ks: seq<Kind>, first: bool)
    requires Starts(s, first, ks) && Clear(t, ks + LexemeKinds(h)) && (h == [] ==> t == s && first)
    requires h != [] ==> Still(t) && t.indent == -1 && t.indents == [] && !t.allowed
    ensures Still(t) && t.indent == -1 && t.indents == [] && t.allowed == (h == [])
    ensures QueuedKinds(t.tokens) == ks + LexemeKinds(h)
  {
    hide Still;
    PendingNow(t, -1);
  }

  /** A whole document. */
  lemma {:induction false} PageGoes(d: Page, first: bool, s: Scanner, ks: seq<Kind>) returns (u: Scanner)
    requires OnPage(d, first) && Starts(s, first, ks) && Chain(s.mark, PageLexemes(d))
    ensures Goes(s, PageLexemes(d), u) && Clear(u, ks + WrittenKinds(ErasedPage(d)))
    ensures u.mark == EndMark(s.mark, PageLexemes(d))
  {
    PageParts(d, first);
    PageMarks(d, first);
    PageIs(d);
    hide Goes, Still, QueuedKinds, Chain, Clear, Lexemes, Erased, NodeKinds, InBlock, WrittenKinds, PageLexemes,
      ErasedPage, OnPage, MarksOnly, AllMarks, LexemeKinds, EndMark;
    var h, r, e := d.heads + d.start, Lexemes(d.root), d.ends;
    var k := NodeKinds(Erased(d.root));
    ChainBoth(s.mark, h, r + e);
    ChainBoth(EndMark(s.mark, h), r, e);
    var t := MarksGo(h, s, ks);
    RootDue(s, t, h, ks, first);
    var v := RootGoes(d.root, t);
    u := MarksGo(e, v, ks + LexemeKinds(h) + k);
    GoesOn(t, r, v, e, u);
    GoesOn(s, h, t, r + e, u);
    GoesTo(s, h + (r + e), u);
    AppendFour(ks, LexemeKinds(h), k, LexemeKinds(e));
  }

  lemma {:induction false} AppendFour(a: seq<Kind>, b: seq<Kind>, c: seq<Kind>, d: seq<Kind>)
    ensures a + b + c + d == a + (b + (c + d))
  {
  }

  lemma {:induction false} PagesGo(docs: seq<Page>, s: Scanner, ks: seq<Kind>) returns (u: Scanner)
    requires OnPages(docs) && Starts(s, true, ks) && Chain(s.mark, PagesLexemes(docs))
    ensures Goes(s, PagesLexemes(docs), u) && Clear(u, ks + AllKinds(ErasedPages(docs)))
    ensures u.mark == EndMark(s.mark, PagesLexemes(docs))
    decreases |docs|
  {
    hide Goes, Still, QueuedKinds, Chain, Clear, PageLexemes, WrittenKinds, ErasedPage, OnPage;
    if docs == [] {
      u := s;
      ClearSound(s, ks);
      assert ks + [] == ks;
    } else {
      var n := |docs| - 1;
      var front, d := docs[..n], docs[n];
      var xs, ys := PagesLexemes(front), PageLexemes(d);
      ChainBoth(s.mark, xs, ys);
      PagesKinds(front, d);
      assert docs == front + [d];
      var t := PagesGo(front, s, ks);
      if n == 0 {
        assert xs == [] && AllKinds(ErasedPages(front)) == [];
        GoesNowhere(s, t);
        assert ks + [] == ks;
      }
      u := PageGoes(d, n == 0, t, ks + AllKinds(ErasedPages(front)));
      GoesOn(s, xs, t, ys, u);
      GoesTo(s, xs + ys, u);
      assert ks + AllKinds(ErasedPages(front)) + WrittenKinds(ErasedPage(d))
        == ks + (AllKinds(ErasedPages(front)) + WrittenKinds(ErasedPage(d)));
    }
  }

  lemma {:induction false} GoesNowhere(s: Scanner, t: Scanner)
    requires Goes(s, [], t)
    ensures t == s
  {
  }

  lemma {:induction false} PagesKinds(front: seq<Page>, d: Page)
    ensures AllKinds(ErasedPages(front + [d])) == AllKinds(ErasedPages(front)) + WrittenKinds(ErasedPage(d))
    ensures PagesLexemes(front + [d]) == PagesLexemes(front) + PageLexemes(d)
  {
    hide WrittenKinds, PageLexemes, ErasedPage;
    assert (front + [d])[..|front|] == front;
    assert (ErasedPages(front) + [ErasedPage(d)])[..|ErasedPages(front)|] == ErasedPages(front);
  }

  lemma {:induction false} EndFetched(a: Scanner, x: Lexeme, ks: seq<Kind>) returns (t: Scanner)
    requires a.flow == 0 && |a.keys| == 1 && !Held(a) && QueuedKinds(UnrollLevels(a, -1).tokens) == ks
    ensures FetchEnd(a, x) == Some(t) && QueuedKinds(t.tokens) == ks + [StreamEndT]
    ensures |t.keys| == 1 && !t.keys[0].possible
  {
    hide QueuedKinds, UnrollLevels;
    var m := if a.mark.column != 0 then Mark(a.mark.index, a.mark.line + 1, 0) else a.mark;
    var b := UnrollLevels(a.(mark := m), -1);
    UnrollAlike(a.(mark := m), a, -1);
    UnrollTouches(a.(mark := m), -1);
    t := FetchEnd(a, x).value;
    KindsBoth(b.tokens, [Queued(StreamEndT, m)]);
    KindOne(Queued(StreamEndT, m));
  }

  lemma {:induction false} EndDispatch(a: Scanner, x: Lexeme)
    requires Keyed(a) && x.glyph.EndOfInput?
    ensures Dispatch(a, x) == FetchEnd(a, x)
  {
    hide FetchEnd, Keyed;
  }

  /** The end of the text. */
  lemma {:induction false} EndGoes(s: Scanner, x: Lexeme, ks: seq<Kind>) returns (t: Scanner)
    requires Clear(s, ks) && Next(s, x) && x.glyph.EndOfInput?
    ensures Goes(s, [x], t) && QueuedKinds(t.tokens) == ks + [StreamEndT]
    ensures |t.keys| == 1 && !t.keys[0].possible
  {
    hide Sound, Approach, Next, Clear, Keyed, QueuedKinds, Dispatch, Goes, FetchEnd;
    var a := ApproachClear(s, x, ks);
    KeyedNow(a);
    ClearSound(s, ks);
    t := EndFetched(a, x, ks);
    EndDispatch(a, x);
    FetchThere(s, x, a, t);
    GoesOne(s, x, t);
  }

  lemma {:induction false} FetchThere(s: Scanner, x: Lexeme, a: Scanner, t: Scanner)
    requires Sound(s) && Next(s, x) && Approach(s, x) == Some(a) && Keyed(a) && Dispatch(a, x) == Some(t)
    ensures Fetch(s, x) == Some(t)
  {
    hide Sound, Approach, Next, Dispatch;
  }

  // ---------------------------------------------------------------- handing out does not matter

  /** All the tokens still there. */
  function Whole(s: Scanner): Scanner {
    s.(handed := [], tokens := All(s))
  }

  function WholeOf(r: Option<Scanner>): Option<Scanner> {
    if r.None? then None else Some(Whole(r.value))
  }

  lemma {:induction false} TokenWhole(s: Scanner, k: SimpleKey)
    requires AtToken(s, k)
    ensures AtToken(Whole(s), k)
  {
  }

  lemma {:induction false} EnqueueWhole(s: Scanner, t: Queued)
    ensures Enqueue(Whole(s), t) == Whole(Enqueue(s, t))
  {
    assert s.handed + s.tokens + [t] == s.handed + (s.tokens + [t]);
  }

  lemma {:induction false} UnrollWhole(s: Scanner, c: int)
    ensures UnrollLevels(Whole(s), c) == Whole(UnrollLevels(s, c))
    decreases |s.indents|
  {
    if s.indent > c && s.indents != [] {
      var n := |s.indents| - 1;
      EnqueueWhole(s, Queued(BlockEndT, s.mark));
      UnrollWhole(Enqueue(s, Queued(BlockEndT, s.mark)).(indents := s.indents[..n], indent := s.indents[n]), c);
    }
  }

  lemma {:induction false} InsertWhole(s: Scanner, i: nat, t: Queued)
    requires i <= |s.tokens|
    ensures InsertAt(Whole(s), |s.handed| + i, t) == Whole(InsertAt(s, i, t))
  {
    var a, b := s.tokens[..i], s.tokens[i..];
    assert All(s)[..|s.handed| + i] == s.handed + a && All(s)[|s.handed| + i..] == b;
    assert s.handed + a + [t] + b == s.handed + (a + [t] + b);
  }

  lemma {:induction false} RollWhole(s: Scanner, column: nat, i: nat, kind: Kind, mark: Mark)
    requires i <= |s.tokens|
    ensures Roll(Whole(s), column, |s.handed| + i, kind, mark) == Whole(Roll(s, column, i, kind, mark))
  {
    hide InsertAt;
    InsertWhole(s.(indents := s.indents + [s.indent], indent := column), i, Queued(kind, mark));
  }

  lemma {:induction false} AppendWhole(s: Scanner, kind: Kind, x: Lexeme)
    ensures Append(Whole(s), kind, x) == Whole(Append(s, kind, x))
  {
    EnqueueWhole(s, Queued(kind, x.start));
  }

  lemma {:induction false} KeysWhole(s: Scanner)
    requires s.keys != []
    ensures RemoveKey(Whole(s)) == WholeOf(RemoveKey(s)) && SaveKey(Whole(s)) == WholeOf(SaveKey(s))
  {
  }

  lemma {:induction false} IndicatorWhole(s: Scanner, x: Lexeme, collection: Option<Kind>, kind: Kind, allowed: bool)
    requires s.keys != []
    ensures FetchIndicator(Whole(s), x, collection, kind, allowed)
      == WholeOf(FetchIndicator(s, x, collection, kind, allowed))
  {
    hide Roll, RemoveKey, Append;
    if collection.Some? {
      RollWhole(s, s.mark.column, |s.tokens|, collection.value, s.mark);
      RollKeys(s, s.mark.column, |s.tokens|, collection.value, s.mark);
    }
    var t := if collection.None? then s else Roll(s, s.mark.column, |s.tokens|, collection.value, s.mark);
    KeysWhole(t);
    if RemoveKey(t).Some? {
      AppendWhole(RemoveKey(t).value.(allowed := allowed), kind, x);
    }
  }

  lemma {:induction false} KeyedWhole(s: Scanner, x: Lexeme)
    requires Keyed(s) && TopKey(s).possible
    ensures Keyed(Whole(s)) && FetchKeyed(Whole(s), x) == Whole(FetchKeyed(s, x))
  {
    hide InsertAt, Roll, Append;
    var k := TopKey(s);
    var i := k.number - |s.handed|;
    InsertWhole(s, i, Queued(KeyT, k.mark));
    var t := InsertAt(s, i, Queued(KeyT, k.mark));
    InsertedSize(s, i, Queued(KeyT, k.mark));
    RollWhole(t, k.mark.column, i, BlockMappingStartT, k.mark);
    var r := Roll(t, k.mark.column, i, BlockMappingStartT, k.mark);
    RollKeys(t, k.mark.column, i, BlockMappingStartT, k.mark);
    AppendWhole(WithTop(r, k.(possible := false)).(allowed := false), ValueT, x);
  }

  lemma {:induction false} InsertedSize(s: Scanner, i: nat, t: Queued)
    requires i <= |s.tokens|
    ensures |InsertAt(s, i, t).tokens| == |s.tokens| + 1
    ensures InsertAt(s, i, t) == s.(tokens := InsertAt(s, i, t).tokens)
  {
  }

  lemma {:induction false} UnkeyedWhole(s: Scanner, x: Lexeme)
    ensures FetchUnkeyed(Whole(s), x) == WholeOf(FetchUnkeyed(s, x))
  {
    hide Roll, Append;
    RollWhole(s, s.mark.column, |s.tokens|, BlockMappingStartT, s.mark);
    AppendWhole(Roll(s, s.mark.column, |s.tokens|, BlockMappingStartT, s.mark).(allowed := s.flow == 0), ValueT, x);
  }

  lemma {:induction false} MarkWhole(s: Scanner, x: Lexeme)
    requires s.keys != []
    ensures FetchMark(Whole(s), x) == WholeOf(FetchMark(s, x)) && FetchEnd(Whole(s), x) == WholeOf(FetchEnd(s, x))
  {
    hide UnrollLevels, RemoveKey, Append, Enqueue;
    var mark := if s.mark.column != 0 then Mark(s.mark.index, s.mark.line + 1, 0) else s.mark;
    var s' := s.(mark := mark);
    UnrollWhole(s, -1);
    UnrollWhole(s', -1);
    UnrollTouches(s, -1);
    UnrollTouches(s', -1);
    var a, b := Unroll(s, -1), Unroll(s', -1);
    KeysWhole(a);
    KeysWhole(b);
    if RemoveKey(a).Some? {
      AppendWhole(RemoveKey(a).value.(allowed := false), x.kind, x);
    }
    if RemoveKey(b).Some? {
      EnqueueWhole(RemoveKey(b).value.(allowed := false), Queued(StreamEndT, mark));
    }
  }

  lemma {:induction false} WordsWhole(s: Scanner, x: Lexeme)
    requires s.keys != []
    ensures FetchWord(Whole(s), x) == WholeOf(FetchWord(s, x))
    ensures FetchBlockText(Whole(s), x) == WholeOf(FetchBlockText(s, x))
  {
    hide RemoveKey, SaveKey, Append;
    KeysWhole(s);
    if SaveKey(s).Some? {
      AppendWhole(SaveKey(s).value.(allowed := x.reopens), x.kind, x);
    }
    if RemoveKey(s).Some? {
      AppendWhole(RemoveKey(s).value.(allowed := true), x.kind, x);
    }
  }

  lemma {:induction false} OpenWhole(s: Scanner, x: Lexeme)
    requires s.keys != []
    ensures FetchOpen(Whole(s), x) == WholeOf(FetchOpen(s, x))
  {
    hide RemoveKey, SaveKey, Append;
    KeysWhole(s);
    if SaveKey(s).Some? {
      var r := SaveKey(s).value;
      AppendWhole(r.(keys := r.keys + [NO_KEY], flow := s.flow + 1, allowed := true), x.kind, x);
    }
  }

  lemma {:induction false} CloseWhole(s: Scanner, x: Lexeme)
    requires s.keys != []
    ensures FetchClose(Whole(s), x) == WholeOf(FetchClose(s, x))
  {
    hide RemoveKey, SaveKey, Append;
    KeysWhole(s);
    KeySizes(s);
    if RemoveKey(s).Some? {
      var r := RemoveKey(s).value;
      var t := if s.flow == 0 then r else r.(flow := s.flow - 1, keys := r.keys[..|s.keys| - 1]);
      AppendWhole(t.(allowed := false), x.kind, x);
    }
  }

  lemma {:induction false} KeySizes(s: Scanner)
    requires s.keys != []
    ensures RemoveKey(s).Some? ==> |RemoveKey(s).value.keys| == |s.keys|
  {
  }

  lemma {:induction false} DispatchWhole(s: Scanner, x: Lexeme)
    requires Keyed(s)
    ensures Keyed(Whole(s)) && Dispatch(Whole(s), x) == WholeOf(Dispatch(s, x))
  {
    hide FetchEnd, FetchMark, FetchOpen, FetchClose, FetchIndicator, FetchKeyed, FetchUnkeyed, FetchWord,
      FetchBlockText;
    match x.glyph
    case EndOfInput => MarkWhole(s, x);
    case DirectiveLine => MarkWhole(s, x);
    case DocumentMark => MarkWhole(s, x);
    case FlowOpen => OpenWhole(s, x);
    case FlowClose => CloseWhole(s, x);
    case Comma => IndicatorWhole(s, x, None, FlowEntryT, true);
    case Dash => IndicatorWhole(s, x, Some(BlockSequenceStartT), BlockEntryT, true);
    case Question => IndicatorWhole(s, x, Some(BlockMappingStartT), KeyT, s.flow == 0);
    case Colon =>
      if TopKey(s).possible {
        KeyedWhole(s, x);
      } else {
        UnkeyedWhole(s, x);
      }
    case Word => WordsWhole(s, x);
    case BlockText => WordsWhole(s, x);
    case Unknown =>
  }

  /** A scanner that has handed tokens out, beside one that has not: keys of the one may have
      been found stale already. */
  ghost predicate Beside(s: Scanner, t: Scanner) {
    && Sound(s) && Sound(t) && t == Whole(s).(keys := t.keys) && |s.keys| == |t.keys|
    && forall i :: 0 <= i < |s.keys| ==> s.keys[i] == t.keys[i] || s.keys[i] == Aged(t.keys[i], s.mark)
  }

  lemma {:induction false} StaleIsCalm(keys: seq<SimpleKey>, m: Mark)
    requires Stale(keys, m).Some?
    ensures Calm(keys, m)
    decreases |keys|
  {
    if keys != [] {
      StaleIsCalm(keys[1..], m);
      forall i | 0 <= i < |keys| ensures !(IsStale(keys[i], m) && keys[i].required) {
        if i > 0 {
          assert keys[i] == keys[1..][i - 1];
        }
      }
    }
  }

  /** Later both find the same keys stale. */
  lemma {:induction false} StaleBeside(s: Scanner, t: Scanner, m: Mark)
    requires Beside(s, t) && Upto(s.mark, m) && Stale(t.keys, m).Some?
    ensures Stale(s.keys, m) == Stale(t.keys, m) && Calm(s.keys, s.mark)
  {
    hide Sound, Stale, IsStale;
    StaleIsCalm(t.keys, m);
    StaleCalm(t.keys, m);
    forall i | 0 <= i < |s.keys| ensures Aged(s.keys[i], m) == Aged(t.keys[i], m) {
      AgedAgain(t.keys[i], s.mark, m);
    }
    CalmBeside(s, t, m);
    StaleCalm(s.keys, m);
    CalmBefore(s.keys, s.mark, m);
    assert AgedAll(s.keys, m) == AgedAll(t.keys, m);
  }

  lemma {:induction false} CalmBeside(s: Scanner, t: Scanner, m: Mark)
    requires Beside(s, t) && Calm(t.keys, m)
    ensures Calm(s.keys, m)
  {
    hide Sound;
  }

  /** So both fetch alike. */
  lemma {:induction false} FetchBeside(s: Scanner, t: Scanner, x: Lexeme)
    requires Beside(s, t) && Next(t, x) && Fetch(t, x).Some?
    ensures Next(s, x) && Fetch(s, x).Some? && Beside(Fetch(s, x).value, Fetch(t, x).value) && Calm(s.keys, s.mark)
  {
    assert s.mark == t.mark;
    NextUpto(t, x);
    FetchParts(t, x);
    ApproachBeside(s, t, x);
    var a := Approach(s, x).value;
    ApproachKeeps(s, x);
    KeyedNow(a);
    DispatchWhole(a, x);
    FetchThere(s, x, a, Dispatch(a, x).value);
    FetchKeeps(s, x);
    FetchKeeps(t, x);
    hide Sound, Dispatch, Approach;
  }

  lemma {:induction false} NextUpto(t: Scanner, x: Lexeme)
    requires Next(t, x)
    ensures Upto(t.mark, x.start)
  {
  }

  lemma {:induction false} FetchParts(t: Scanner, x: Lexeme)
    requires Sound(t) && Next(t, x) && Fetch(t, x).Some?
    ensures Approach(t, x).Some? && Keyed(Approach(t, x).value)
    ensures Fetch(t, x) == Dispatch(Approach(t, x).value, x)
  {
    hide Sound, Dispatch, Next;
    if Approach(t, x).Some? {
      ApproachKeeps(t, x);
      KeyedNow(Approach(t, x).value);
    }
  }

  lemma {:induction false} ApproachBeside(s: Scanner, t: Scanner, x: Lexeme)
    requires Beside(s, t) && Approach(t, x).Some? && Upto(t.mark, x.start)
    ensures Approach(s, x).Some? && Approach(t, x).value == Whole(Approach(s, x).value) && Calm(s.keys, s.mark)
  {
    hide Sound, Stale, UnrollLevels;
    StaleBeside(s, t, x.start);
    var keys := Stale(s.keys, x.start).value;
    var s' := s.(mark := x.start, keys := keys, allowed := s.allowed || (x.newline && s.flow == 0));
    UnrollWhole(s', x.start.column);
    UnrollTouches(s', x.start.column);
  }

  /** At the end no key is possible. */
  predicate NoKeys(t: Scanner) {
    forall i :: 0 <= i < |t.keys| ==> !t.keys[i].possible
  }

  lemma {:induction false} FetchMoreIsFetch(s: Scanner, t: Scanner, xs: seq<Lexeme>, u: Scanner) returns (t': Scanner)
    requires Between(s, xs) && (xs == [] ==> s.tokens != []) && Beside(s, t) && Goes(t, xs, u) && NoKeys(u)
    ensures FetchMore(s, xs).Enough?
    ensures Beside(FetchMore(s, xs).s, t') && Goes(t', FetchMore(s, xs).rest, u)
    decreases |xs|
  {
    hide Sound, Fetch, Ended, HeadIsSure, Text, Next;
    NeverStarves(s, xs);
    KeysCalm(s, t, xs, u);
    StaleCalm(s.keys, s.mark);
    var keys := if s.tokens == [] then s.keys else AgedAll(s.keys, s.mark);
    StillFetches(s, keys);
    var v := s.(keys := keys);
    AgedBeside(s, t);
    t' := t;
    if xs == [] {
      EndedIsSure(s);
    } else if !HeadIsSure(v) {
      FetchBeside(v, t, xs[0]);
      FetchStays(v, xs);
      t' := FetchMoreIsFetch(Fetch(v, xs[0]).value, Fetch(t, xs[0]).value, xs[1..], u);
    }
  }

  lemma {:induction false} AgedBeside(s: Scanner, t: Scanner)
    requires Beside(s, t) && Calm(s.keys, s.mark)
    ensures Beside(s.(keys := AgedAll(s.keys, s.mark)), t)
  {
    FewerKeep(s, AgedAll(s.keys, s.mark));
    hide Sound, IsStale;
    forall i | 0 <= i < |s.keys| ensures Aged(s.keys[i], s.mark) == Aged(t.keys[i], s.mark) {
      AgedAgain(t.keys[i], s.mark, s.mark);
    }
  }

  lemma {:induction false} KeysCalm(s: Scanner, t: Scanner, xs: seq<Lexeme>, u: Scanner)
    requires Beside(s, t) && Goes(t, xs, u) && NoKeys(u)
    ensures Calm(s.keys, s.mark)
  {
    hide Sound, Next;
    if xs == [] {
      NoKeysCalm(t, s.mark);
      CalmBeside(s, t, s.mark);
    } else {
      FetchBeside(s, t, xs[0]);
    }
  }

  lemma {:induction false} NoKeysCalm(t: Scanner, m: Mark)
    requires NoKeys(t)
    ensures Calm(t.keys, m)
  {
  }

  lemma {:induction false} HandOutBeside(s: Scanner, t: Scanner)
    requires Beside(s, t) && HeadIsSure(s)
    ensures Beside(HandOut(s), t)
  {
    HandOutKeeps(s);
    hide Sound;
  }

  /** What is handed out in the end is all that has been fetched. */
  lemma {:induction false} ScanIsFetch(s: Scanner, t: Scanner, xs: seq<Lexeme>, u: Scanner)
    requires Between(s, xs) && Beside(s, t) && Goes(t, xs, u) && NoKeys(u)
    ensures ScanAll(s, xs).Some? && ScanAll(s, xs).value.handed == u.tokens
    decreases |xs|, |s.tokens|
  {
    hide Sound, Fetch, Ended, FetchMore, HeadIsSure, Text, Next;
    if xs == [] && s.tokens == [] {
      assert s.handed + [] == s.handed;
    } else {
      var t' := FetchMoreIsFetch(s, t, xs, u);
      NeverStarves(s, xs);
      var r := FetchMore(s, xs);
      HandOutKeeps(r.s);
      HandOutBeside(r.s, t');
      HandsOut(r.s, r.rest);
      ScanIsFetch(HandOut(r.s), t', r.rest, u);
    }
  }

  // ---------------------------------------------------------------- whole texts

  /** A text is a chain of lexemes with its end behind. */
  lemma {:induction false} TextChain(m: Mark, xs: seq<Lexeme>, end: Lexeme)
    requires Text(m, xs + [end]) && end.glyph.EndOfInput?
    ensures Chain(m, xs) && (end.start == EndMark(m, xs) || Before(EndMark(m, xs), end.start)) && Weight(end.kind) == 0
    decreases |xs|
  {
    if xs == [] {
      assert (xs + [end])[0] == end;
    } else {
      var zs := xs + [end];
      assert zs[0] == xs[0] && zs[1..] == xs[1..] + [end];
      TextChain(xs[0].end, xs[1..], end);
    }
  }

  lemma {:induction false} StartClear(xs: seq<Lexeme>)
    requires Text(Mark(0, 0, 0), xs)
    ensures Still(STARTED) && Starts(STARTED, true, [StreamStartT]) && Between(STARTED, xs)
  {
    hide Text, Sound, Ended;
    StartIsBetween(xs);
    StartSound(xs);
    KindOne(Queued(StreamStartT, Mark(0, 0, 0)));
    PendingNow(STARTED, -1);
  }

  lemma {:induction false} StartSound(xs: seq<Lexeme>)
    requires Between(STARTED, xs)
    ensures Sound(STARTED)
  {
    hide Text, Ended;
  }

  /** For the lexemes of any documents that lie in a text, the scanner hands out exactly the
      tokens that spell those documents. */
  lemma {:induction false} PagesScan(docs: seq<Page>, end: Lexeme)
    requires OnPages(docs) && end.glyph.EndOfInput? && Text(Mark(0, 0, 0), PagesLexemes(docs) + [end])
    ensures var xs := PagesLexemes(docs) + [end];
      && Between(STARTED, xs) && ScanAll(STARTED, xs).Some?
      && QueuedKinds(ScanAll(STARTED, xs).value.handed) == StreamKinds(ErasedPages(docs))
  {
    hide OnPages, Text, Goes, Clear, Starts, AllKinds, Chain, Between, Sound, QueuedKinds;
    var ys := PagesLexemes(docs);
    StartClear(ys + [end]);
    TextChain(Mark(0, 0, 0), ys, end);
    var t := PagesGo(docs, STARTED, [StreamStartT]);
    EndNext(t, end);
    var u := EndGoes(t, end, [StreamStartT] + AllKinds(ErasedPages(docs)));
    GoesOn(STARTED, ys, t, [end], u);
    StartBeside(ys + [end]);
    ScanIsFetch(STARTED, STARTED, ys + [end], u);
  }

  lemma {:induction false} EndNext(t: Scanner, x: Lexeme)
    requires x.glyph.EndOfInput? && (x.start == t.mark || Before(t.mark, x.start)) && Weight(x.kind) == 0
    ensures Next(t, x)
  {
  }

  lemma {:induction false} StartBeside(xs: seq<Lexeme>)
    requires Between(STARTED, xs)
    ensures Beside(STARTED, STARTED)
  {
    StartSound(xs);
    hide Sound, Between;
    assert All(STARTED) == STARTED.tokens;
  }
}
