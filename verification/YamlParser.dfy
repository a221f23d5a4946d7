/**
 The YAML parser: a pushdown machine from tokens to events. `Step` says what one call of
 `yaml_parser_parse` makes of the parser's fields; the class at the end is the machine as the
 source has it, updating its fields in place, and is proved to do exactly `Step`.
 */
module YamlParser {
  import opened Bytes
  import opened YamlEvents
  import opened YamlTokens

  datatype State =
    | StreamStartS
    | ImplicitDocumentStartS | DocumentStartS | DocumentContentS | DocumentEndS
    | BlockNodeS
    | BlockSequenceFirstEntryS | BlockSequenceEntryS | IndentlessSequenceEntryS
    | BlockMappingFirstKeyS | BlockMappingKeyS | BlockMappingValueS
    | FlowSequenceFirstEntryS | FlowSequenceEntryS
    | FlowSequenceEntryMappingKeyS | FlowSequenceEntryMappingValueS | FlowSequenceEntryMappingEndS
    | FlowMappingFirstKeyS | FlowMappingKeyS | FlowMappingValueS | FlowMappingEmptyValueS
    | EndS

  /** The parser's fields. `tokens` are those the scanner still has to give; when they run out
      before the end of the stream, the scanner has failed. */
  datatype Parser = Parser(
    tokens: seq<Token>, state: State, states: seq<State>, marks: seq<nat>, directives: seq<TagDirective>)

  datatype Outcome = Emit(event: Event, next: Parser) | Fail

  function Kind0(tokens: seq<Token>): Kind
    requires tokens != []
  {
    tokens[0].kind
  }

  /** Back to the state pushed last. */
  function Popped(p: Parser): Parser
    requires p.states != []
  {
    p.(state := p.states[|p.states| - 1], states := p.states[..|p.states| - 1])
  }

  function Pushed(p: Parser, s: State): Parser {
    p.(states := p.states + [s])
  }

  function Unmarked(p: Parser): Parser
    requires p.marks != []
  {
    p.(marks := p.marks[..|p.marks| - 1])
  }

  function Skipped(p: Parser): Parser
    requires p.tokens != []
  {
    p.(tokens := p.tokens[1..])
  }

  const EMPTY: Event := ScalarEvent(None, None, [], true, false, Plain)

  // ---------------------------------------------------------------- directives

  function FindDirective(ds: seq<TagDirective>, handle: Name): (k: nat)
    ensures k <= |ds| && (k < |ds| ==> ds[k].handle == handle)
    ensures forall i :: 0 <= i < k ==> ds[i].handle != handle
  {
    if ds == [] || ds[0].handle == handle then 0 else 1 + FindDirective(ds[1..], handle)
  }

  /** `yaml_parser_append_tag_directive` */
  function AppendDirective(ds: seq<TagDirective>, d: TagDirective, duplicates: bool): Option<seq<TagDirective>> {
    if FindDirective(ds, d.handle) < |ds| then (if duplicates then Some(ds) else None) else Some(ds + [d])
  }

  const BANG: Name := [33]
  const YAML_PREFIX: Name := [116, 97, 103, 58, 121, 97, 109, 108, 46, 111, 114, 103, 44, 50, 48, 48, 50, 58]

  function WithDefaults(ds: seq<TagDirective>): seq<TagDirective> {
    var a := AppendDirective(ds, TagDirective(BANG, BANG), true).value;
    AppendDirective(a, TagDirective(BANG + BANG, YAML_PREFIX), true).value
  }

  datatype Directives = Directives(version: Option<Version>, tags: seq<TagDirective>, all: seq<TagDirective>,
      rest: seq<Token>)

  /** `yaml_parser_process_directives`: reads directives up to the first other token. */
  function ProcessDirectives(tokens: seq<Token>, version: Option<Version>, tags: seq<TagDirective>,
      all: seq<TagDirective>): (r: Option<Directives>)
    ensures r.Some? ==> r.value.rest != [] && |r.value.rest| <= |tokens|
  {
    if tokens == [] then None
    else if Kind0(tokens).VersionT? then
      var v := Kind0(tokens).version;
      if version.Some? || v.major != 1 || (v.minor != 1 && v.minor != 2) then None
      else ProcessDirectives(tokens[1..], Some(v), tags, all)
    else if Kind0(tokens).TagDirectiveT? then
      var d := Kind0(tokens).directive;
      var more := AppendDirective(all, d, false);
      if more.None? then None
      else ProcessDirectives(tokens[1..], version, tags + [d], more.value)
    else Some(Directives(version, tags, WithDefaults(all), tokens))
  }

  /** The tag that a handle and suffix stand for, if the handle is known. */
  function ResolveTag(ds: seq<TagDirective>, handle: Name, suffix: Name): Option<Name> {
    if handle == [] then Some(suffix)
    else
      var k := FindDirective(ds, handle);
      if k < |ds| then Some(ds[k].prefix + suffix) else None
  }

  // ---------------------------------------------------------------- nodes

  datatype Properties = Properties(anchor: Option<Name>, tag: Option<(Name, Name)>, rest: seq<Token>)

  /** An anchor and a tag, in either order, each at most once; a token must follow. */
  function ReadProperties(tokens: seq<Token>): (r: Option<Properties>)
    requires tokens != []
    ensures r.Some? ==> r.value.rest != [] && |r.value.rest| <= |tokens|
  {
    match Kind0(tokens)
    case AnchorT(name) =>
      var t := tokens[1..];
      if t == [] then None
      else if Kind0(t).TagT? then
        (if t[1..] == [] then None else Some(Properties(Some(name), Some((Kind0(t).handle, Kind0(t).suffix)), t[1..])))
      else Some(Properties(Some(name), None, t))
    case TagT(handle, suffix) =>
      var t := tokens[1..];
      if t == [] then None
      else if Kind0(t).AnchorT? then
        (if t[1..] == [] then None else Some(Properties(Some(Kind0(t).name), Some((handle, suffix)), t[1..])))
      else Some(Properties(None, Some((handle, suffix)), t))
    case _ => Some(Properties(None, None, tokens))
  }

  predicate Implicit(tag: Option<Name>) {
    tag.None? || tag.value == []
  }

  /** The node's content, once its properties are read. */
  function ParseContent(p: Parser, block: bool, indentless: bool, anchor: Option<Name>, tag: Option<Name>): Outcome
    requires p.tokens != [] && p.states != []
  {
    var k := Kind0(p.tokens);
    if indentless && k.BlockEntryT? then
      Emit(SequenceStart(anchor, tag, Implicit(tag), false), p.(state := IndentlessSequenceEntryS))
    else if k.ScalarT? then
      var plain := (k.style == Plain && tag.None?) || tag == Some(BANG);
      Emit(ScalarEvent(anchor, tag, k.value, plain, !plain && tag.None?, k.style), Skipped(Popped(p)))
    else if k.FlowSequenceStartT? then
      Emit(SequenceStart(anchor, tag, Implicit(tag), true), p.(state := FlowSequenceFirstEntryS))
    else if k.FlowMappingStartT? then
      Emit(MappingStart(anchor, tag, Implicit(tag), true), p.(state := FlowMappingFirstKeyS))
    else if block && k.BlockSequenceStartT? then
      Emit(SequenceStart(anchor, tag, Implicit(tag), false), p.(state := BlockSequenceFirstEntryS))
    else if block && k.BlockMappingStartT? then
      Emit(MappingStart(anchor, tag, Implicit(tag), false), p.(state := BlockMappingFirstKeyS))
    else if anchor.Some? || tag.Some? then
      Emit(ScalarEvent(anchor, tag, [], Implicit(tag), false, Plain), Popped(p))
    else Fail
  }

  /** `yaml_parser_parse_node` */
  function ParseNode(p: Parser, block: bool, indentless: bool): Outcome
    requires p.states != []
  {
    if p.tokens == [] then Fail
    else if Kind0(p.tokens).AliasT? then Emit(AliasEvent(Kind0(p.tokens).name), Skipped(Popped(p)))
    else
      var props := ReadProperties(p.tokens);
      if props.None? then Fail
      else
        var q := p.(tokens := props.value.rest);
        var t := props.value.tag;
        if t.None? then ParseContent(q, block, indentless, props.value.anchor, None)
        else
          var tag := ResolveTag(p.directives, t.value.0, t.value.1);
          if tag.None? then Fail else ParseContent(q, block, indentless, props.value.anchor, tag)
  }

  function EmptyScalar(p: Parser, s: State): Outcome {
    Emit(EMPTY, p.(state := s))
  }

  // ---------------------------------------------------------------- the states

  function ParseStreamStart(p: Parser): Outcome {
    if p.tokens == [] || !Kind0(p.tokens).StreamStartT? then Fail
    else Emit(StreamStart, Skipped(p).(state := ImplicitDocumentStartS))
  }

  function SkipEnds(tokens: seq<Token>): (r: seq<Token>)
    ensures |r| <= |tokens|
  {
    if tokens != [] && Kind0(tokens).DocumentEndT? then SkipEnds(tokens[1..]) else tokens
  }

  function ParseDocumentStart(p0: Parser, implicit: bool): Outcome {
    var p := if implicit then p0 else p0.(tokens := SkipEnds(p0.tokens));
    if p.tokens == [] then Fail
    else
      var k := Kind0(p.tokens);
      if implicit && !k.VersionT? && !k.TagDirectiveT? && !k.DocumentStartT? && !k.StreamEndT? then
        Emit(DocumentStart(None, [], true),
             Pushed(p, DocumentEndS).(state := BlockNodeS, directives := WithDefaults(p.directives)))
      else if !k.StreamEndT? then
        var d := ProcessDirectives(p.tokens, None, [], p.directives);
        if d.None? || !Kind0(d.value.rest).DocumentStartT? then Fail
        else
          Emit(DocumentStart(d.value.version, d.value.tags, false),
               Skipped(Pushed(p, DocumentEndS).(tokens := d.value.rest))
                 .(state := DocumentContentS, directives := d.value.all))
      else Emit(StreamEnd, Skipped(p).(state := EndS))
  }

  predicate EndsDocument(k: Kind) {
    k.VersionT? || k.TagDirectiveT? || k.DocumentStartT? || k.DocumentEndT? || k.StreamEndT?
  }

  function ParseDocumentContent(p: Parser): Outcome
    requires p.states != []
  {
    if p.tokens == [] then Fail
    else if EndsDocument(Kind0(p.tokens)) then Emit(EMPTY, Popped(p))
    else ParseNode(p, true, false)
  }

  function ParseDocumentEnd(p: Parser): Outcome {
    if p.tokens == [] then Fail
    else
      var implicit := !Kind0(p.tokens).DocumentEndT?;
      Emit(DocumentEnd(implicit), (if implicit then p else Skipped(p)).(state := DocumentStartS, directives := []))
  }

  /** The first call inside a collection notes where it starts and skips its opening token. */
  function Entered(p: Parser, first: bool): Parser
    requires first ==> p.tokens != []
  {
    if first then Skipped(p).(marks := p.marks + [p.tokens[0].mark]) else p
  }

  function ParseBlockSequenceEntry(p0: Parser, first: bool): Outcome
    requires p0.states != [] && (if first then p0.tokens != [] else p0.marks != [])
  {
    var p := Entered(p0, first);
    if p.tokens == [] then Fail
    else if Kind0(p.tokens).BlockEntryT? then
      var q := Skipped(p);
      if q.tokens == [] then Fail
      else if !Kind0(q.tokens).BlockEntryT? && !Kind0(q.tokens).BlockEndT? then
        ParseNode(Pushed(q, BlockSequenceEntryS), true, false)
      else EmptyScalar(q, BlockSequenceEntryS)
    else if Kind0(p.tokens).BlockEndT? then Emit(SequenceEnd, Skipped(Unmarked(Popped(p))))
    else Fail
  }

  function ParseIndentlessSequenceEntry(p: Parser): Outcome
    requires p.states != []
  {
    if p.tokens == [] then Fail
    else if Kind0(p.tokens).BlockEntryT? then
      var q := Skipped(p);
      if q.tokens == [] then Fail
      else
        var k := Kind0(q.tokens);
        if !k.BlockEntryT? && !k.KeyT? && !k.ValueT? && !k.BlockEndT? then
          ParseNode(Pushed(q, IndentlessSequenceEntryS), true, false)
        else EmptyScalar(q, IndentlessSequenceEntryS)
    else Emit(SequenceEnd, Popped(p))
  }

  function ParseBlockMappingKey(p0: Parser, first: bool): Outcome
    requires p0.states != [] && (if first then p0.tokens != [] else p0.marks != [])
  {
    var p := Entered(p0, first);
    if p.tokens == [] then Fail
    else if Kind0(p.tokens).KeyT? then
      var q := Skipped(p);
      if q.tokens == [] then Fail
      else
        var k := Kind0(q.tokens);
        if !k.KeyT? && !k.ValueT? && !k.BlockEndT? then ParseNode(Pushed(q, BlockMappingValueS), true, true)
        else EmptyScalar(q, BlockMappingValueS)
    else if Kind0(p.tokens).BlockEndT? then Emit(MappingEnd, Skipped(Unmarked(Popped(p))))
    else Fail
  }

  function ParseBlockMappingValue(p: Parser): Outcome
    requires p.states != []
  {
    if p.tokens == [] then Fail
    else if Kind0(p.tokens).ValueT? then
      var q := Skipped(p);
      if q.tokens == [] then Fail
      else
        var k := Kind0(q.tokens);
        if !k.KeyT? && !k.ValueT? && !k.BlockEndT? then ParseNode(Pushed(q, BlockMappingKeyS), true, true)
        else EmptyScalar(q, BlockMappingKeyS)
    else EmptyScalar(p, BlockMappingKeyS)
  }

  /** Past the comma that must stand between two entries of a flow collection. */
  function PastComma(p: Parser, first: bool): Option<Parser>
    requires p.tokens != []
  {
    if first then Some(p)
    else if !Kind0(p.tokens).FlowEntryT? || p.tokens[1..] == [] then None
    else Some(Skipped(p))
  }

  /** A flow sequence's entry, past the comma. */
  function ParseFlowSequenceItem(q: Parser): Outcome
    requires q.tokens != [] && q.states != [] && q.marks != []
  {
    var k := Kind0(q.tokens);
    if k.KeyT? then
      Emit(MappingStart(None, None, true, true), Skipped(q).(state := FlowSequenceEntryMappingKeyS))
    else if !k.FlowSequenceEndT? then ParseNode(Pushed(q, FlowSequenceEntryS), false, false)
    else Emit(SequenceEnd, Skipped(Unmarked(Popped(q))))
  }

  function ParseFlowSequenceEntry(p0: Parser, first: bool): Outcome
    requires p0.states != [] && (if first then p0.tokens != [] else p0.marks != [])
  {
    var p := Entered(p0, first);
    if p.tokens == [] then Fail
    else if Kind0(p.tokens).FlowSequenceEndT? then Emit(SequenceEnd, Skipped(Unmarked(Popped(p))))
    else
      var q := PastComma(p, first);
      if q.None? then Fail else ParseFlowSequenceItem(q.value)
  }

  /** A token that is no node is skipped here, whatever it is a delimiter of. */
  function ParseFlowSequenceEntryMappingKey(p: Parser): Outcome
    requires p.states != []
  {
    if p.tokens == [] then Fail
    else
      var k := Kind0(p.tokens);
      if !k.ValueT? && !k.FlowEntryT? && !k.FlowSequenceEndT? then
        ParseNode(Pushed(p, FlowSequenceEntryMappingValueS), false, false)
      else EmptyScalar(Skipped(p), FlowSequenceEntryMappingValueS)
  }

  function ParseFlowSequenceEntryMappingValue(p: Parser): Outcome
    requires p.states != []
  {
    if p.tokens == [] then Fail
    else if Kind0(p.tokens).ValueT? then
      var q := Skipped(p);
      if q.tokens == [] then Fail
      else if !Kind0(q.tokens).FlowEntryT? && !Kind0(q.tokens).FlowSequenceEndT? then
        ParseNode(Pushed(q, FlowSequenceEntryMappingEndS), false, false)
      else EmptyScalar(q, FlowSequenceEntryMappingEndS)
    else EmptyScalar(p, FlowSequenceEntryMappingEndS)
  }

  function ParseFlowSequenceEntryMappingEnd(p: Parser): Outcome {
    if p.tokens == [] then Fail else Emit(MappingEnd, p.(state := FlowSequenceEntryS))
  }

  /** A flow mapping's entry, past the comma. */
  function ParseFlowMappingPair(q: Parser): Outcome
    requires q.tokens != [] && q.states != [] && q.marks != []
  {
    var k := Kind0(q.tokens);
    if k.KeyT? then
      var r := Skipped(q);
      if r.tokens == [] then Fail
      else
        var l := Kind0(r.tokens);
        if !l.ValueT? && !l.FlowEntryT? && !l.FlowMappingEndT? then
          ParseNode(Pushed(r, FlowMappingValueS), false, false)
        else EmptyScalar(r, FlowMappingValueS)
    else if !k.FlowMappingEndT? then ParseNode(Pushed(q, FlowMappingEmptyValueS), false, false)
    else Emit(MappingEnd, Skipped(Unmarked(Popped(q))))
  }

  function ParseFlowMappingKey(p0: Parser, first: bool): Outcome
    requires p0.states != [] && (if first then p0.tokens != [] else p0.marks != [])
  {
    var p := Entered(p0, first);
    if p.tokens == [] then Fail
    else if Kind0(p.tokens).FlowMappingEndT? then Emit(MappingEnd, Skipped(Unmarked(Popped(p))))
    else
      var q := PastComma(p, first);
      if q.None? then Fail else ParseFlowMappingPair(q.value)
  }

  function ParseFlowMappingValue(p: Parser, empty: bool): Outcome
    requires p.states != []
  {
    if p.tokens == [] then Fail
    else if empty then EmptyScalar(p, FlowMappingKeyS)
    else if Kind0(p.tokens).ValueT? then
      var q := Skipped(p);
      if q.tokens == [] then Fail
      else if !Kind0(q.tokens).FlowEntryT? && !Kind0(q.tokens).FlowMappingEndT? then
        ParseNode(Pushed(q, FlowMappingKeyS), false, false)
      else EmptyScalar(q, FlowMappingKeyS)
    else EmptyScalar(p, FlowMappingKeyS)
  }

  // ---------------------------------------------------------------- what the stacks hold

  predicate IsFirst(s: State) {
    s.BlockSequenceFirstEntryS? || s.BlockMappingFirstKeyS? || s.FlowSequenceFirstEntryS? || s.FlowMappingFirstKeyS?
  }

  /** The states that are pushed to be returned to, above the document's own. */
  predicate IsReturn(s: State) {
    s.BlockSequenceEntryS? || s.IndentlessSequenceEntryS? || s.BlockMappingKeyS? || s.BlockMappingValueS?
    || s.FlowSequenceEntryS? || s.FlowSequenceEntryMappingValueS? || s.FlowSequenceEntryMappingEndS?
    || s.FlowMappingKeyS? || s.FlowMappingValueS? || s.FlowMappingEmptyValueS?
  }

  predicate BetweenDocuments(s: State) {
    s.StreamStartS? || s.ImplicitDocumentStartS? || s.DocumentStartS? || s.DocumentEndS? || s.EndS?
  }

  /** Whether a mark was pushed when the state's collection was entered. */
  function MarkOf(s: State): nat {
    if IsFirst(s) || s.IndentlessSequenceEntryS? || s.DocumentContentS? || s.BlockNodeS? || BetweenDocuments(s) then 0
      else 1
  }

  function MarkCount(states: seq<State>): nat {
    if states == [] then 0 else MarkCount(states[..|states| - 1]) + MarkOf(states[|states| - 1])
  }

  predicate Stacked(states: seq<State>) {
    && states != [] && states[0] == DocumentEndS
    && forall i :: 0 < i < |states| ==> IsReturn(states[i])
  }

  /** The invariant of the machine: no pop below will find its stack empty. */
  predicate Inv(p: Parser) {
    if BetweenDocuments(p.state) then p.states == [] && p.marks == []
    else if p.state.DocumentContentS? || p.state.BlockNodeS? then p.states == [DocumentEndS] && p.marks == []
    else
      && Stacked(p.states) && |p.marks| == MarkCount(p.states) + MarkOf(p.state)
      && (IsFirst(p.state) ==> p.tokens != [] && !Kind0(p.tokens).StreamEndT?)
  }

  lemma MarkCountEmpty()
    ensures MarkCount([]) == 0 && MarkCount([DocumentEndS]) == 0
  {
    assert [DocumentEndS][..0] == [];
  }

  /** `yaml_parser_state_machine` */
  function Step(p: Parser): Outcome
    requires Inv(p)
  {
    match p.state
    case StreamStartS => ParseStreamStart(p)
    case ImplicitDocumentStartS => ParseDocumentStart(p, true)
    case DocumentStartS => ParseDocumentStart(p, false)
    case DocumentContentS => ParseDocumentContent(p)
    case DocumentEndS => ParseDocumentEnd(p)
    case BlockNodeS => ParseNode(p, true, false)
    case BlockSequenceFirstEntryS => ParseBlockSequenceEntry(p, true)
    case BlockSequenceEntryS => ParseBlockSequenceEntry(p, false)
    case IndentlessSequenceEntryS => ParseIndentlessSequenceEntry(p)
    case BlockMappingFirstKeyS => ParseBlockMappingKey(p, true)
    case BlockMappingKeyS => ParseBlockMappingKey(p, false)
    case BlockMappingValueS => ParseBlockMappingValue(p)
    case FlowSequenceFirstEntryS => ParseFlowSequenceEntry(p, true)
    case FlowSequenceEntryS => ParseFlowSequenceEntry(p, false)
    case FlowSequenceEntryMappingKeyS => ParseFlowSequenceEntryMappingKey(p)
    case FlowSequenceEntryMappingValueS => ParseFlowSequenceEntryMappingValue(p)
    case FlowSequenceEntryMappingEndS => ParseFlowSequenceEntryMappingEnd(p)
    case FlowMappingFirstKeyS => ParseFlowMappingKey(p, true)
    case FlowMappingKeyS => ParseFlowMappingKey(p, false)
    case FlowMappingValueS => ParseFlowMappingValue(p, false)
    case FlowMappingEmptyValueS => ParseFlowMappingValue(p, true)
    case EndS => Fail
  }

  // ---------------------------------------------------------------- the events obey the grammar

  /** The grammar's frames for the level that a state works on. */
  function Frames(s: State): seq<Frame> {
    match s
    case BlockSequenceFirstEntryS => [Item]
    case BlockSequenceEntryS => [Item]
    case IndentlessSequenceEntryS => [Item]
    case FlowSequenceFirstEntryS => [Item]
    case FlowSequenceEntryS => [Item]
    case BlockMappingFirstKeyS => [Key]
    case BlockMappingKeyS => [Key]
    case FlowMappingFirstKeyS => [Key]
    case FlowMappingKeyS => [Key]
    case BlockMappingValueS => [Value]
    case FlowMappingValueS => [Value]
    case FlowMappingEmptyValueS => [Value]
    case FlowSequenceEntryMappingKeyS => [Item, Key]
    case FlowSequenceEntryMappingValueS => [Item, Value]
    case FlowSequenceEntryMappingEndS => [Item, Key]
    case DocumentContentS => [Root]
    case BlockNodeS => [Root]
    case DocumentEndS => [RootDone]
    case _ => []
  }

  function FramesAll(states: seq<State>): seq<Frame> {
    if states == [] then [] else FramesAll(states[..|states| - 1]) + Frames(states[|states| - 1])
  }

  /** Where the grammar stands when the parser stands at `p`. */
  function Grammar(p: Parser): Phase {
    match p.state
    case StreamStartS => Fresh
    case ImplicitDocumentStartS => Between
    case DocumentStartS => Between
    case EndS => Finished
    case DocumentContentS => Inside([Root])
    case BlockNodeS => Inside([Root])
    case _ => Inside(FramesAll(p.states) + Frames(p.state))
  }

  /** How many events a state may cost before a token has to be consumed. */
  function Weight(s: State): nat {
    match s
    case ImplicitDocumentStartS => 3
    case FlowSequenceEntryMappingKeyS => 3
    case FlowSequenceEntryMappingValueS => 2
    case FlowSequenceEntryMappingEndS => 1
    case BlockMappingValueS => 1
    case FlowMappingValueS => 1
    case FlowMappingEmptyValueS => 1
    case IndentlessSequenceEntryS => 1
    case DocumentEndS => 1
    case DocumentContentS => 1
    case BlockNodeS => 1
    case _ => 0
  }

  function WeightAll(states: seq<State>): nat {
    if states == [] then 0 else WeightAll(states[..|states| - 1]) + Weight(states[|states| - 1])
  }

  /** A bound on the events still to come. */
  function Potential(p: Parser): nat {
    4 * |p.tokens| + WeightAll(p.states) + Weight(p.state)
  }

  lemma Snoc(states: seq<State>, s: State)
    ensures FramesAll(states + [s]) == FramesAll(states) + Frames(s)
    ensures WeightAll(states + [s]) == WeightAll(states) + Weight(s)
    ensures MarkCount(states + [s]) == MarkCount(states) + MarkOf(s)
    ensures Stacked(states) && IsReturn(s) ==> Stacked(states + [s])
  {
    assert (states + [s])[..|states|] == states;
  }

  /** Two ends of the machine meet: popping goes back to a state the invariant holds in. */
  lemma PopKeeps(p: Parser)
    requires Stacked(p.states) && |p.marks| == MarkCount(p.states)
    ensures Inv(Popped(p)) && Grammar(Popped(p)) == Inside(FramesAll(p.states))
    ensures Potential(Popped(p)) == 4 * |p.tokens| + WeightAll(p.states)
  {
    var n := |p.states| - 1;
    if n == 0 {
      assert p.states == [DocumentEndS] && p.states[..0] == [];
      MarkCountEmpty();
    }
  }

  /** What a node's first event does: the grammar takes a node where the stack says one is due. */
  ghost predicate Takes(p: Parser, g: seq<Frame>, out: Outcome) {
    out.Emit? ==>
      && Accept(Inside(g), out.event) == Some(Grammar(out.next)) && Inv(out.next)
      && Potential(out.next) <= 4 * |p.tokens| + WeightAll(p.states) + 1
  }

  lemma ScalarAccepts(p: Parser, g: seq<Frame>, e: Event)
    requires Stacked(p.states) && |p.marks| == MarkCount(p.states)
    requires TakesNode(g) && NodeDone(g) == FramesAll(p.states) && (e.ScalarEvent? || e.AliasEvent?)
    ensures Takes(p, g, Emit(e, Popped(p)))
    ensures Potential(Popped(p)) == 4 * |p.tokens| + WeightAll(p.states)
    ensures p.tokens != [] ==> Takes(p, g, Emit(e, Skipped(Popped(p))))
    ensures p.tokens != [] ==> Potential(Skipped(Popped(p))) <= 4 * |p.tokens| + WeightAll(p.states)
  {
    PopKeeps(p);
    if p.tokens != [] {
      PopKeeps(Skipped(p));
      assert Skipped(Popped(p)) == Popped(Skipped(p));
    }
  }

  lemma StartAccepts(p: Parser, g: seq<Frame>, e: Event, s: State)
    requires p.tokens != [] && Stacked(p.states) && |p.marks| == MarkCount(p.states)
    requires TakesNode(g) && NodeDone(g) == FramesAll(p.states)
    requires (e.SequenceStart? && (s.IndentlessSequenceEntryS? || s.BlockSequenceFirstEntryS? ||
      s.FlowSequenceFirstEntryS?))
      || (e.MappingStart? && (s.BlockMappingFirstKeyS? || s.FlowMappingFirstKeyS?))
    requires IsFirst(s) ==> !Kind0(p.tokens).StreamEndT?
    ensures Takes(p, g, Emit(e, p.(state := s)))
    ensures IsFirst(s) ==> Potential(p.(state := s)) == 4 * |p.tokens| + WeightAll(p.states)
  {
  }

  /** A node's content is a scalar, or starts a collection. */
  predicate Starts(p: Parser, e: Event, next: Parser, indentless: bool) {
    && p.tokens != [] && next == p.(state := next.state)
    && (IsFirst(next.state) ==> !Kind0(p.tokens).StreamEndT?)
    && (e.SequenceStart? || e.MappingStart?)
    && (e.SequenceStart? ==>
      next.state.BlockSequenceFirstEntryS? || next.state.FlowSequenceFirstEntryS? ||
      (indentless && next.state.IndentlessSequenceEntryS?))
    && (e.MappingStart? ==> next.state.BlockMappingFirstKeyS? || next.state.FlowMappingFirstKeyS?)
  }

  lemma ContentShape(p: Parser, block: bool, indentless: bool, anchor: Option<Name>, tag: Option<Name>)
    requires p.tokens != [] && p.states != []
    ensures var out := ParseContent(p, block, indentless, anchor, tag);
      out.Emit? ==>
        if out.event.ScalarEvent? then out.next == Popped(p) || out.next == Skipped(Popped(p))
        else Starts(p, out.event, out.next, indentless)
  {
  }

  lemma ContentAccepts(p: Parser, g: seq<Frame>, block: bool, indentless: bool, anchor: Option<Name>, tag: Option<Name>)
    requires p.tokens != [] && Stacked(p.states) && |p.marks| == MarkCount(p.states)
    requires TakesNode(g) && NodeDone(g) == FramesAll(p.states)
    ensures Takes(p, g, ParseContent(p, block, indentless, anchor, tag))
    ensures !indentless && ParseContent(p, block, indentless, anchor, tag).Emit? ==>
      Potential(ParseContent(p, block, indentless, anchor, tag).next) <= 4 * |p.tokens| + WeightAll(p.states)
  {
    var out := ParseContent(p, block, indentless, anchor, tag);
    ContentShape(p, block, indentless, anchor, tag);
    hide ParseContent, Potential, TakesNode;
    if out.Emit? {
      if out.event.ScalarEvent? {
        ScalarAccepts(p, g, out.event);
      } else {
        StartAccepts(p, g, out.event, out.next.state);
      }
      hide Takes;
    }
  }

  lemma NodeAccepts(p: Parser, g: seq<Frame>, block: bool, indentless: bool)
    requires Stacked(p.states) && |p.marks| == MarkCount(p.states)
    requires TakesNode(g) && NodeDone(g) == FramesAll(p.states)
    ensures Takes(p, g, ParseNode(p, block, indentless))
    ensures !indentless && ParseNode(p, block, indentless).Emit? ==>
      Potential(ParseNode(p, block, indentless).next) <= 4 * |p.tokens| + WeightAll(p.states)
  {
    hide FramesAll, WeightAll, MarkCount;
    if p.tokens != [] {
      if Kind0(p.tokens).AliasT? {
        PopKeeps(p);
      } else {
        var props := ReadProperties(p.tokens);
        if props.Some? {
          var q := p.(tokens := props.value.rest);
          var t := props.value.tag;
          var tag := if t.None? then None else ResolveTag(p.directives, t.value.0, t.value.1);
          ContentAccepts(q, g, block, indentless, props.value.anchor, tag);
        }
      }
    }
  }

  /** One event: the grammar allows it, the invariant is kept, and the bound goes down. */
  ghost predicate Advances(p: Parser, out: Outcome) {
    out.Emit? ==>
      && Accept(Grammar(p), out.event) == Some(Grammar(out.next)) && Inv(out.next)
      && Potential(out.next) < Potential(p)
  }

  /** A node that the level `s` is pushed for. */
  lemma PushAccepts(q: Parser, s: State, g: seq<Frame>, block: bool, indentless: bool)
    requires Stacked(q.states) && IsReturn(s) && |q.marks| == MarkCount(q.states) + MarkOf(s)
    requires TakesNode(g) && NodeDone(g) == FramesAll(q.states) + Frames(s)
    ensures var out := ParseNode(Pushed(q, s), block, indentless);
      out.Emit? ==>
        && Accept(Inside(g), out.event) == Some(Grammar(out.next)) && Inv(out.next)
        && Potential(out.next) <= 4 * |q.tokens| + WeightAll(q.states) + Weight(s) + (if indentless then 1 else 0)
  {
    Snoc(q.states, s);
    NodeAccepts(Pushed(q, s), g, block, indentless);
  }

  /** An empty scalar where a node was left out. */
  lemma EmptyAccepts(q: Parser, s: State, g: seq<Frame>)
    requires Stacked(q.states) && IsReturn(s) && |q.marks| == MarkCount(q.states) + MarkOf(s)
    requires TakesNode(g) && NodeDone(g) == FramesAll(q.states) + Frames(s)
    ensures Accept(Inside(g), EMPTY) == Some(Grammar(q.(state := s))) && Inv(q.(state := s))
    ensures Potential(q.(state := s)) == 4 * |q.tokens| + WeightAll(q.states) + Weight(s)
  {
  }

  lemma Top(g: seq<Frame>, f: Frame)
    ensures TakesNode(g + [f]) <==> f != RootDone
    ensures (g + [f])[|g + [f]| - 1] == f && (g + [f])[..|g|] == g
    ensures NodeDone(g + [f]) == g + [AfterNode(f)]
  {
  }

  lemma Top2(g: seq<Frame>, f: Frame)
    ensures g + [Item, f] == g + [Item] + [f]
    ensures TakesNode(g + [Item, f]) <==> f != RootDone
    ensures NodeDone(g + [Item, f]) == g + [Item, AfterNode(f)]
    ensures (g + [Item, f])[..|g| + 1] == g + [Item]
  {
    Top(g + [Item], f);
  }

  /** The end of a collection goes back to the level below it. */
  lemma EndAccepts(p: Parser, q: Parser, f: Frame, e: Event)
    requires Stacked(p.states) && |p.marks| == MarkCount(p.states)
    requires (f == Item && e == SequenceEnd) || (f == Key && e == MappingEnd)
    requires q.tokens != [] && q.states == p.states && q.marks != [] && q.marks[..|q.marks| - 1] == p.marks
    ensures var out := Skipped(Unmarked(Popped(q)));
      && Accept(Inside(FramesAll(p.states) + [f]), e) == Some(Grammar(out)) && Inv(out)
      && Potential(out) == 4 * (|q.tokens| - 1) + WeightAll(p.states)
  {
    Top(FramesAll(p.states), f);
    var r := p.(tokens := q.tokens[1..], directives := q.directives);
    PopKeeps(r);
    assert Skipped(Unmarked(Popped(q))) == Popped(r);
  }

  lemma LevelEnds(g: seq<Frame>, f: Frame, e: Event)
    requires (f == Item && e == SequenceEnd) || (f == Key && e == MappingEnd)
    ensures Accept(Inside(g + [f]), e) == Some(Inside(g))
  {
    Top(g, f);
  }

  /** A mapping of one pair starts inside a flow sequence. */
  lemma EntryStarts(g: seq<Frame>)
    ensures Accept(Inside(g + [Item]), MappingStart(None, None, true, true)) == Some(Inside(g + [Item, Key]))
  {
    Top(g, Item);
    assert g + [Item, Key] == g + [Item] + [Key];
  }

  lemma StreamStartAdvances(p: Parser)
    requires Inv(p) && p.state.StreamStartS?
    ensures Advances(p, ParseStreamStart(p))
  {
  }

  lemma DocumentStartAdvances(p: Parser, implicit: bool)
    requires Inv(p) && p.state == if implicit then ImplicitDocumentStartS else DocumentStartS
    ensures Advances(p, ParseDocumentStart(p, implicit))
  {
    hide Stacked, MarkCount, WeightAll, FramesAll;
    Snoc([], DocumentEndS);
    MarkCountEmpty();
  }

  lemma DocumentContentAdvances(p: Parser)
    requires Inv(p) && p.state.DocumentContentS?
    ensures Advances(p, ParseDocumentContent(p))
  {
    Snoc([], DocumentEndS);
    MarkCountEmpty();
    NodeAccepts(p, [Root], true, false);
    PopKeeps(p);
  }

  lemma BlockNodeAdvances(p: Parser)
    requires Inv(p) && p.state.BlockNodeS?
    ensures Advances(p, ParseNode(p, true, false))
  {
    Snoc([], DocumentEndS);
    MarkCountEmpty();
    NodeAccepts(p, [Root], true, false);
  }

  lemma DocumentEndAdvances(p: Parser)
    requires Inv(p) && p.state.DocumentEndS?
    ensures Advances(p, ParseDocumentEnd(p))
  {
  }

  /** The states in which an entry of a collection, or its end, is due. */
  predicate EntryDue(s: State, first: bool, f: Frame) {
    || (f == Key && s == if first then BlockMappingFirstKeyS else BlockMappingKeyS)
    || (f == Key && s == if first then FlowMappingFirstKeyS else FlowMappingKeyS)
    || (f == Item && s == if first then BlockSequenceFirstEntryS else BlockSequenceEntryS)
    || (f == Item && s == if first then FlowSequenceFirstEntryS else FlowSequenceEntryS)
  }

  /** Where the collection stands then. */
  lemma EntryEntered(p0: Parser, first: bool, f: Frame)
    requires Inv(p0) && EntryDue(p0.state, first, f)
    ensures var p := Entered(p0, first);
      && Stacked(p.states) && |p.marks| == MarkCount(p.states) + 1
      && |p.tokens| == |p0.tokens| - (if first then 1 else 0)
      && Grammar(p0) == Inside(FramesAll(p.states) + [f])
      && Potential(p0) >= 4 * |p0.tokens| + WeightAll(p.states)
  {
    hide Stacked, MarkCount, FramesAll, WeightAll;
  }

  lemma BlockSequenceEntryTaken(p0: Parser, first: bool)
    requires Inv(p0) && p0.state == if first then BlockSequenceFirstEntryS else BlockSequenceEntryS
    requires var p := Entered(p0, first); p.tokens != [] && Kind0(p.tokens).BlockEntryT?
    ensures Advances(p0, ParseBlockSequenceEntry(p0, first))
  {
    hide Accept, NodeDone, TakesNode, FramesAll, WeightAll, MarkCount, Stacked, ParseNode, Inv, Grammar, Potential,
      Entered;
    EntryEntered(p0, first, Item);
    var p := Entered(p0, first);
    var g := FramesAll(p.states);
    Top(g, Item);
    PushAccepts(Skipped(p), BlockSequenceEntryS, g + [Item], true, false);
    EmptyAccepts(Skipped(p), BlockSequenceEntryS, g + [Item]);
  }

  lemma BlockSequenceEnds(p0: Parser, first: bool)
    requires Inv(p0) && p0.state == if first then BlockSequenceFirstEntryS else BlockSequenceEntryS
    requires var p := Entered(p0, first); p.tokens != [] && Kind0(p.tokens).BlockEndT?
    ensures Advances(p0, ParseBlockSequenceEntry(p0, first))
  {
    hide Accept, FramesAll, WeightAll, MarkCount, Stacked, Inv, Grammar, Potential, Entered;
    EntryEntered(p0, first, Item);
    var p := Entered(p0, first);
    EndAccepts(p.(marks := p.marks[..|p.marks| - 1]), p, Item, SequenceEnd);
  }

  lemma BlockSequenceAdvances(p0: Parser, first: bool)
    requires Inv(p0) && p0.state == if first then BlockSequenceFirstEntryS else BlockSequenceEntryS
    ensures Advances(p0, ParseBlockSequenceEntry(p0, first))
  {
    hide Accept, Grammar, Potential, Entered;
    var p := Entered(p0, first);
    if p.tokens != [] && Kind0(p.tokens).BlockEntryT? {
      BlockSequenceEntryTaken(p0, first);
    } else if p.tokens != [] && Kind0(p.tokens).BlockEndT? {
      BlockSequenceEnds(p0, first);
    }
  }

  lemma IndentlessSequenceAdvances(p: Parser)
    requires Inv(p) && p.state.IndentlessSequenceEntryS?
    ensures Advances(p, ParseIndentlessSequenceEntry(p))
  {
    hide Accept, NodeDone, TakesNode, FramesAll, WeightAll, MarkCount, Stacked, ParseNode;
    var g := FramesAll(p.states);
    Top(g, Item);
    PopKeeps(p);
    LevelEnds(g, Item, SequenceEnd);
    if p.tokens != [] && Kind0(p.tokens).BlockEntryT? {
      PushAccepts(Skipped(p), IndentlessSequenceEntryS, g + [Item], true, false);
      EmptyAccepts(Skipped(p), IndentlessSequenceEntryS, g + [Item]);
    }
  }

  lemma BlockMappingKeyTaken(p0: Parser, first: bool)
    requires Inv(p0) && p0.state == if first then BlockMappingFirstKeyS else BlockMappingKeyS
    requires var p := Entered(p0, first); p.tokens != [] && Kind0(p.tokens).KeyT?
    ensures Advances(p0, ParseBlockMappingKey(p0, first))
  {
    hide Accept, NodeDone, TakesNode, FramesAll, WeightAll, MarkCount, Stacked, ParseNode, Inv, Grammar, Potential,
      Entered;
    EntryEntered(p0, first, Key);
    var p := Entered(p0, first);
    var g := FramesAll(p.states);
    Top(g, Key);
    PushAccepts(Skipped(p), BlockMappingValueS, g + [Key], true, true);
    EmptyAccepts(Skipped(p), BlockMappingValueS, g + [Key]);
  }

  lemma BlockMappingEnds(p0: Parser, first: bool)
    requires Inv(p0) && p0.state == if first then BlockMappingFirstKeyS else BlockMappingKeyS
    requires var p := Entered(p0, first); p.tokens != [] && Kind0(p.tokens).BlockEndT?
    ensures Advances(p0, ParseBlockMappingKey(p0, first))
  {
    hide Accept, FramesAll, WeightAll, MarkCount, Stacked, Inv, Grammar, Potential, Entered;
    EntryEntered(p0, first, Key);
    var p := Entered(p0, first);
    EndAccepts(p.(marks := p.marks[..|p.marks| - 1]), p, Key, MappingEnd);
  }

  lemma BlockMappingKeyAdvances(p0: Parser, first: bool)
    requires Inv(p0) && p0.state == if first then BlockMappingFirstKeyS else BlockMappingKeyS
    ensures Advances(p0, ParseBlockMappingKey(p0, first))
  {
    hide Accept, Grammar, Potential, Entered;
    var p := Entered(p0, first);
    if p.tokens != [] && Kind0(p.tokens).KeyT? {
      BlockMappingKeyTaken(p0, first);
    } else if p.tokens != [] && Kind0(p.tokens).BlockEndT? {
      BlockMappingEnds(p0, first);
    }
  }

  lemma BlockMappingValueAdvances(p: Parser)
    requires Inv(p) && p.state.BlockMappingValueS?
    ensures Advances(p, ParseBlockMappingValue(p))
  {
    hide Accept, NodeDone, TakesNode, FramesAll, WeightAll, MarkCount, Stacked, ParseNode;
    var g := FramesAll(p.states);
    Top(g, Value);
    EmptyAccepts(p, BlockMappingKeyS, g + [Value]);
    if p.tokens != [] && Kind0(p.tokens).ValueT? {
      PushAccepts(Skipped(p), BlockMappingKeyS, g + [Value], true, true);
      EmptyAccepts(Skipped(p), BlockMappingKeyS, g + [Value]);
    }
  }

  /** The grammar goes along with an entry read at `q`, the level below being that of `q`. */
  ghost predicate Follows(q: Parser, g: seq<Frame>, slack: nat, out: Outcome) {
    out.Emit? ==>
      && Accept(Inside(g), out.event) == Some(Grammar(out.next)) && Inv(out.next)
      && Potential(out.next) <= 4 * |q.tokens| + WeightAll(q.states) + slack
  }

  lemma FlowSequenceItemFollows(q: Parser)
    requires q.tokens != [] && Stacked(q.states) && |q.marks| == MarkCount(q.states) + 1
    ensures Follows(q, FramesAll(q.states) + [Item], 0, ParseFlowSequenceItem(q))
  {
    hide Accept, NodeDone, TakesNode, FramesAll, WeightAll, MarkCount, Stacked, ParseNode;
    var g := FramesAll(q.states);
    Top(g, Item);
    EntryStarts(g);
    PushAccepts(q, FlowSequenceEntryS, g + [Item], false, false);
    if Kind0(q.tokens).FlowSequenceEndT? {
      EndAccepts(q.(marks := q.marks[..|q.marks| - 1]), q, Item, SequenceEnd);
    }
  }

  lemma FlowSequenceAdvances(p0: Parser, first: bool)
    requires Inv(p0) && p0.state == if first then FlowSequenceFirstEntryS else FlowSequenceEntryS
    ensures Advances(p0, ParseFlowSequenceEntry(p0, first))
  {
    hide Accept, FramesAll, WeightAll, MarkCount, Stacked, ParseFlowSequenceItem, Inv, Grammar, Potential, Entered;
    EntryEntered(p0, first, Item);
    var p := Entered(p0, first);
    if p.tokens != [] {
      if Kind0(p.tokens).FlowSequenceEndT? {
        EndAccepts(p.(marks := p.marks[..|p.marks| - 1]), p, Item, SequenceEnd);
      } else if PastComma(p, first).Some? {
        FlowSequenceItemFollows(PastComma(p, first).value);
      }
    }
  }

  lemma MappingKeyAdvances(p: Parser)
    requires Inv(p) && p.state.FlowSequenceEntryMappingKeyS?
    ensures Advances(p, ParseFlowSequenceEntryMappingKey(p))
  {
    hide Accept, NodeDone, TakesNode, FramesAll, WeightAll, MarkCount, Stacked, ParseNode;
    var g := FramesAll(p.states);
    Top2(g, Key);
    PushAccepts(p, FlowSequenceEntryMappingValueS, g + [Item, Key], false, false);
    EmptyAccepts(p, FlowSequenceEntryMappingValueS, g + [Item, Key]);
    if p.tokens != [] {
      EmptyAccepts(Skipped(p), FlowSequenceEntryMappingValueS, g + [Item, Key]);
    }
  }

  lemma MappingValueAdvances(p: Parser)
    requires Inv(p) && p.state.FlowSequenceEntryMappingValueS?
    ensures Advances(p, ParseFlowSequenceEntryMappingValue(p))
  {
    hide Accept, NodeDone, TakesNode, FramesAll, WeightAll, MarkCount, Stacked, ParseNode;
    var g := FramesAll(p.states);
    Top2(g, Value);
    EmptyAccepts(p, FlowSequenceEntryMappingEndS, g + [Item, Value]);
    if p.tokens != [] && Kind0(p.tokens).ValueT? {
      PushAccepts(Skipped(p), FlowSequenceEntryMappingEndS, g + [Item, Value], false, false);
      EmptyAccepts(Skipped(p), FlowSequenceEntryMappingEndS, g + [Item, Value]);
    }
  }

  lemma MappingEndAdvances(p: Parser)
    requires Inv(p) && p.state.FlowSequenceEntryMappingEndS?
    ensures Advances(p, ParseFlowSequenceEntryMappingEnd(p))
  {
    hide Stacked, MarkCount, WeightAll, FramesAll, Accept;
    Top2(FramesAll(p.states), Key);
    LevelEnds(FramesAll(p.states) + [Item], Key, MappingEnd);
  }

  lemma FlowMappingPairFollows(q: Parser)
    requires q.tokens != [] && Stacked(q.states) && |q.marks| == MarkCount(q.states) + 1
    ensures Follows(q, FramesAll(q.states) + [Key], 1, ParseFlowMappingPair(q))
  {
    hide Accept, NodeDone, TakesNode, FramesAll, WeightAll, MarkCount, Stacked, ParseNode;
    var g := FramesAll(q.states);
    Top(g, Key);
    PushAccepts(q, FlowMappingEmptyValueS, g + [Key], false, false);
    if Kind0(q.tokens).KeyT? {
      PushAccepts(Skipped(q), FlowMappingValueS, g + [Key], false, false);
      EmptyAccepts(Skipped(q), FlowMappingValueS, g + [Key]);
    } else if Kind0(q.tokens).FlowMappingEndT? {
      EndAccepts(q.(marks := q.marks[..|q.marks| - 1]), q, Key, MappingEnd);
    }
  }

  lemma FlowMappingKeyAdvances(p0: Parser, first: bool)
    requires Inv(p0) && p0.state == if first then FlowMappingFirstKeyS else FlowMappingKeyS
    ensures Advances(p0, ParseFlowMappingKey(p0, first))
  {
    hide Accept, FramesAll, WeightAll, MarkCount, Stacked, ParseFlowMappingPair, Inv, Grammar, Potential, Entered;
    EntryEntered(p0, first, Key);
    var p := Entered(p0, first);
    if p.tokens != [] {
      if Kind0(p.tokens).FlowMappingEndT? {
        EndAccepts(p.(marks := p.marks[..|p.marks| - 1]), p, Key, MappingEnd);
      } else if PastComma(p, first).Some? {
        FlowMappingPairFollows(PastComma(p, first).value);
      }
    }
  }

  lemma FlowMappingValueAdvances(p: Parser, empty: bool)
    requires Inv(p) && p.state == if empty then FlowMappingEmptyValueS else FlowMappingValueS
    ensures Advances(p, ParseFlowMappingValue(p, empty))
  {
    hide Accept, NodeDone, TakesNode, FramesAll, WeightAll, MarkCount, Stacked, ParseNode;
    var g := FramesAll(p.states);
    Top(g, Value);
    EmptyAccepts(p, FlowMappingKeyS, g + [Value]);
    if p.tokens != [] && !empty && Kind0(p.tokens).ValueT? {
      PushAccepts(Skipped(p), FlowMappingKeyS, g + [Value], false, false);
      EmptyAccepts(Skipped(p), FlowMappingKeyS, g + [Value]);
    }
  }

  lemma StepAdvances(p: Parser)
    requires Inv(p)
    ensures Advances(p, Step(p))
  {
    match p.state
    case StreamStartS => StreamStartAdvances(p);
    case ImplicitDocumentStartS => DocumentStartAdvances(p, true);
    case DocumentStartS => DocumentStartAdvances(p, false);
    case DocumentContentS => DocumentContentAdvances(p);
    case DocumentEndS => DocumentEndAdvances(p);
    case BlockNodeS => BlockNodeAdvances(p);
    case BlockSequenceFirstEntryS => BlockSequenceAdvances(p, true);
    case BlockSequenceEntryS => BlockSequenceAdvances(p, false);
    case IndentlessSequenceEntryS => IndentlessSequenceAdvances(p);
    case BlockMappingFirstKeyS => BlockMappingKeyAdvances(p, true);
    case BlockMappingKeyS => BlockMappingKeyAdvances(p, false);
    case BlockMappingValueS => BlockMappingValueAdvances(p);
    case FlowSequenceFirstEntryS => FlowSequenceAdvances(p, true);
    case FlowSequenceEntryS => FlowSequenceAdvances(p, false);
    case FlowSequenceEntryMappingKeyS => MappingKeyAdvances(p);
    case FlowSequenceEntryMappingValueS => MappingValueAdvances(p);
    case FlowSequenceEntryMappingEndS => MappingEndAdvances(p);
    case FlowMappingFirstKeyS => FlowMappingKeyAdvances(p, true);
    case FlowMappingKeyS => FlowMappingKeyAdvances(p, false);
    case FlowMappingValueS => FlowMappingValueAdvances(p, false);
    case FlowMappingEmptyValueS => FlowMappingValueAdvances(p, true);
    case EndS =>
  }

  /** Only between documents does a step reach the end. */
  lemma EndReached(p: Parser)
    requires Inv(p) && p.state != EndS
    ensures var out := Step(p);
      out.Emit? && out.next.state == EndS ==> p.state.ImplicitDocumentStartS? || p.state.DocumentStartS?
  {
    hide Step, Inv, Potential, Accept, FramesAll;
    StepAdvances(p);
    if Step(p).Emit? && Step(p).next.state == EndS {
      FinishedFromBetween(Grammar(p), Step(p).event);
    }
  }

  lemma FinishedFromBetween(g: Phase, e: Event)
    requires Accept(g, e) == Some(Finished)
    ensures g == Between
  {
  }

  // ---------------------------------------------------------------- whole runs

  /** All the events from `p` on, and whether the end of the stream was reached. */
  datatype Log = Log(events: seq<Event>, last: Parser)

  function Run(p: Parser): Log
    requires Inv(p)
    decreases Potential(p)
  {
    var out := Step(p);
    StepAdvances(p);
    match out
    case Fail => Log([], p)
    case Emit(e, next) =>
      var rest := Run(next);
      Log([e] + rest.events, rest.last)
  }

  lemma {:induction false} RunAccepts(p: Parser)
    requires Inv(p)
    ensures AcceptAll(Grammar(p), Run(p).events) == Some(Grammar(Run(p).last))
    ensures |Run(p).events| <= Potential(p)
    decreases Potential(p)
  {
    StepAdvances(p);
    match Step(p)
    case Fail =>
    case Emit(e, next) =>
      RunAccepts(next);
      AcceptConcat(Grammar(p), [e], Run(next).events);
      AcceptOne(Grammar(p), e);
  }

  function Start(tokens: seq<Token>): Parser {
    Parser(tokens, StreamStartS, [], [], [])
  }

  /** For every token sequence: the events begin some stream of proper documents, there are at
      most four for each token, and if the parser gets to the end they spell a whole stream. */
  lemma EventsObeyGrammar(tokens: seq<Token>)
    ensures AcceptAll(Fresh, Run(Start(tokens)).events).Some? && BeginsStream(Run(Start(tokens)).events)
    ensures |Run(Start(tokens)).events| <= 4 * |tokens|
    ensures Run(Start(tokens)).last.state == EndS ==> IsStream(Run(Start(tokens)).events)
  {
    RunAccepts(Start(tokens));
    FinishedIffStream(Run(Start(tokens)).events);
    AcceptedIffBegins(Run(Start(tokens)).events);
    hide Run, IsStream, AcceptAll, BeginsStream;
  }

  // ---------------------------------------------------------------- the machine in place

  class YamlParser {
    var tokens: seq<Token>
    var state: State
    var states: seq<State>
    var marks: seq<nat>
    var directives: seq<TagDirective>
    var error: bool
    var streamEndProduced: bool

    ghost function View(): Parser
      reads this
    {
      Parser(tokens, state, states, marks, directives)
    }

    /** The call did what `out` says. */
    ghost predicate Did(out: Outcome, event: Option<Event>)
      reads this
    {
      match out
      case Emit(e, next) => event == Some(e) && View() == next && !error && (streamEndProduced ==> next.state == EndS)
      case Fail => event == None && error
    }

    constructor (tokens: seq<Token>)
      ensures View() == Start(tokens) && Inv(View()) && !error && !streamEndProduced
    {
      this.tokens, state, states, marks, directives := tokens, StreamStartS, [], [], [];
      error, streamEndProduced := false, false;
    }

    /** `PEEK_TOKEN`: a scanner that has nothing more to give has failed. */
    method Peek() returns (ok: bool)
      modifies `error
      ensures ok <==> tokens != []
      ensures error == (old(error) || !ok)
    {
      ok := tokens != [];
      if !ok {
        error := true;
      }
    }

    /** `SKIP_TOKEN` */
    method Skip()
      requires tokens != []
      modifies `tokens, `streamEndProduced
      ensures tokens == old(tokens[1..]) && streamEndProduced == old(tokens[0].kind.StreamEndT?)
    {
      streamEndProduced := tokens[0].kind.StreamEndT?;
      tokens := tokens[1..];
    }

    method Pop()
      requires states != []
      modifies `state, `states
      ensures state == old(states[|states| - 1]) && states == old(states[..|states| - 1])
    {
      state := states[|states| - 1];
      states := states[..|states| - 1];
    }

    method PopMark()
      requires marks != []
      modifies `marks
      ensures marks == old(marks[..|marks| - 1])
    {
      marks := marks[..|marks| - 1];
    }

    /** Back to the state below a collection, past its last token. */
    method EndCollection()
      requires tokens != [] && states != [] && marks != []
      modifies `tokens, `state, `states, `marks, `streamEndProduced
      ensures View() == Skipped(Unmarked(Popped(old(View())))) && streamEndProduced == old(tokens[0].kind.StreamEndT?)
    {
      Pop();
      PopMark();
      Skip();
    }

    method Error()
      modifies `error
      ensures error
    {
      error := true;
    }

    /** What holds between calls. */
    ghost predicate Ready()
      reads this
    {
      !error ==> Inv(View()) && (streamEndProduced <==> state == EndS)
    }

    /** `yaml_parser_parse` */
    method Parse() returns (event: Option<Event>)
      requires Ready()
      modifies this
      ensures Ready()
      ensures old(error) || old(state) == EndS ==> event == None && View() == old(View()) && error == old(error)
      ensures !old(error) && old(state) != EndS ==> Did(Step(old(View())), event)
    {
      event := None;
      if streamEndProduced || error || state == EndS {
        return;
      }
      ghost var p := View();
      StepAdvances(p);
      EndReached(p);
      hide Inv, Step, Grammar, Potential;
      event := StateMachine();
    }

    /** `yaml_parser_state_machine` */
    method StateMachine() returns (event: Option<Event>)
      requires Inv(View()) && !error && !streamEndProduced && state != EndS
      modifies this
      ensures Did(Step(old(View())), event)
      ensures old(state).ImplicitDocumentStartS? || old(state).DocumentStartS? ==>
        (state == EndS ==> streamEndProduced || error)
    {
      match state {
        case StreamStartS => event := StreamStartState();
        case ImplicitDocumentStartS => event := DocumentStartState(true);
        case DocumentStartS => event := DocumentStartState(false);
        case DocumentContentS => event := DocumentContentState();
        case DocumentEndS => event := DocumentEndState();
        case BlockNodeS => event := Node(true, false);
        case BlockSequenceFirstEntryS => event := BlockSequenceEntryState(true);
        case BlockSequenceEntryS => event := BlockSequenceEntryState(false);
        case IndentlessSequenceEntryS => event := IndentlessSequenceEntryState();
        case BlockMappingFirstKeyS => event := BlockMappingKeyState(true);
        case BlockMappingKeyS => event := BlockMappingKeyState(false);
        case BlockMappingValueS => event := BlockMappingValueState();
        case FlowSequenceFirstEntryS => event := FlowSequenceEntryState(true);
        case FlowSequenceEntryS => event := FlowSequenceEntryState(false);
        case FlowSequenceEntryMappingKeyS => event := FlowSequenceEntryMappingKeyState();
        case FlowSequenceEntryMappingValueS => event := FlowSequenceEntryMappingValueState();
        case FlowSequenceEntryMappingEndS => event := FlowSequenceEntryMappingEndState();
        case FlowMappingFirstKeyS => event := FlowMappingKeyState(true);
        case FlowMappingKeyS => event := FlowMappingKeyState(false);
        case FlowMappingValueS => event := FlowMappingValueState(false);
        case FlowMappingEmptyValueS => event := FlowMappingValueState(true);
      }
    }

    method StreamStartState() returns (event: Option<Event>)
      requires !error && !streamEndProduced
      modifies this
      ensures Did(ParseStreamStart(old(View())), event)
    {
      event := None;
      var ok := Peek();
      if !ok {
        return;
      }
      if !tokens[0].kind.StreamStartT? {
        Error();
        return;
      }
      state := ImplicitDocumentStartS;
      event := Some(StreamStart);
      Skip();
    }

    /** `yaml_parser_process_directives`, the tag directives going to the parser as they come. */
    method Process() returns (ok: bool, version: Option<Version>, tags: seq<TagDirective>)
      requires !error && !streamEndProduced
      modifies `tokens, `streamEndProduced, `directives, `error
      ensures ok <==> ProcessDirectives(old(tokens), None, [], old(directives)).Some?
      ensures ok == !error && !streamEndProduced
      ensures ok ==>
        ProcessDirectives(old(tokens), None, [], old(directives)) == Some(Directives(version, tags, directives, tokens))
    {
      version, tags := None, [];
      ok := Peek();
      if !ok {
        return;
      }
      while tokens[0].kind.VersionT? || tokens[0].kind.TagDirectiveT?
        invariant !error && !streamEndProduced && tokens != []
        invariant ProcessDirectives(tokens, version, tags, directives) ==
          ProcessDirectives(old(tokens), None, [], old(directives))
        decreases |tokens|
      {
        var k := tokens[0].kind;
        if k.VersionT? {
          if version.Some? || k.version.major != 1 || (k.version.minor != 1 && k.version.minor != 2) {
            Error();
            return false, version, tags;
          }
          version := Some(k.version);
        } else {
          ok := Append(k.directive, false);
          if !ok {
            return;
          }
          tags := tags + [k.directive];
        }
        Skip();
        ok := Peek();
        if !ok {
          return;
        }
      }
      ok := Append(TagDirective(BANG, BANG), true);
      ok := Append(TagDirective(BANG + BANG, YAML_PREFIX), true);
    }

    /** `yaml_parser_append_tag_directive` */
    method Append(d: TagDirective, duplicates: bool) returns (ok: bool)
      modifies `directives, `error
      ensures AppendDirective(old(directives), d, duplicates) == if ok then Some(directives) else None
      ensures error == (old(error) || !ok)
    {
      var i := 0;
      while i < |directives|
        invariant 0 <= i <= |directives|
        invariant forall j :: 0 <= j < i ==> directives[j].handle != d.handle
      {
        if directives[i].handle == d.handle {
          if !duplicates {
            Error();
          }
          return duplicates;
        }
        i := i + 1;
      }
      directives := directives + [d];
      ok := true;
    }

    method SkipDocumentEnds() returns (ok: bool)
      requires !error && !streamEndProduced && tokens != []
      modifies `tokens, `streamEndProduced, `error
      ensures tokens == SkipEnds(old(tokens))
      ensures ok == (tokens != []) && error == !ok && !streamEndProduced
    {
      ok := true;
      while ok && tokens[0].kind.DocumentEndT?
        invariant ok == (tokens != []) && error == !ok && !streamEndProduced
        invariant SkipEnds(tokens) == SkipEnds(old(tokens))
        decreases |tokens|
      {
        Skip();
        ok := Peek();
      }
    }

    method DocumentStartState(implicit: bool) returns (event: Option<Event>)
      requires !error && !streamEndProduced && state != EndS
      modifies this
      ensures Did(ParseDocumentStart(old(View()), implicit), event)
      ensures state == EndS ==> streamEndProduced || error
    {
      hide ProcessDirectives, SkipEnds, WithDefaults;
      event := None;
      var ok := Peek();
      if !ok {
        return;
      }
      if !implicit {
        ok := SkipDocumentEnds();
        if !ok {
          return;
        }
      }
      var k := tokens[0].kind;
      if implicit && !k.VersionT? && !k.TagDirectiveT? && !k.DocumentStartT? && !k.StreamEndT? {
        ImplicitDocument();
        event := Some(DocumentStart(None, [], true));
      } else if !k.StreamEndT? {
        event := ExplicitDocument();
      } else {
        event := Some(StreamEnd);
        EndStream();
      }
    }

    method EndStream()
      requires tokens != [] && tokens[0].kind.StreamEndT?
      modifies `state, `tokens, `streamEndProduced
      ensures View() == Skipped(old(View())).(state := EndS) && streamEndProduced
    {
      state := EndS;
      Skip();
    }

    method ImplicitDocument()
      requires !error && !streamEndProduced && tokens != []
      requires !tokens[0].kind.VersionT? && !tokens[0].kind.TagDirectiveT?
      modifies this
      ensures View() ==
        Pushed(old(View()), DocumentEndS).(state := BlockNodeS, directives := WithDefaults(old(directives)))
      ensures !error && !streamEndProduced
    {
      ghost var v, t;
      var ok;
      ok, v, t := Process();
      states := states + [DocumentEndS];
      state := BlockNodeS;
    }

    method ExplicitDocument() returns (event: Option<Event>)
      requires !error && !streamEndProduced && tokens != [] && state != EndS
      modifies this
      ensures var d := ProcessDirectives(old(tokens), None, [], old(directives));
        if d.None? || !Kind0(d.value.rest).DocumentStartT? then event == None && error
        else
          && event == Some(DocumentStart(d.value.version, d.value.tags, false)) && !error && !streamEndProduced
          && View() == Skipped(Pushed(old(View()), DocumentEndS).(tokens := d.value.rest))
            .(state := DocumentContentS, directives := d.value.all)
      ensures state != EndS
    {
      hide ProcessDirectives;
      event := None;
      var ok, version, tags := Process();
      if !ok {
        return;
      }
      if !tokens[0].kind.DocumentStartT? {
        Error();
        return;
      }
      states := states + [DocumentEndS];
      state := DocumentContentS;
      event := Some(DocumentStart(version, tags, false));
      Skip();
    }

    method DocumentContentState() returns (event: Option<Event>)
      requires !error && !streamEndProduced && states != []
      modifies this
      ensures Did(ParseDocumentContent(old(View())), event)
    {
      event := None;
      var ok := Peek();
      if !ok {
        return;
      }
      if EndsDocument(tokens[0].kind) {
        Pop();
        event := Some(EMPTY);
      } else {
        event := Node(true, false);
      }
    }

    method DocumentEndState() returns (event: Option<Event>)
      requires !error && !streamEndProduced
      modifies this
      ensures Did(ParseDocumentEnd(old(View())), event)
    {
      event := None;
      var implicit := true;
      var ok := Peek();
      if !ok {
        return;
      }
      if tokens[0].kind.DocumentEndT? {
        Skip();
        implicit := false;
      }
      while directives != []
        invariant !error && !streamEndProduced
        invariant View().(directives := []) ==
          (if implicit then old(View()) else Skipped(old(View()))).(directives := [])
        decreases |directives|
      {
        directives := directives[..|directives| - 1];
      }
      state := DocumentStartS;
      event := Some(DocumentEnd(implicit));
    }

    /** `yaml_parser_parse_node` */
    method Node(block: bool, indentless: bool) returns (event: Option<Event>)
      requires !error && !streamEndProduced && states != []
      modifies this
      ensures Did(ParseNode(old(View()), block, indentless), event)
    {
      event := None;
      var ok := Peek();
      if !ok {
        return;
      }
      if tokens[0].kind.AliasT? {
        Pop();
        event := Some(AliasEvent(tokens[0].kind.name));
        Skip();
        return;
      }
      var anchor: Option<Name>, handle: Option<Name>, suffix: Name := None, None, [];
      if tokens[0].kind.AnchorT? {
        anchor := Some(tokens[0].kind.name);
        Skip();
        ok := Peek();
        if !ok {
          return;
        }
        if tokens[0].kind.TagT? {
          handle, suffix := Some(tokens[0].kind.handle), tokens[0].kind.suffix;
          Skip();
          ok := Peek();
          if !ok {
            return;
          }
        }
      } else if tokens[0].kind.TagT? {
        handle, suffix := Some(tokens[0].kind.handle), tokens[0].kind.suffix;
        Skip();
        ok := Peek();
        if !ok {
          return;
        }
        if tokens[0].kind.AnchorT? {
          anchor := Some(tokens[0].kind.name);
          Skip();
          ok := Peek();
          if !ok {
            return;
          }
        }
      }
      var tag: Option<Name> := None;
      if handle.Some? {
        tag := Resolve(handle.value, suffix);
        if tag.None? {
          Error();
          return;
        }
      }
      event := Content(block, indentless, anchor, tag);
    }

    method Resolve(handle: Name, suffix: Name) returns (tag: Option<Name>)
      ensures tag == ResolveTag(directives, handle, suffix)
    {
      if handle == [] {
        return Some(suffix);
      }
      var i := 0;
      while i < |directives|
        invariant 0 <= i <= |directives|
        invariant forall j :: 0 <= j < i ==> directives[j].handle != handle
      {
        if directives[i].handle == handle {
          return Some(directives[i].prefix + suffix);
        }
        i := i + 1;
      }
      tag := None;
    }

    method Content(block: bool, indentless: bool, anchor: Option<Name>, tag: Option<Name>)
      returns (event: Option<Event>)
      requires !error && !streamEndProduced && states != [] && tokens != []
      modifies this
      ensures Did(ParseContent(old(View()), block, indentless, anchor, tag), event)
    {
      event := None;
      var implicit := tag.None? || tag.value == [];
      var k := tokens[0].kind;
      if indentless && k.BlockEntryT? {
        state := IndentlessSequenceEntryS;
        event := Some(SequenceStart(anchor, tag, implicit, false));
      } else if k.ScalarT? {
        var plain, quoted := false, false;
        if (k.style == Plain && tag.None?) || (tag.Some? && tag.value == BANG) {
          plain := true;
        } else if tag.None? {
          quoted := true;
        }
        Pop();
        event := Some(ScalarEvent(anchor, tag, k.value, plain, quoted, k.style));
        Skip();
      } else if k.FlowSequenceStartT? {
        state := FlowSequenceFirstEntryS;
        event := Some(SequenceStart(anchor, tag, implicit, true));
      } else if k.FlowMappingStartT? {
        state := FlowMappingFirstKeyS;
        event := Some(MappingStart(anchor, tag, implicit, true));
      } else if block && k.BlockSequenceStartT? {
        state := BlockSequenceFirstEntryS;
        event := Some(SequenceStart(anchor, tag, implicit, false));
      } else if block && k.BlockMappingStartT? {
        state := BlockMappingFirstKeyS;
        event := Some(MappingStart(anchor, tag, implicit, false));
      } else if anchor.Some? || tag.Some? {
        Pop();
        event := Some(ScalarEvent(anchor, tag, [], implicit, false, Plain));
      } else {
        Error();
      }
    }

    /** The first call in a collection notes its mark and skips its opening token. */
    method Enter(first: bool)
      requires !streamEndProduced && (first ==> tokens != [] && !tokens[0].kind.StreamEndT?)
      modifies `marks, `tokens, `streamEndProduced
      ensures View() == Entered(old(View()), first) && !streamEndProduced
    {
      if first {
        marks := marks + [tokens[0].mark];
        Skip();
      }
    }

    method BlockSequenceEntryState(first: bool) returns (event: Option<Event>)
      requires !error && !streamEndProduced && states != []
      requires if first then tokens != [] && !tokens[0].kind.StreamEndT? else marks != []
      modifies this
      ensures Did(ParseBlockSequenceEntry(old(View()), first), event)
    {
      hide Popped, Unmarked;
      hide ParseNode;
      event := None;
      Enter(first);
      var ok := Peek();
      if !ok {
        return;
      }
      if tokens[0].kind.BlockEntryT? {
        Skip();
        ok := Peek();
        if !ok {
          return;
        }
        if !tokens[0].kind.BlockEntryT? && !tokens[0].kind.BlockEndT? {
          states := states + [BlockSequenceEntryS];
          event := Node(true, false);
        } else {
          state := BlockSequenceEntryS;
          event := Some(EMPTY);
        }
      } else if tokens[0].kind.BlockEndT? {
        event := Some(SequenceEnd);
        EndCollection();
      } else {
        PopMark();
        Error();
      }
    }

    method IndentlessSequenceEntryState() returns (event: Option<Event>)
      requires !error && !streamEndProduced && states != []
      modifies this
      ensures Did(ParseIndentlessSequenceEntry(old(View())), event)
    {
      event := None;
      var ok := Peek();
      if !ok {
        return;
      }
      if tokens[0].kind.BlockEntryT? {
        Skip();
        ok := Peek();
        if !ok {
          return;
        }
        var k := tokens[0].kind;
        if !k.BlockEntryT? && !k.KeyT? && !k.ValueT? && !k.BlockEndT? {
          states := states + [IndentlessSequenceEntryS];
          event := Node(true, false);
        } else {
          state := IndentlessSequenceEntryS;
          event := Some(EMPTY);
        }
      } else {
        Pop();
        event := Some(SequenceEnd);
      }
    }

    method BlockMappingKeyState(first: bool) returns (event: Option<Event>)
      requires !error && !streamEndProduced && states != []
      requires if first then tokens != [] && !tokens[0].kind.StreamEndT? else marks != []
      modifies this
      ensures Did(ParseBlockMappingKey(old(View()), first), event)
    {
      hide ParseNode;
      event := None;
      Enter(first);
      var ok := Peek();
      if !ok {
        return;
      }
      if tokens[0].kind.KeyT? {
        Skip();
        ok := Peek();
        if !ok {
          return;
        }
        var k := tokens[0].kind;
        if !k.KeyT? && !k.ValueT? && !k.BlockEndT? {
          states := states + [BlockMappingValueS];
          event := Node(true, true);
        } else {
          state := BlockMappingValueS;
          event := Some(EMPTY);
        }
      } else if tokens[0].kind.BlockEndT? {
        event := Some(MappingEnd);
        EndCollection();
      } else {
        PopMark();
        Error();
      }
    }

    method BlockMappingValueState() returns (event: Option<Event>)
      requires !error && !streamEndProduced && states != []
      modifies this
      ensures Did(ParseBlockMappingValue(old(View())), event)
    {
      event := None;
      var ok := Peek();
      if !ok {
        return;
      }
      if tokens[0].kind.ValueT? {
        Skip();
        ok := Peek();
        if !ok {
          return;
        }
        var k := tokens[0].kind;
        if !k.KeyT? && !k.ValueT? && !k.BlockEndT? {
          states := states + [BlockMappingKeyS];
          event := Node(true, true);
        } else {
          state := BlockMappingKeyS;
          event := Some(EMPTY);
        }
      } else {
        state := BlockMappingKeyS;
        event := Some(EMPTY);
      }
    }

    method FlowSequenceEntryState(first: bool) returns (event: Option<Event>)
      requires !error && !streamEndProduced && states != []
      requires if first then tokens != [] && !tokens[0].kind.StreamEndT? else marks != []
      modifies this
      ensures Did(ParseFlowSequenceEntry(old(View()), first), event)
    {
      hide ParseNode;
      event := None;
      Enter(first);
      var ok := Peek();
      if !ok {
        return;
      }
      if !tokens[0].kind.FlowSequenceEndT? {
        if !first {
          if tokens[0].kind.FlowEntryT? {
            Skip();
            ok := Peek();
            if !ok {
              return;
            }
          } else {
            PopMark();
            Error();
            return;
          }
        }
        if tokens[0].kind.KeyT? {
          state := FlowSequenceEntryMappingKeyS;
          event := Some(MappingStart(None, None, true, true));
          Skip();
          return;
        } else if !tokens[0].kind.FlowSequenceEndT? {
          states := states + [FlowSequenceEntryS];
          event := Node(false, false);
          return;
        }
      }
      event := Some(SequenceEnd);
      EndCollection();
    }

    method FlowSequenceEntryMappingKeyState() returns (event: Option<Event>)
      requires !error && !streamEndProduced && states != []
      modifies this
      ensures Did(ParseFlowSequenceEntryMappingKey(old(View())), event)
    {
      event := None;
      var ok := Peek();
      if !ok {
        return;
      }
      var k := tokens[0].kind;
      if !k.ValueT? && !k.FlowEntryT? && !k.FlowSequenceEndT? {
        states := states + [FlowSequenceEntryMappingValueS];
        event := Node(false, false);
      } else {
        Skip();
        state := FlowSequenceEntryMappingValueS;
        event := Some(EMPTY);
      }
    }

    method FlowSequenceEntryMappingValueState() returns (event: Option<Event>)
      requires !error && !streamEndProduced && states != []
      modifies this
      ensures Did(ParseFlowSequenceEntryMappingValue(old(View())), event)
    {
      event := None;
      var ok := Peek();
      if !ok {
        return;
      }
      if tokens[0].kind.ValueT? {
        Skip();
        ok := Peek();
        if !ok {
          return;
        }
        if !tokens[0].kind.FlowEntryT? && !tokens[0].kind.FlowSequenceEndT? {
          states := states + [FlowSequenceEntryMappingEndS];
          event := Node(false, false);
          return;
        }
      }
      state := FlowSequenceEntryMappingEndS;
      event := Some(EMPTY);
    }

    method FlowSequenceEntryMappingEndState() returns (event: Option<Event>)
      requires !error && !streamEndProduced
      modifies this
      ensures Did(ParseFlowSequenceEntryMappingEnd(old(View())), event)
    {
      event := None;
      var ok := Peek();
      if !ok {
        return;
      }
      state := FlowSequenceEntryS;
      event := Some(MappingEnd);
    }

    method FlowMappingKeyState(first: bool) returns (event: Option<Event>)
      requires !error && !streamEndProduced && states != []
      requires if first then tokens != [] && !tokens[0].kind.StreamEndT? else marks != []
      modifies this
      ensures Did(ParseFlowMappingKey(old(View()), first), event)
    {
      hide ParseNode;
      event := None;
      Enter(first);
      var ok := Peek();
      if !ok {
        return;
      }
      if !tokens[0].kind.FlowMappingEndT? {
        if !first {
          if tokens[0].kind.FlowEntryT? {
            Skip();
            ok := Peek();
            if !ok {
              return;
            }
          } else {
            PopMark();
            Error();
            return;
          }
        }
      }
      event := FlowMappingPair();
    }

    /** A pair of a flow mapping, or its end. */
    method FlowMappingPair() returns (event: Option<Event>)
      requires !error && !streamEndProduced && tokens != [] && states != [] && marks != []
      modifies this
      ensures Did(ParseFlowMappingPair(old(View())), event)
    {
      hide ParseNode;
      event := None;
      if tokens[0].kind.KeyT? {
        Skip();
        var ok := Peek();
        if !ok {
          return;
        }
        var k := tokens[0].kind;
        if !k.ValueT? && !k.FlowEntryT? && !k.FlowMappingEndT? {
          states := states + [FlowMappingValueS];
          event := Node(false, false);
        } else {
          state := FlowMappingValueS;
          event := Some(EMPTY);
        }
      } else if !tokens[0].kind.FlowMappingEndT? {
        states := states + [FlowMappingEmptyValueS];
        event := Node(false, false);
      } else {
        event := Some(MappingEnd);
        EndCollection();
      }
    }

    method FlowMappingValueState(empty: bool) returns (event: Option<Event>)
      requires !error && !streamEndProduced && states != []
      modifies this
      ensures Did(ParseFlowMappingValue(old(View()), empty), event)
    {
      event := None;
      var ok := Peek();
      if !ok {
        return;
      }
      if empty {
        state := FlowMappingKeyS;
        event := Some(EMPTY);
        return;
      }
      if tokens[0].kind.ValueT? {
        Skip();
        ok := Peek();
        if !ok {
          return;
        }
        if !tokens[0].kind.FlowEntryT? && !tokens[0].kind.FlowMappingEndT? {
          states := states + [FlowMappingKeyS];
          event := Node(false, false);
          return;
        }
      }
      state := FlowMappingKeyS;
      event := Some(EMPTY);
    }
  }
}
