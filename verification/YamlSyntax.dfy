/**
 YAML as trees of what is written: the tokens that spell a tree, and the tree of events it
 means. The productions are those that head `parser.c`, and no function of the parser is used.
 */
module YamlSyntax {
  import opened Bytes
  import opened YamlEvents
  import opened YamlTokens

  datatype Form = BlockSequence | Indentless | BlockMapping | FlowSequence | FlowMapping

  predicate IsFlow(form: Form) {
    form.FlowSequence? || form.FlowMapping?
  }

  predicate IsMapping(form: Form) {
    form.BlockMapping? || form.FlowMapping?
  }

  /** A node: left out, an alias, a scalar, properties without content, or a collection, which
      in flow form may have a comma behind its last entry. */
  datatype Node =
    | Missing
    | AliasTo(name: Name)
    | Word(props: seq<Kind>, value: Name, style: ScalarStyle)
    | Blank(props: seq<Kind>)
    | Group(form: Form, props: seq<Kind>, entries: seq<Entry>, trailing: bool)

  /** An entry: an item (in a flow mapping, a key without KEY), a key and its value (in a flow
      sequence, a mapping of one pair), or a KEY without VALUE. */
  datatype Entry = Item(node: Node) | Pair(key: Node, value: Node) | KeyOnly(key: Node)

  // ---------------------------------------------------------------- tokens

  function Opening(form: Form): seq<Kind> {
    match form
    case BlockSequence => [BlockSequenceStartT]
    case Indentless => []
    case BlockMapping => [BlockMappingStartT]
    case FlowSequence => [FlowSequenceStartT]
    case FlowMapping => [FlowMappingStartT]
  }

  function Closing(form: Form): seq<Kind> {
    match form
    case BlockSequence => [BlockEndT]
    case Indentless => []
    case BlockMapping => [BlockEndT]
    case FlowSequence => [FlowSequenceEndT]
    case FlowMapping => [FlowMappingEndT]
  }

  function NodeKinds(t: Node): seq<Kind>
    decreases t
  {
    match t
    case Missing => []
    case AliasTo(name) => [AliasT(name)]
    case Word(props, value, style) => props + [ScalarT(value, style)]
    case Blank(props) => props
    case Group(form, props, entries, trailing) =>
      props + Opening(form) + EntriesKinds(form, entries) + (if trailing then [FlowEntryT] else []) + Closing(form)
  }

  function EntryKinds(form: Form, e: Entry): seq<Kind>
    decreases e
  {
    match e
    case Item(node) => (if form.BlockSequence? || form.Indentless? then [BlockEntryT] else []) + NodeKinds(node)
    case Pair(key, value) => [KeyT] + NodeKinds(key) + [ValueT] + NodeKinds(value)
    case KeyOnly(key) => [KeyT] + NodeKinds(key)
  }

  /** Entries one after the other, in flow form with commas between them. */
  function EntriesKinds(form: Form, entries: seq<Entry>): seq<Kind>
    decreases entries
  {
    if entries == [] then []
    else
      var n := |entries| - 1;
      EntriesKinds(form, entries[..n]) + (if n > 0 && IsFlow(form) then [FlowEntryT] else [])
      + EntryKinds(form, entries[n])
  }

  // ---------------------------------------------------------------- which trees are written

  /** The prefixes that tag handles stand for. */
  type Scope = map<Name, Name>

  /** The handles declared by `tags`, besides `!` and `!!`. */
  function ScopeOf(tags: seq<TagDirective>): Scope {
    if tags == [] then map[Ascii("!") := Ascii("!"), Ascii("!!") := Ascii("tag:yaml.org,2002:")]
    else ScopeOf(tags[..|tags| - 1])[tags[|tags| - 1].handle := tags[|tags| - 1].prefix]
  }

  /** At most one anchor and one tag, in any order; a tag's handle, if it has one, is known. */
  predicate WritableProps(props: seq<Kind>, scope: Scope) {
    && |props| <= 2 && (forall i :: 0 <= i < |props| ==> props[i].AnchorT? || props[i].TagT?)
    && (|props| == 2 ==> (props[0].AnchorT? <==> props[1].TagT?))
    && forall i :: 0 <= i < |props| && props[i].TagT? ==> props[i].handle == [] || props[i].handle in scope
  }

  /** `block` allows block collections, `indentless` a block sequence without indentation, as a
      block mapping's keys and values may be. */
  predicate Writable(t: Node, scope: Scope, block: bool, indentless: bool)
    decreases t, 0
  {
    match t
    case Missing => false
    case AliasTo(_) => true
    case Word(props, _, _) => WritableProps(props, scope)
    case Blank(props) => WritableProps(props, scope) && props != []
    case Group(form, props, entries, trailing) =>
      && WritableProps(props, scope) && (IsFlow(form) || block)
      && (form.Indentless? ==> indentless && entries != []) && (trailing ==> IsFlow(form) && entries != [])
      && forall i :: 0 <= i < |entries| ==> WritableEntry(form, entries[i], scope)
  }

  predicate WritableSlot(t: Node, scope: Scope, block: bool, indentless: bool)
    decreases t, 1
  {
    t.Missing? || Writable(t, scope, block, indentless)
  }

  /** An entry of a flow sequence may leave out a value, but neither the item nor, in a pair,
      the key: of the productions, that is the one the parser does not follow. */
  predicate WritableEntry(form: Form, e: Entry, scope: Scope)
    decreases e, 0
  {
    match form
    case BlockSequence => e.Item? && WritableSlot(e.node, scope, true, false)
    case Indentless => e.Item? && WritableSlot(e.node, scope, true, false)
    case BlockMapping =>
      !e.Item? && WritableSlot(e.key, scope, true, true) && (e.Pair? ==> WritableSlot(e.value, scope, true, true))
    case FlowSequence =>
      if e.Item? then Writable(e.node, scope, false, false)
      else Writable(e.key, scope, false, false) && (e.Pair? ==> WritableSlot(e.value, scope, false, false))
    case FlowMapping =>
      if e.Item? then Writable(e.node, scope, false, false)
      else WritableSlot(e.key, scope, false, false) && (e.Pair? ==> WritableSlot(e.value, scope, false, false))
  }

  // ---------------------------------------------------------------- what they mean

  function AnchorOf(props: seq<Kind>): Option<Name> {
    if props == [] then None else if props[0].AnchorT? then Some(props[0].name) else AnchorOf(props[1..])
  }

  /** The tag: the suffix behind what its handle stands for. */
  function TagOf(props: seq<Kind>, scope: Scope): Option<Name> {
    if props == [] then None
    else if props[0].TagT? then
      Some((if props[0].handle in scope && props[0].handle != [] then scope[props[0].handle] else []) + props[0].suffix)
    else TagOf(props[1..], scope)
  }

  predicate Untagged(tag: Option<Name>) {
    tag == None || tag == Some([])
  }

  const NOTHING: Tree := Leaf(ScalarEvent(None, None, [], true, false, Plain))

  /** The tree of events: a node left out is an empty plain scalar; a scalar's tag may be left
      out if it is plain, or is `!`, and, for the quoted form, if it has none. */
  function Meaning(t: Node, scope: Scope): Tree
    decreases t
  {
    match t
    case Missing => NOTHING
    case AliasTo(name) => Leaf(AliasEvent(name))
    case Word(props, value, style) =>
      var tag := TagOf(props, scope);
      var plain := (style == Plain && tag == None) || tag == Some(Ascii("!"));
      Leaf(ScalarEvent(AnchorOf(props), tag, value, plain, !plain && tag == None, style))
    case Blank(props) =>
      var tag := TagOf(props, scope);
      Leaf(ScalarEvent(AnchorOf(props), tag, [], Untagged(tag), false, Plain))
    case Group(form, props, entries, _) =>
      var anchor, tag := AnchorOf(props), TagOf(props, scope);
      var start := if IsMapping(form) then MappingStart(anchor, tag, Untagged(tag), IsFlow(form))
        else SequenceStart(anchor, tag, Untagged(tag), IsFlow(form));
      Collection(start, Meanings(form, entries, scope))
  }

  function EntryMeaning(form: Form, e: Entry, scope: Scope): seq<Tree>
    decreases e
  {
    match e
    case Item(node) => [Meaning(node, scope)] + if IsMapping(form) then [NOTHING] else []
    case Pair(key, value) => OnePair(form, Meaning(key, scope), Meaning(value, scope))
    case KeyOnly(key) => OnePair(form, Meaning(key, scope), NOTHING)
  }

  /** A pair of a mapping, or a mapping of one pair. */
  function OnePair(form: Form, key: Tree, value: Tree): seq<Tree> {
    if IsMapping(form) then [key, value] else [Collection(MappingStart(None, None, true, true), [key, value])]
  }

  function Meanings(form: Form, entries: seq<Entry>, scope: Scope): seq<Tree>
    decreases entries
  {
    if entries == [] then []
    else Meanings(form, entries[..|entries| - 1], scope) + EntryMeaning(form, entries[|entries| - 1], scope)
  }

  // ---------------------------------------------------------------- documents

  /** A document as it is written: directives and DOCUMENT-START unless it is implicit, its root,
      and any number of DOCUMENT-ENDs. */
  datatype Written = Written(explicit: bool, heads: seq<Kind>, root: Node, ends: nat)

  function TagsIn(heads: seq<Kind>): seq<TagDirective> {
    if heads == [] then []
    else (if heads[0].TagDirectiveT? then [heads[0].directive] else []) + TagsIn(heads[1..])
  }

  function VersionIn(heads: seq<Kind>): Option<Version> {
    if heads == [] then None
    else if heads[0].VersionT? then Some(heads[0].version) else VersionIn(heads[1..])
  }

  /** Directives: one version at most, which is 1.1 or 1.2, and no handle twice. */
  predicate WritableHeads(heads: seq<Kind>) {
    && (forall i :: 0 <= i < |heads| ==>
          heads[i].TagDirectiveT? || heads[i] == VersionT(Version(1, 1)) || heads[i] == VersionT(Version(1, 2)))
    && forall i, j :: 0 <= i < j < |heads| ==> TogetherIn(heads[i], heads[j])
  }

  predicate TogetherIn(a: Kind, b: Kind) {
    && !(a.VersionT? && b.VersionT?)
    && (a.TagDirectiveT? && b.TagDirectiveT? ==> a.directive.handle != b.directive.handle)
  }

  /** Only the first document may be implicit; then it has no directives, and a root. */
  predicate WritableDocument(d: Written, first: bool) {
    && (!d.explicit ==> first && d.heads == [] && !d.root.Missing?)
    && WritableHeads(d.heads) && WritableSlot(d.root, ScopeOf(TagsIn(d.heads)), true, false)
  }

  function Times(n: nat, k: Kind): seq<Kind> {
    if n == 0 then [] else [k] + Times(n - 1, k)
  }

  function WrittenKinds(d: Written): seq<Kind> {
    (if d.explicit then d.heads + [DocumentStartT] else []) + NodeKinds(d.root) + Times(d.ends, DocumentEndT)
  }

  function WrittenMeaning(d: Written): Document {
    Document(DocumentStart(VersionIn(d.heads), TagsIn(d.heads), !d.explicit),
             Meaning(d.root, ScopeOf(TagsIn(d.heads))), DocumentEnd(d.ends == 0))
  }

  function AllKinds(docs: seq<Written>): seq<Kind> {
    if docs == [] then [] else AllKinds(docs[..|docs| - 1]) + WrittenKinds(docs[|docs| - 1])
  }

  function AllMeaning(docs: seq<Written>): seq<Document> {
    if docs == [] then [] else AllMeaning(docs[..|docs| - 1]) + [WrittenMeaning(docs[|docs| - 1])]
  }

  predicate WritableAll(docs: seq<Written>) {
    forall i :: 0 <= i < |docs| ==> WritableDocument(docs[i], i == 0)
  }

  /** The tokens of a whole stream. */
  function StreamKinds(docs: seq<Written>): seq<Kind> {
    [StreamStartT] + AllKinds(docs) + [StreamEndT]
  }
}
