/**
 Trees as they lie in a text: every node with its lexemes, and what indentation, lines and
 positions must be like for them to be that tree. Only the lexemes are looked at, no function
 of the scanner is used.
 */
module YamlLayout {
  import opened Bytes
  import opened YamlTokens
  import opened YamlSyntax
  import opened YamlScanner

  /** A node that is left out, an alias, a scalar, properties alone, or a collection. */
  datatype Laid =
    | NoNode
    | Sole(x: Lexeme)
    | Words(props: seq<Lexeme>, x: Lexeme)
    | Marked(props: seq<Lexeme>)
    | Block(form: Form, props: seq<Lexeme>, entries: seq<Line>)
    | Flow(form: Form, props: seq<Lexeme>, start: Lexeme, entries: seq<Line>, comma: seq<Lexeme>, end: Lexeme)

  /** An entry, behind its dash or comma if it has one: an item, a simple key with its value, or
      a key behind a question mark, maybe with a value. */
  datatype Line =
    | OnItem(lead: seq<Lexeme>, node: Laid)
    | OnPair(lead: seq<Lexeme>, key: Laid, colon: Lexeme, value: Laid)
    | OnKey(lead: seq<Lexeme>, question: Lexeme, key: Laid, colons: seq<Lexeme>, value: Laid)

  // ---------------------------------------------------------------- the lexemes, and the tree

  function Lexemes(t: Laid): seq<Lexeme>
    decreases t
  {
    match t
    case NoNode => []
    case Sole(x) => [x]
    case Words(props, x) => props + [x]
    case Marked(props) => props
    case Block(_, props, entries) => props + LinesLexemes(entries)
    case Flow(_, props, start, entries, comma, end) => props + ([start] + LinesLexemes(entries) + comma + [end])
  }

  function LineLexemes(e: Line): seq<Lexeme>
    decreases e
  {
    match e
    case OnItem(lead, node) => lead + Lexemes(node)
    case OnPair(lead, key, colon, value) => lead + Lexemes(key) + [colon] + Lexemes(value)
    case OnKey(lead, question, key, colons, value) => lead + [question] + Lexemes(key) + colons + Lexemes(value)
  }

  function LinesLexemes(entries: seq<Line>): seq<Lexeme>
    decreases entries
  {
    if entries == [] then []
    else LinesLexemes(entries[..|entries| - 1]) + LineLexemes(entries[|entries| - 1])
  }

  function LexemeKinds(xs: seq<Lexeme>): (ks: seq<Kind>)
    ensures |ks| == |xs| && forall i :: 0 <= i < |xs| ==> ks[i] == xs[i].kind
  {
    seq(|xs|, i requires 0 <= i < |xs| => xs[i].kind)
  }

  /** The tree that lies there. */
  function Erased(t: Laid): Node
    decreases t
  {
    match t
    case NoNode => Missing
    case Sole(x) => if x.kind.AliasT? then AliasTo(x.kind.name) else Missing
    case Words(props, x) =>
      if x.kind.ScalarT? then Node.Word(LexemeKinds(props), x.kind.value, x.kind.style) else Missing
    case Marked(props) => Blank(LexemeKinds(props))
    case Block(form, props, entries) => Group(form, LexemeKinds(props), ErasedLines(entries), false)
    case Flow(form, props, _, entries, comma, _) => Group(form, LexemeKinds(props), ErasedLines(entries), comma != [])
  }

  function ErasedLine(e: Line): Entry
    decreases e
  {
    match e
    case OnItem(_, node) => Item(Erased(node))
    case OnPair(_, key, _, value) => Pair(Erased(key), Erased(value))
    case OnKey(_, _, key, colons, value) => if colons == [] then KeyOnly(Erased(key))
      else Pair(Erased(key), Erased(value))
  }

  function ErasedLines(entries: seq<Line>): (es: seq<Entry>)
    ensures |es| == |entries|
    decreases entries
  {
    if entries == [] then []
    else ErasedLines(entries[..|entries| - 1]) + [ErasedLine(entries[|entries| - 1])]
  }

  // ---------------------------------------------------------------- inside brackets

  /** Anchors and tags; no line break is eaten behind them. */
  predicate AreProps(props: seq<Lexeme>) {
    forall i :: 0 <= i < |props| ==>
      props[i].glyph.Word? && (props[i].kind.AnchorT? || props[i].kind.TagT?) && !props[i].reopens
  }

  predicate IsAlias(x: Lexeme) {
    x.glyph.Word? && x.kind.AliasT?
  }

  predicate IsWord(x: Lexeme) {
    x.glyph.Word? && x.kind.ScalarT?
  }

  /** The ':' behind a simple key: on the line the key began on, within 1024 characters. */
  predicate KeyFits(key: seq<Lexeme>, colon: Lexeme) {
    && key != [] && colon.glyph.Colon? && colon.start.line == key[0].start.line
    && colon.start.index <= key[0].start.index + 1024
  }

  predicate Bracketed(form: Form, start: Lexeme, entries: seq<Line>, comma: seq<Lexeme>, end: Lexeme) {
    && IsFlow(form) && start.glyph.FlowOpen? && [start.kind] == Opening(form)
    && end.glyph.FlowClose? && [end.kind] == Closing(form)
    && (comma == [] || (|comma| == 1 && comma[0].glyph.Comma? && entries != []))
  }

  /** A node between brackets, where lines and columns do not matter but for simple keys. */
  predicate InFlow(t: Laid)
    decreases t, 0
  {
    match t
    case NoNode => false
    case Sole(x) => IsAlias(x)
    case Words(props, x) => AreProps(props) && IsWord(x)
    case Marked(props) => AreProps(props) && props != []
    case Block(_, _, _) => false
    case Flow(form, props, start, entries, comma, end) =>
      && AreProps(props) && Bracketed(form, start, entries, comma, end)
      && forall i :: 0 <= i < |entries| ==> LineInFlow(entries[i], i == 0)
  }

  predicate SlotInFlow(t: Laid)
    decreases t, 1
  {
    t.NoNode? || InFlow(t)
  }

  /** An entry between brackets, behind its comma. */
  predicate LineInFlow(e: Line, first: bool)
    decreases e, 2
  {
    && (if first then e.lead == [] else |e.lead| == 1 && e.lead[0].glyph.Comma?)
    && match e
       case OnItem(_, node) => InFlow(node)
       case OnPair(_, key, colon, value) => InFlow(key) && KeyFits(Lexemes(key), colon) && SlotInFlow(value)
       case OnKey(_, question, key, colons, value) =>
         && question.glyph.Question? && SlotInFlow(key)
         && if colons == [] then value.NoNode? else |colons| == 1 && colons[0].glyph.Colon? && SlotInFlow(value)
  }

  // ---------------------------------------------------------------- outside brackets

  /** Deeper than the collection around. */
  predicate Indented(xs: seq<Lexeme>, indent: int) {
    forall i :: 0 <= i < |xs| ==> xs[i].start.column > indent
  }

  /** Whether a key or a dash may come right behind the node, without a line break, `open` saying
      whether it might have come where the node does. */
  predicate OpenAfter(t: Laid, open: bool)
    decreases t
  {
    match t
    case NoNode => open
    case Sole(x) => x.reopens
    case Words(_, x) => x.glyph.BlockText? || x.reopens
    case Marked(_) => false
    case Block(_, _, entries) => entries != [] && OpenAfterLine(entries[|entries| - 1])
    case Flow(_, _, _, _, _, _) => false
  }

  predicate OpenAfterLine(e: Line)
    decreases e
  {
    match e
    case OnItem(_, node) => OpenAfter(node, true)
    case OnPair(_, _, _, value) => OpenAfter(value, false)
    case OnKey(_, _, key, colons, value) => if colons == [] then OpenAfter(key, true) else OpenAfter(value, true)
  }

  predicate OpenBefore(entries: seq<Line>, i: nat, open: bool)
    requires i <= |entries|
  {
    if i > 0 then OpenAfterLine(entries[i - 1]) else open
  }

  /** All on the line of the first. */
  predicate OneLine(xs: seq<Lexeme>) {
    forall i :: 0 < i < |xs| ==> !xs[i].newline
  }

  /** The column at which a block collection's entries begin. */
  function ColumnOf(entries: seq<Line>): nat {
    var xs := LinesLexemes(entries);
    if xs == [] then 0 else xs[0].start.column
  }

  /** A node in block context: what it is made of is deeper than the collection around. A block
      collection's entries all begin at one column, which is deeper too, or is the same for a
      sequence without indentation. */
  predicate InBlock(t: Laid, indent: int, open: bool, indentless: bool)
    decreases t, 0
  {
    match t
    case NoNode => true
    case Sole(x) => IsAlias(x) && Indented([x], indent)
    case Words(props, x) =>
      AreProps(props) && (IsWord(x) || (x.glyph.BlockText? && x.kind.ScalarT?)) && Indented(props + [x], indent)
    case Marked(props) => AreProps(props) && props != [] && Indented(props, indent)
    case Flow(_, props, start, _, _, _) => InFlow(t) && Indented(props + [start], indent)
    case Block(form, props, entries) =>
      var c := ColumnOf(entries);
      && AreProps(props) && Indented(props, indent) && entries != [] && !IsFlow(form)
      && (if form.Indentless? then indentless && c == indent else c > indent)
      && LinesAt(form, entries, c, open && props == [])
  }

  /** Entries at column `c`, one after the other. */
  predicate LinesAt(form: Form, entries: seq<Line>, c: nat, open: bool)
    decreases entries, 3
  {
    forall i :: 0 <= i < |entries| ==> LineInBlock(form, entries[i], c, OpenBefore(entries, i, open))
  }

  /** An entry of a block collection at column `c`. It begins a line, or comes where `open` lets
      it. The ':' behind a '?' begins a line of its own. */
  predicate LineInBlock(form: Form, e: Line, c: nat, open: bool)
    decreases e, 2
  {
    match e
    case OnItem(lead, node) =>
      && (form.BlockSequence? || form.Indentless?) && |lead| == 1 && lead[0].glyph.Dash?
      && lead[0].start.column == c && (open || lead[0].newline) && InBlock(node, c, true, false)
    case OnPair(lead, key, colon, value) =>
      var xs := Lexemes(key);
      && form.BlockMapping? && lead == [] && InFlow(key) && KeyFits(xs, colon) && OneLine(xs)
      && xs[0].start.column == c && (open || xs[0].newline) && InBlock(value, c, false, true)
    case OnKey(lead, question, key, colons, value) =>
      && form.BlockMapping? && lead == [] && question.glyph.Question?
      && question.start.column == c && (open || question.newline) && InBlock(key, c, true, true)
      && if colons == [] then value.NoNode?
         else
           && |colons| == 1 && colons[0].glyph.Colon? && colons[0].start.column == c
           && (OpenAfter(key, true) || colons[0].newline) && LaterLine(Lexemes(key), colons[0])
           && InBlock(value, c, true, true)
  }

  predicate LaterLine(xs: seq<Lexeme>, x: Lexeme) {
    xs != [] ==> xs[|xs| - 1].start.line < x.start.line
  }

  // ---------------------------------------------------------------- documents

  /** A document: directives and the '---' behind them, the root, and any number of '...'. */
  datatype Page = Page(heads: seq<Lexeme>, start: seq<Lexeme>, root: Laid, ends: seq<Lexeme>)

  predicate AllMarks(xs: seq<Lexeme>, kind: Kind) {
    forall i :: 0 <= i < |xs| ==> xs[i].glyph.DocumentMark? && xs[i].kind == kind
  }

  /** Only the first document may do without '---'. */
  predicate OnPage(d: Page, first: bool) {
    && (forall i :: 0 <= i < |d.heads| ==> d.heads[i].glyph.DirectiveLine?)
    && AllMarks(d.start, DocumentStartT) && (|d.start| == 1 || (d.start == d.heads == [] && first))
    && InBlock(d.root, -1, d.start == [], false) && AllMarks(d.ends, DocumentEndT)
  }

  function PageLexemes(d: Page): seq<Lexeme> {
    d.heads + d.start + Lexemes(d.root) + d.ends
  }

  function PagesLexemes(docs: seq<Page>): seq<Lexeme> {
    if docs == [] then [] else PagesLexemes(docs[..|docs| - 1]) + PageLexemes(docs[|docs| - 1])
  }

  predicate OnPages(docs: seq<Page>) {
    forall i :: 0 <= i < |docs| ==> OnPage(docs[i], i == 0)
  }

  function ErasedPage(d: Page): Written {
    Written(d.start != [], LexemeKinds(d.heads), Erased(d.root), |d.ends|)
  }

  function ErasedPages(docs: seq<Page>): seq<Written> {
    if docs == [] then [] else ErasedPages(docs[..|docs| - 1]) + [ErasedPage(docs[|docs| - 1])]
  }
}
