/**
 From lexemes to events: what the scanner makes of documents that lie in a text, the parser reads
 as what those documents mean.
 */
module YamlReading {
  import opened Bytes
  import opened YamlEvents
  import opened YamlTokens
  import opened YamlSyntax
  import opened YamlLayout
  import Scanning = YamlScanner
  import Scanned = YamlScanned
  import Parsing = YamlParser
  import Complete = YamlComplete

  /** The tokens as the parser gets them. */
  function Handed(ts: seq<Scanning.Queued>): (r: seq<Token>)
    ensures |r| == |ts| && forall i :: 0 <= i < |ts| ==> r[i].kind == ts[i].kind
  {
    seq(|ts|, i requires 0 <= i < |ts| => Token(ts[i].kind, ts[i].mark.index))
  }

  /** Scanned and then parsed, a text gives the events of the documents that lie in it. */
  lemma PagesRead(docs: seq<Page>, end: Scanning.Lexeme)
    requires OnPages(docs) && WritableAll(ErasedPages(docs)) && end.glyph.EndOfInput?
    requires Scanning.Text(Scanning.Mark(0, 0, 0), PagesLexemes(docs) + [end])
    ensures var xs := PagesLexemes(docs) + [end];
      && Scanning.Between(Scanning.STARTED, xs) && Scanning.ScanAll(Scanning.STARTED, xs).Some?
      && var log := Parsing.Run(Parsing.Start(Handed(Scanning.ScanAll(Scanning.STARTED, xs).value.handed)));
      log.events == Stream(AllMeaning(ErasedPages(docs))) && log.last.state == Parsing.EndS
  {
    hide OnPages, WritableAll, ErasedPages, StreamKinds, AllMeaning, Stream, PagesLexemes, Parsing.Run,
      Scanning.Text, Scanning.Between, Scanning.ScanAll;
    Scanned.PagesScan(docs, end);
    var ts := Scanning.ScanAll(Scanning.STARTED, PagesLexemes(docs) + [end]).value.handed;
    assert |Scanned.QueuedKinds(ts)| == |ts|;
    Complete.StreamParses(ErasedPages(docs), Handed(ts));
  }

  // ---------------------------------------------------------------- one line of a configuration

  function At(index: nat): Scanning.Mark {
    Scanning.Mark(index, 0, index)
  }

  function Plainly(text: string, from: nat): Scanning.Lexeme {
    Scanning.Lexeme(Scanning.Word, ScalarT(Ascii(text), Plain), At(from), At(from + |text|), false, false)
  }

  function MtuPair(): Line {
    OnPair([], Words([], Plainly("mtu", 0)), Scanning.Lexeme(Scanning.Colon, ValueT, At(3), At(4), false, false),
           Words([], Plainly("8500", 5)))
  }

  /** `mtu: 8500` */
  function MtuLine(): Page {
    Page([], [], Block(BlockMapping, [], [MtuPair()]), [])
  }

  function MtuEnd(): Scanning.Lexeme {
    Scanning.Lexeme(Scanning.EndOfInput, StreamEndT, At(9), At(9), false, false)
  }

  function Said(text: string): Tree {
    Leaf(ScalarEvent(None, None, Ascii(text), true, false, Plain))
  }

  lemma MtuLexemes()
    ensures Lexemes(MtuPair().key) == [Plainly("mtu", 0)] && Lexemes(MtuPair().value) == [Plainly("8500", 5)]
    ensures LinesLexemes([MtuPair()]) == LineLexemes(MtuPair()) ==
      [Plainly("mtu", 0), MtuPair().colon, Plainly("8500", 5)]
    ensures PagesLexemes([MtuLine()]) == LineLexemes(MtuPair())
  {
    hide Plainly;
    var e := MtuPair();
    assert [] + [Plainly("mtu", 0)] == [Plainly("mtu", 0)];
    assert [e][..0] == [] && LinesLexemes([]) == [];
    assert [MtuLine()][..0] == [] && PagesLexemes([]) == [];
    assert MtuLine().root == Block(BlockMapping, [], [e]);
    assert [] + LineLexemes(e) == LineLexemes(e);
    assert PageLexemes(MtuLine()) == LineLexemes(e);
  }

  lemma TextStep(m: Scanning.Mark, x: Scanning.Lexeme, rest: seq<Scanning.Lexeme>)
    requires (x.start == m || Scanning.Before(m, x.start)) && Scanning.Before(x.start, x.end)
    requires Scanning.Weight(x.kind) == 0 && !x.glyph.EndOfInput? && Scanning.Text(x.end, rest)
    ensures Scanning.Text(m, [x] + rest)
  {
    assert ([x] + rest)[1..] == rest;
  }

  lemma MtuText()
    ensures Scanning.Text(Scanning.Mark(0, 0, 0), PagesLexemes([MtuLine()]) + [MtuEnd()])
  {
    hide Scanning.Text, PagesLexemes, Ascii;
    MtuLexemes();
    var a, b, c, d := Plainly("mtu", 0), MtuPair().colon, Plainly("8500", 5), MtuEnd();
    EndText(d);
    TextStep(At(4), c, [d]);
    TextStep(At(3), b, [c] + [d]);
    TextStep(At(0), a, [b] + ([c] + [d]));
    assert [a] + ([b] + ([c] + [d])) == [a, b, c] + [d];
  }

  lemma EndText(d: Scanning.Lexeme)
    requires d.glyph.EndOfInput? && Scanning.Weight(d.kind) == 0
    ensures Scanning.Text(d.start, [d])
  {
  }

  lemma MtuLaid()
    ensures OnPages([MtuLine()])
  {
    MtuLexemes();
    hide Lexemes, LinesLexemes, LineLexemes, PagesLexemes;
    var e := MtuPair();
    assert InFlow(e.key) && InBlock(e.value, 0, false, true) by {
      assert [] + [e.value.x] == [e.value.x];
    }
    assert ColumnOf([e]) == 0;
    assert LineInBlock(BlockMapping, e, 0, true);
    assert LinesAt(BlockMapping, [e], 0, true);
    assert InBlock(MtuLine().root, -1, true, false);
    assert OnPage(MtuLine(), true);
  }

  /** A text of one implicit document with one pair, as trees. */
  function PairText(e: Entry): Written {
    Written(false, [], Group(BlockMapping, [], [e], false), 0)
  }

  function MtuEntry(): Entry {
    Pair(Node.Word([], Ascii("mtu"), Plain), Node.Word([], Ascii("8500"), Plain))
  }

  lemma PairTextMeans(e: Entry)
    requires WritableEntry(BlockMapping, e, ScopeOf([]))
    ensures WritableAll([PairText(e)])
    ensures AllMeaning([PairText(e)]) ==
      [Document(DocumentStart(None, [], true),
                Collection(MappingStart(None, None, true, false), Meanings(BlockMapping, [e], ScopeOf([]))),
                DocumentEnd(true))]
  {
    hide ScopeOf, Meanings, WritableEntry;
    var d := PairText(e);
    assert TagsIn([]) == [] && VersionIn([]) == None && WritableHeads([]);
    assert WritableSlot(d.root, ScopeOf([]), true, false) by {
      assert WritableProps([], ScopeOf([]));
    }
    assert WritableDocument(d, true);
    AllMeansOne(d);
  }

  lemma AllMeansOne(d: Written)
    ensures AllMeaning([d]) == [WrittenMeaning(d)]
  {
    hide WrittenMeaning;
    assert [d][..0] == [] && AllMeaning([]) == [];
    assert AllMeaning([d]) == [] + [WrittenMeaning(d)];
  }

  lemma MtuMeans()
    ensures WritableAll(ErasedPages([MtuLine()]))
    ensures AllMeaning(ErasedPages([MtuLine()])) ==
      [Document(DocumentStart(None, [], true),
                Collection(MappingStart(None, None, true, false), [Said("mtu"), Said("8500")]), DocumentEnd(true))]
  {
    hide MtuEntry, PairText, ErasedPages, ScopeOf, WritableAll, AllMeaning, Meanings, WritableEntry, Said, MtuLine;
    var e := MtuEntry();
    MtuErased();
    MtuPairMeans(e, ScopeOf([]));
    PairTextMeans(e);
  }

  lemma MtuPairMeans(e: Entry, scope: Scope)
    requires e == MtuEntry()
    ensures Meanings(BlockMapping, [e], scope) == [Said("mtu"), Said("8500")] && WritableEntry(BlockMapping, e, scope)
  {
    hide Ascii;
    assert [e][..0] == [] && Meanings(BlockMapping, [], scope) == [];
    assert EntryMeaning(BlockMapping, e, scope) == [Said("mtu"), Said("8500")];
    assert Meanings(BlockMapping, [e], scope) == [] + EntryMeaning(BlockMapping, e, scope);
  }

  lemma MtuErased()
    ensures ErasedPages([MtuLine()]) == [PairText(MtuEntry())]
  {
    hide Ascii;
    var e := MtuPair();
    assert [e][..0] == [] && ErasedLines([]) == [];
    assert LexemeKinds([]) == [];
    assert [MtuLine()][..0] == [] && ErasedPages([]) == [];
    assert MtuLine().root == Block(BlockMapping, [], [e]);
    assert Erased(e.key) == Node.Word([], Ascii("mtu"), Plain);
    assert Erased(e.value) == Node.Word([], Ascii("8500"), Plain);
    assert ErasedLines([e]) == [] + [ErasedLine(e)] == [ErasedLine(e)];
    assert ErasedPages([MtuLine()]) == [] + [ErasedPage(MtuLine())] == [ErasedPage(MtuLine())];
  }

  lemma SaidLeaf(text: string)
    ensures Said(text).Leaf? && Flatten(Said(text)) == [Said(text).event]
  {
    hide Ascii;
  }

  lemma FlatRoot(root: Tree, key: Tree, value: Tree)
    requires root == Collection(MappingStart(None, None, true, false), [key, value])
    ensures Flatten(root) == [root.start] + Flatten(key) + Flatten(value) + [MappingEnd]
  {
    hide FlattenItems;
    Complete.FlattenTwo(key, value);
    assert [root.start] + (Flatten(key) + Flatten(value)) == [root.start] + Flatten(key) + Flatten(value);
  }

  lemma FlatDocument(d: Document)
    ensures Stream([d]) == [StreamStart] + ([d.start] + Flatten(d.root) + [d.end]) + [StreamEnd]
  {
    hide Flatten;
    assert [d][..0] == [] && FlattenDocuments([]) == [];
    assert [] + ([d.start] + Flatten(d.root) + [d.end]) == [d.start] + Flatten(d.root) + [d.end];
  }

  /** The events of a stream with one mapping of one pair. */
  lemma FlatPair(key: Tree, value: Tree)
    ensures Stream([Document(DocumentStart(None, [], true),
        Collection(MappingStart(None, None, true, false), [key, value]), DocumentEnd(true))]) ==
      [StreamStart, DocumentStart(None, [], true), MappingStart(None, None, true, false)] + Flatten(key)
      + Flatten(value) + [MappingEnd, DocumentEnd(true), StreamEnd]
  {
    hide Flatten, Stream;
    var root := Collection(MappingStart(None, None, true, false), [key, value]);
    FlatRoot(root, key, value);
    FlatDocument(Document(DocumentStart(None, [], true), root, DocumentEnd(true)));
  }

  lemma MtuFlat()
    ensures Stream([Document(DocumentStart(None, [], true),
        Collection(MappingStart(None, None, true, false), [Said("mtu"), Said("8500")]), DocumentEnd(true))]) ==
      [StreamStart, DocumentStart(None, [], true), MappingStart(None, None, true, false), Said("mtu").event,
       Said("8500").event, MappingEnd, DocumentEnd(true), StreamEnd]
  {
    hide Said;
    FlatPair(Said("mtu"), Said("8500"));
    assert Flatten(Said("mtu")) == [Said("mtu").event] && Flatten(Said("8500")) == [Said("8500").event] by {
      SaidLeaf("mtu");
      SaidLeaf("8500");
    }
  }

  /** The line `mtu: 8500` of a configuration is read as the key `mtu` with the value `8500`. */
  lemma MtuRead()
    ensures var xs := PagesLexemes([MtuLine()]) + [MtuEnd()];
      && Scanning.Between(Scanning.STARTED, xs) && Scanning.ScanAll(Scanning.STARTED, xs).Some?
      && Parsing.Run(Parsing.Start(Handed(Scanning.ScanAll(Scanning.STARTED, xs).value.handed))).events ==
           [StreamStart, DocumentStart(None, [], true), MappingStart(None, None, true, false), Said("mtu").event,
            Said("8500").event, MappingEnd, DocumentEnd(true), StreamEnd]
  {
    hide OnPages, WritableAll, ErasedPages, StreamKinds, AllMeaning, Stream, PagesLexemes, Parsing.Run,
      Scanning.Text, Scanning.Between, Scanning.ScanAll, MtuLine, Said;
    MtuText();
    MtuLaid();
    MtuMeans();
    PagesRead([MtuLine()], MtuEnd());
    MtuFlat();
  }
}
