/**
 Reading the server name out of a TLS ClientHello that arrives in pieces. The functions say what
 the parser makes of its bytes, by cutting them up; the methods are the parser as the source has
 it, moving offsets through one array of bytes.
 */
module TlsClientHello {
  import opened Bytes

  datatype Result = NeedMore | NotTls | Parsed(serverName: Option<string>)

  const TLS_HANDSHAKE: byte := 22
  const CLIENT_HELLO: byte := 1
  const SERVER_NAME_EXTENSION := 0

  function U16(b: seq<byte>, offset: nat): (n: nat)
    requires offset + 2 <= |b|
    ensures n < 0x1_0000
  {
    var high: int := b[offset];
    high * 256 + b[offset + 1]
  }

  function U24(b: seq<byte>, offset: nat): (n: nat)
    requires offset + 3 <= |b|
    ensures n < 0x100_0000
  {
    var high: int := b[offset];
    high * 65536 + U16(b, offset + 1)
  }

  // ---------------------------------------------------------------- the server name

  /** `toString(US_ASCII)`: a byte that is not ASCII becomes the replacement character. */
  function Ascii(b: seq<byte>): (s: string)
    ensures |s| == |b|
  {
    if b == [] then [] else [if b[0] < 0x80 then b[0] as char else 0xFFFD as char] + Ascii(b[1..])
  }

  predicate White(c: char) {
    9 <= c as int <= 13 || 28 <= c as int <= 32
  }

  predicate IsBlank(s: string) {
    forall i :: 0 <= i < |s| ==> White(s[i])
  }

  function HostName(b: seq<byte>): Option<string> {
    if IsBlank(Ascii(b)) then None else Some(Ascii(b))
  }

  /** The first entry of type host_name in a list of entries (section 3 of RFC 6066). */
  function FirstHostName(entries: seq<byte>): Option<string> {
    if |entries| < 3 then None
    else
      var n := U16(entries, 1);
      if 3 + n > |entries| then None
      else if entries[0] == 0 then HostName(entries[3..3 + n])
      else FirstHostName(entries[3 + n..])
  }

  function ServerName(extension: seq<byte>): Option<string> {
    if |extension| < 2 then None else FirstHostName(extension[2..])
  }

  /** The server name in a list of extensions. */
  function FromExtensions(e: seq<byte>): (r: Result)
    ensures r != NeedMore
  {
    if |e| < 4 then Parsed(None)
    else
      var n := U16(e, 2);
      if 4 + n > |e| then NotTls
      else if U16(e, 0) == SERVER_NAME_EXTENSION then Parsed(ServerName(e[4..4 + n]))
      else FromExtensions(e[4 + n..])
  }

  /** What is left behind a vector with a one- or two-byte length. */
  function Behind8(b: seq<byte>): Option<seq<byte>> {
    if |b| < 1 || 1 + b[0] as int > |b| then None else Some(b[1 + b[0] as int..])
  }

  function Behind16(b: seq<byte>): Option<seq<byte>> {
    if |b| < 2 || 2 + U16(b, 0) > |b| then None else Some(b[2 + U16(b, 0)..])
  }

  /** From the extensions' length on; they may be missing altogether. */
  function FromExtensionBlock(b: seq<byte>): Result {
    if b == [] then Parsed(None)
    else if Behind16(b).None? then NotTls
    else FromExtensions(b[2..2 + U16(b, 0)])
  }

  function FromCompression(b: seq<byte>): Result {
    if Behind8(b).None? then NotTls else FromExtensionBlock(Behind8(b).value)
  }

  function FromSuites(b: seq<byte>): Result {
    if Behind16(b).None? then NotTls else FromCompression(Behind16(b).value)
  }

  /** From the session id on. */
  function FromSessionId(b: seq<byte>): Result {
    if Behind8(b).None? then NotTls else FromSuites(Behind8(b).value)
  }

  /** A whole handshake message, its four-byte header included. */
  function FromHandshake(h: seq<byte>): (r: Result)
    ensures r != NeedMore
  {
    if h == [] || h[0] != CLIENT_HELLO || |h| < 4 + 2 + 32 then NotTls else FromSessionId(h[38..])
  }

  // ---------------------------------------------------------------- records

  /** Whether the message that `h` begins with is all there. */
  predicate Complete(h: seq<byte>) {
    |h| >= 4 && |h| >= U24(h, 1) + 4
  }

  function Message(h: seq<byte>): seq<byte>
    requires Complete(h)
  {
    h[..U24(h, 1) + 4]
  }

  /** The records in `b`, `h` being what the ones before them held. */
  function FromRecords(b: seq<byte>, h: seq<byte>): Result
    decreases |b|
  {
    if |b| < 5 then NeedMore
    else if b[0] != TLS_HANDSHAKE then (if h == [] then NotTls else NeedMore)
    else
      var n := U16(b, 3);
      if 5 + n > |b| then NeedMore
      else
        var h' := h + b[5..5 + n];
        if Complete(h') then FromHandshake(Message(h')) else FromRecords(b[5 + n..], h')
  }

  function Parse(b: seq<byte>): Result {
    FromRecords(b, [])
  }

  // ---------------------------------------------------------------- the pieces do not matter

  lemma {:induction false} MoreBytes(b: seq<byte>, c: seq<byte>, h: seq<byte>)
    requires FromRecords(b, h) != NeedMore
    ensures FromRecords(b + c, h) == FromRecords(b, h)
    decreases |b|
  {
    hide FromHandshake, Message, Complete;
    if b[0] == TLS_HANDSHAKE {
      var n := U16(b, 3);
      var h' := h + b[5..5 + n];
      assert (b + c)[5..5 + n] == b[5..5 + n];
      assert (b + c)[5 + n..] == b[5 + n..] + c;
      if !Complete(h') {
        MoreBytes(b[5 + n..], c, h');
      }
    }
  }

  /** Once there is an answer, bytes that come later do not change it. */
  lemma AnswerStays(b: seq<byte>, c: seq<byte>)
    requires Parse(b) != NeedMore
    ensures Parse(b + c) == Parse(b)
  {
    MoreBytes(b, c, []);
  }

  // ---------------------------------------------------------------- the split into records does not matter

  /** What one record carries; its version bytes are not looked at. */
  datatype Fragment = Fragment(major: byte, minor: byte, data: seq<byte>)

  function Record(f: Fragment): (r: seq<byte>)
    ensures |r| == 5 + |f.data|
  {
    [TLS_HANDSHAKE, f.major, f.minor, |f.data| / 256 % 256, |f.data| % 256] + f.data
  }

  function Wire(records: seq<Fragment>): seq<byte> {
    if records == [] then [] else Record(records[0]) + Wire(records[1..])
  }

  function Joined(records: seq<Fragment>): seq<byte> {
    if records == [] then [] else records[0].data + Joined(records[1..])
  }

  predicate Fit(records: seq<Fragment>) {
    forall i :: 0 <= i < |records| ==> |records[i].data| < 0x1_0000
  }

  /** The answer for the bytes of handshake records put together. */
  function Answer(h: seq<byte>): Result {
    if Complete(h) then FromHandshake(Message(h)) else NeedMore
  }

  lemma CompleteGrows(h: seq<byte>, more: seq<byte>)
    requires Complete(h)
    ensures Complete(h + more) && Message(h + more) == Message(h)
  {
  }

  lemma OneRecord(f: Fragment, rest: seq<byte>, h: seq<byte>)
    requires |f.data| < 0x1_0000
    ensures FromRecords(Record(f) + rest, h) ==
      if Complete(h + f.data) then FromHandshake(Message(h + f.data)) else FromRecords(rest, h + f.data)
  {
    hide FromHandshake, Message, Complete;
    var b := Record(f) + rest;
    LengthBack(|f.data|);
    assert b[0] == TLS_HANDSHAKE && b[3] == |f.data| / 256 % 256 && b[4] == |f.data| % 256;
    assert U16(b, 3) == |f.data|;
    assert b[5..5 + |f.data|] == f.data && b[5 + |f.data|..] == rest;
  }

  lemma LengthBack(n: nat)
    requires n < 0x1_0000
    ensures n / 256 % 256 * 256 + n % 256 == n
  {
  }

  /** Reading a run of handshake records is reading what they hold put together. */
  lemma {:induction false} SplitRecords(records: seq<Fragment>, h: seq<byte>, tail: seq<byte>)
    requires Fit(records) && !Complete(h)
    ensures FromRecords(Wire(records) + tail, h) ==
      if Complete(h + Joined(records)) then Answer(h + Joined(records)) else FromRecords(tail, h + Joined(records))
  {
    hide FromHandshake, Message, Complete, Record, FromRecords;
    if records == [] {
      assert Wire(records) + tail == tail && h + Joined(records) == h;
    } else {
      var f, more := records[0], records[1..];
      assert Wire(records) + tail == Record(f) + (Wire(more) + tail);
      assert h + Joined(records) == h + f.data + Joined(more);
      OneRecord(f, Wire(more) + tail, h);
      if Complete(h + f.data) {
        CompleteGrows(h + f.data, Joined(more));
      } else {
        SplitRecords(more, h + f.data, tail);
      }
    }
  }

  /** However a message is split over records, the answer is that of the message. */
  lemma RecordsDoNotMatter(records: seq<Fragment>)
    requires Fit(records)
    ensures Parse(Wire(records)) == Answer(Joined(records))
  {
    assert Wire(records) + [] == Wire(records) && [] + Joined(records) == Joined(records);
    SplitRecords(records, [], []);
  }

  /** A record of another type behind some handshake records, and whatever follows it: the answer
      is `NeedMore`, and stays so, exactly if a message was begun and is not finished. */
  lemma ForeignRecordWaits(records: seq<Fragment>, b: seq<byte>)
    requires Fit(records) && |b| >= 5 && b[0] != TLS_HANDSHAKE
    ensures Parse(Wire(records) + b) == NeedMore <==> !Complete(Joined(records)) && Joined(records) != []
  {
    hide FromHandshake, Message, Complete;
    assert [] + Joined(records) == Joined(records);
    assert !Complete([]) by {
      NothingIsIncomplete();
    }
    SplitRecords(records, [], b);
  }

  lemma NothingIsIncomplete()
    ensures !Complete([])
  {
  }

  /** A fatal alert record (section 6 of RFC 8446). */
  const ALERT: seq<byte> := [21, 3, 3, 0, 2, 2, 40]

  /** An alert behind the first three bytes of a ClientHello is waited past, whatever comes then;
      on its own it is reported. */
  lemma AlertBehindHello(more: seq<byte>)
    ensures Parse([TLS_HANDSHAKE, 3, 1, 0, 3, CLIENT_HELLO, 0, 0] + (ALERT + more)) == NeedMore
    ensures Parse(ALERT + more) == NotTls
  {
    var f := Fragment(3, 1, [CLIENT_HELLO, 0, 0]);
    assert [f][1..] == [];
    assert Joined([f]) == f.data && Wire([f]) == Record(f);
    assert Record(f) == [TLS_HANDSHAKE, 3, 1, 0, 3, CLIENT_HELLO, 0, 0];
    ForeignRecordWaits([f], ALERT + more);
    assert (ALERT + more)[0] == 21;
  }

  // ---------------------------------------------------------------- reading back a hello

  datatype Extension = Extension(kind: nat, data: seq<byte>)

  datatype Entry = Entry(kind: byte, name: seq<byte>)

  /** A ClientHello (section 4.1.2 of RFC 8446). */
  datatype ClientHello = ClientHello(
    version: seq<byte>, random: seq<byte>, sessionId: seq<byte>, suites: seq<byte>, compression: seq<byte>,
    extensions: Option<seq<Extension>>)

  function Two(n: nat): seq<byte> {
    [n / 256 % 256, n % 256]
  }

  function Vector8(b: seq<byte>): seq<byte> {
    [|b| % 256] + b
  }

  function Vector16(b: seq<byte>): seq<byte> {
    Two(|b|) + b
  }

  function EncodeExtension(e: Extension): seq<byte> {
    Two(e.kind) + Vector16(e.data)
  }

  function EncodeExtensions(es: seq<Extension>): seq<byte> {
    if es == [] then [] else EncodeExtension(es[0]) + EncodeExtensions(es[1..])
  }

  function EncodeEntries(es: seq<Entry>): seq<byte> {
    if es == [] then [] else [es[0].kind] + Vector16(es[0].name) + EncodeEntries(es[1..])
  }

  function EncodeBody(c: ClientHello): seq<byte> {
    c.version + c.random + Vector8(c.sessionId) + Vector16(c.suites) + Vector8(c.compression)
    + if c.extensions.Some? then Vector16(EncodeExtensions(c.extensions.value)) else []
  }

  function EncodeHello(c: ClientHello): seq<byte> {
    [CLIENT_HELLO, |EncodeBody(c)| / 65536 % 256] + Two(|EncodeBody(c)|) + EncodeBody(c)
  }

  predicate ExtensionsFit(es: seq<Extension>) {
    forall i :: 0 <= i < |es| ==> es[i].kind < 0x1_0000 && |es[i].data| < 0x1_0000
  }

  /** The lengths the format can hold. */
  predicate HelloFits(c: ClientHello) {
    && |c.version| == 2 && |c.random| == 32
    && |c.sessionId| < 256 && |c.suites| < 0x1_0000 && |c.compression| < 256
    && (c.extensions.Some? ==>
          ExtensionsFit(c.extensions.value) && |EncodeExtensions(c.extensions.value)| < 0x1_0000)
  }

  /** The body of the first server_name extension. */
  function NameIn(es: seq<Extension>): Option<string> {
    if es == [] then None
    else if es[0].kind == SERVER_NAME_EXTENSION then ServerName(es[0].data)
    else NameIn(es[1..])
  }

  lemma TwoBack(n: nat, tail: seq<byte>)
    requires n < 0x1_0000
    ensures U16(Two(n) + tail, 0) == n
  {
    LengthBack(n);
  }

  lemma VectorsBehind(b: seq<byte>, tail: seq<byte>)
    ensures |b| < 256 ==> Behind8(Vector8(b) + tail) == Some(tail)
    ensures |b| < 0x1_0000 ==> Behind16(Vector16(b) + tail) == Some(tail) && U16(Vector16(b) + tail, 0) == |b|
  {
    if |b| < 256 {
      assert (Vector8(b) + tail)[1 + |b|..] == tail;
    }
    if |b| < 0x1_0000 {
      TwoBack(|b|, b + tail);
      assert Vector16(b) + tail == Two(|b|) + (b + tail);
      assert (Vector16(b) + tail)[2 + |b|..] == tail;
    }
  }

  lemma {:induction false} ExtensionsBack(es: seq<Extension>)
    requires ExtensionsFit(es)
    ensures FromExtensions(EncodeExtensions(es)) == Parsed(NameIn(es))
  {
    hide ServerName, EncodeExtension;
    if es != [] {
      ExtensionsBack(es[1..]);
      ExtensionFirst(es[0], EncodeExtensions(es[1..]));
    }
  }

  lemma ExtensionFirst(e: Extension, rest: seq<byte>)
    requires e.kind < 0x1_0000 && |e.data| < 0x1_0000
    ensures FromExtensions(EncodeExtension(e) + rest) ==
      if e.kind == SERVER_NAME_EXTENSION then Parsed(ServerName(e.data)) else FromExtensions(rest)
  {
    hide ServerName, Two, Vector16;
    var b := EncodeExtension(e) + rest;
    ExtensionParts(e, rest);
    hide U16, EncodeExtension;
  }

  lemma ExtensionParts(e: Extension, rest: seq<byte>)
    requires e.kind < 0x1_0000 && |e.data| < 0x1_0000
    ensures var b := EncodeExtension(e) + rest; var n := |e.data|;
      && |b| == 4 + n + |rest| && U16(b, 0) == e.kind && U16(b, 2) == n
      && b[4..4 + n] == e.data && b[4 + n..] == rest
  {
    var b := EncodeExtension(e) + rest;
    TwoBack(e.kind, Vector16(e.data) + rest);
    assert b == Two(e.kind) + (Vector16(e.data) + rest);
    VectorsBehind(e.data, rest);
    assert b[2..] == Vector16(e.data) + rest;
    assert U16(b, 2) == U16(b[2..], 0);
  }

  predicate EntriesFit(es: seq<Entry>) {
    forall i :: 0 <= i < |es| ==> |es[i].name| < 0x1_0000
  }

  /** The first name of type host_name. */
  function NameAmong(es: seq<Entry>): Option<string> {
    if es == [] then None else if es[0].kind == 0 then HostName(es[0].name) else NameAmong(es[1..])
  }

  lemma {:induction false} EntriesBack(es: seq<Entry>)
    requires EntriesFit(es)
    ensures FirstHostName(EncodeEntries(es)) == NameAmong(es)
  {
    hide HostName, Vector16, U16;
    if es != [] {
      EntriesBack(es[1..]);
      EntryParts(es[0], EncodeEntries(es[1..]));
    }
  }

  lemma EntryParts(e: Entry, rest: seq<byte>)
    requires |e.name| < 0x1_0000
    ensures var b := [e.kind] + Vector16(e.name) + rest; var n := |e.name|;
      && |b| == 3 + n + |rest| && U16(b, 1) == n && b[3..3 + n] == e.name && b[3 + n..] == rest
  {
    var b := [e.kind] + Vector16(e.name) + rest;
    VectorsBehind(e.name, rest);
    assert b[1..] == Vector16(e.name) + rest;
    assert U16(b, 1) == U16(b[1..], 0);
  }

  /** A server name list is read back; its length field is not looked at. */
  lemma ServerNameBack(es: seq<Entry>)
    requires EntriesFit(es)
    ensures ServerName(Vector16(EncodeEntries(es))) == NameAmong(es)
  {
    EntriesBack(es);
    assert Vector16(EncodeEntries(es))[2..] == EncodeEntries(es);
  }

  lemma SessionIdBack(c: ClientHello)
    requires HelloFits(c)
    ensures FromSessionId(EncodeBody(c)[34..]) ==
      Parsed(if c.extensions.Some? then NameIn(c.extensions.value) else None)
  {
    hide ExtensionsFit, NameIn, Vector8, Vector16, FromExtensions, Behind8, Behind16;
    var last := if c.extensions.Some? then Vector16(EncodeExtensions(c.extensions.value)) else [];
    BodyTail(c, last);
    VectorsBehind(c.sessionId, Vector16(c.suites) + (Vector8(c.compression) + last));
    VectorsBehind(c.suites, Vector8(c.compression) + last);
    VectorsBehind(c.compression, last);
    if c.extensions.Some? {
      var e := EncodeExtensions(c.extensions.value);
      VectorsBehind(e, []);
      assert last + [] == last;
      Content16(e);
      ExtensionsBack(c.extensions.value);
    }
  }

  lemma BodyTail(c: ClientHello, last: seq<byte>)
    requires |c.version| == 2 && |c.random| == 32
    requires last == if c.extensions.Some? then Vector16(EncodeExtensions(c.extensions.value)) else []
    ensures EncodeBody(c)[34..] == Vector8(c.sessionId) + (Vector16(c.suites) + (Vector8(c.compression) + last))
  {
  }

  lemma Content16(b: seq<byte>)
    ensures |Vector16(b)| == 2 + |b| && Vector16(b)[2..2 + |b|] == b
  {
  }

  /** A well-formed hello is complete, and its server name is read back. */
  lemma HelloBack(c: ClientHello)
    requires HelloFits(c)
    ensures Complete(EncodeHello(c)) && Message(EncodeHello(c)) == EncodeHello(c)
    ensures Answer(EncodeHello(c)) == Parsed(if c.extensions.Some? then NameIn(c.extensions.value) else None)
  {
    var b, n := EncodeHello(c), |EncodeBody(c)|;
    BodyFits(c);
    hide EncodeBody, HelloFits;
    SizeBack(n);
    assert b[1] == n / 65536 % 256 && b[2] == n / 256 % 256 && b[3] == n % 256;
    assert U24(b, 1) == n;
    assert b[4..] == EncodeBody(c);
    assert b[38..] == EncodeBody(c)[34..];
    SessionIdBack(c);
  }

  lemma SizeBack(n: nat)
    requires n < 0x100_0000
    ensures n / 65536 % 256 * 65536 + n / 256 % 256 * 256 + n % 256 == n
  {
    LengthBack(n % 65536);
    assert n / 256 % 256 == n % 65536 / 256 % 256 && n % 256 == n % 65536 % 256;
  }

  lemma BodyFits(c: ClientHello)
    requires HelloFits(c)
    ensures 34 <= |EncodeBody(c)| < 0x100_0000
  {
  }

  /** The whole of it: over any records, with anything after them, the name comes out. */
  lemma NameComesOut(c: ClientHello, records: seq<Fragment>, rest: seq<byte>, after: seq<byte>)
    requires HelloFits(c) && Fit(records) && Joined(records) == EncodeHello(c) + rest
    ensures Parse(Wire(records) + after) == Parsed(if c.extensions.Some? then NameIn(c.extensions.value) else None)
  {
    HelloBack(c);
    hide EncodeHello, HelloFits, Complete, Message;
    CompleteGrows(EncodeHello(c), rest);
    RecordsDoNotMatter(records);
    AnswerStays(Wire(records), after);
  }

  // ---------------------------------------------------------------- the name, byte by byte

  /** A byte of white space, in ASCII. */
  predicate WhiteByte(b: byte) {
    9 <= b <= 13 || 28 <= b <= 32
  }

  /** `s` is the text of `b`, with U+FFFD for what is not ASCII. */
  predicate IsText(s: string, b: seq<byte>) {
    |s| == |b| && forall i :: 0 <= i < |b| ==> s[i] as int == if b[i] < 0x80 then b[i] as int else 0xFFFD
  }

  /** The answer for a hello whose host name is `b`: none exactly if it is all white space, else
      its text. */
  predicate Tells(r: Result, b: seq<byte>) {
    && r.Parsed?
    && (r.serverName.None? <==> forall i :: 0 <= i < |b| ==> WhiteByte(b[i]))
    && (r.serverName.Some? ==> IsText(r.serverName.value, b))
  }

  lemma {:induction false} AsciiText(b: seq<byte>)
    ensures IsText(Ascii(b), b)
  {
    if b != [] {
      AsciiText(b[1..]);
      forall i | 0 <= i < |b| ensures Ascii(b)[i] as int == if b[i] < 0x80 then b[i] as int else 0xFFFD {
        if i > 0 {
          assert Ascii(b)[i] == Ascii(b[1..])[i - 1] && b[i] == b[1..][i - 1];
        }
      }
    }
  }

  lemma HostNameTells(b: seq<byte>)
    ensures Tells(Parsed(HostName(b)), b)
  {
    AsciiText(b);
    hide Ascii;
    forall i | 0 <= i < |b| ensures White(Ascii(b)[i]) <==> WhiteByte(b[i]) {
    }
    if forall i :: 0 <= i < |b| ==> WhiteByte(b[i]) {
      forall i | 0 <= i < |Ascii(b)| ensures White(Ascii(b)[i]) {
        assert WhiteByte(b[i]);
      }
    }
    if IsBlank(Ascii(b)) {
      forall i | 0 <= i < |b| ensures WhiteByte(b[i]) {
        assert White(Ascii(b)[i]);
      }
    }
  }

  /** Entry `j` is the first of type host_name. */
  predicate FirstHost(es: seq<Entry>, j: nat) {
    j < |es| && es[j].kind == 0 && forall i :: 0 <= i < j ==> es[i].kind != 0
  }

  /** Extension `k` is the first server_name one, and `entries` is what it holds. */
  predicate FirstNames(es: seq<Extension>, k: nat, entries: seq<Entry>) {
    && k < |es| && es[k].kind == SERVER_NAME_EXTENSION && es[k].data == Vector16(EncodeEntries(entries))
    && forall i :: 0 <= i < k ==> es[i].kind != SERVER_NAME_EXTENSION
  }

  lemma {:induction false} AmongIs(es: seq<Entry>, j: nat)
    ensures FirstHost(es, j) ==> NameAmong(es) == HostName(es[j].name)
    ensures (forall i :: 0 <= i < |es| ==> es[i].kind != 0) ==> NameAmong(es) == None
    decreases es
  {
    hide HostName;
    if es != [] && es[0].kind != 0 {
      AmongIs(es[1..], if j > 0 then j - 1 else 0);
    }
  }

  lemma {:induction false} InIs(es: seq<Extension>, k: nat)
    requires k < |es| && es[k].kind == SERVER_NAME_EXTENSION
    requires forall i :: 0 <= i < k ==> es[i].kind != SERVER_NAME_EXTENSION
    ensures NameIn(es) == ServerName(es[k].data)
    decreases es
  {
    hide ServerName;
    if k > 0 {
      InIs(es[1..], k - 1);
    }
  }

  lemma {:induction false} InNone(es: seq<Extension>)
    requires forall i :: 0 <= i < |es| ==> es[i].kind != SERVER_NAME_EXTENSION
    ensures NameIn(es) == None
    decreases es
  {
    hide ServerName;
    if es != [] {
      InNone(es[1..]);
    }
  }

  /** However a hello is cut into records, and whatever comes after it: the first host_name entry
      of the first server_name extension is the answer, byte by byte. */
  lemma HostComesOut(c: ClientHello, records: seq<Fragment>, rest: seq<byte>, after: seq<byte>, k: nat,
      entries: seq<Entry>, j: nat)
    requires HelloFits(c) && Fit(records) && Joined(records) == EncodeHello(c) + rest && c.extensions.Some?
    requires FirstNames(c.extensions.value, k, entries) && EntriesFit(entries) && FirstHost(entries, j)
    ensures Tells(Parse(Wire(records) + after), entries[j].name)
  {
    hide HelloFits, Fit, Joined, Wire, Parse, EncodeHello, NameIn, NameAmong, ServerName, Tells, HostName;
    NameComesOut(c, records, rest, after);
    InIs(c.extensions.value, k);
    ServerNameBack(entries);
    AmongIs(entries, j);
    HostNameTells(entries[j].name);
  }

  /** Without one there is no name. */
  lemma NoHostComesOut(c: ClientHello, records: seq<Fragment>, rest: seq<byte>, after: seq<byte>, k: nat,
      entries: seq<Entry>)
    requires HelloFits(c) && Fit(records) && Joined(records) == EncodeHello(c) + rest
    requires c.extensions.Some? ==>
      (forall i :: 0 <= i < |c.extensions.value| ==> c.extensions.value[i].kind != SERVER_NAME_EXTENSION)
      || (FirstNames(c.extensions.value, k, entries) && EntriesFit(entries) &&
          forall i :: 0 <= i < |entries| ==> entries[i].kind != 0)
    ensures Parse(Wire(records) + after) == Parsed(None)
  {
    hide HelloFits, Fit, Joined, Wire, Parse, EncodeHello, NameIn, NameAmong, ServerName;
    NameComesOut(c, records, rest, after);
    if c.extensions.Some? {
      if forall i :: 0 <= i < |c.extensions.value| ==> c.extensions.value[i].kind != SERVER_NAME_EXTENSION {
        InNone(c.extensions.value);
      } else {
        InIs(c.extensions.value, k);
        ServerNameBack(entries);
        AmongIs(entries, 0);
      }
    }
  }

  // ---------------------------------------------------------------- the parser in place

  lemma Slices(b: seq<byte>, offset: nat, end: nat, head: nat, n: nat)
    requires offset + head + n <= end <= |b|
    ensures b[offset..end][head..head + n] == b[offset + head..offset + head + n]
    ensures b[offset..end][head + n..] == b[offset + head + n..end]
  {
    var e := b[offset..end];
    var c, d := e[head..head + n], b[offset + head..offset + head + n];
    assert forall k :: 0 <= k < n ==> c[k] == e[head + k] == d[k];
  }

  lemma SkipEntry(b: seq<byte>, offset: nat, end: nat)
    requires offset + 3 <= end <= |b|
    ensures var e := b[offset..end]; var n := U16(b, offset + 1);
      U16(e, 1) == n && e[0] == b[offset] &&
      (offset + 3 + n <= end ==> e[3..3 + n] == b[offset + 3..offset + 3 + n] && e[3 + n..] == b[offset + 3 + n..end])
  {
    var n := U16(b, offset + 1);
    if offset + 3 + n <= end {
      Slices(b, offset, end, 3, n);
    }
  }

  method ParseServerName(bytes: seq<byte>, start: nat, end: nat) returns (name: Option<string>)
    requires start <= end <= |bytes|
    ensures name == ServerName(bytes[start..end])
  {
    hide U16;
    if start + 2 > end {
      return None;
    }
    var offset := start + 2;
    assert bytes[start..end][2..] == bytes[offset..end];
    while offset + 3 <= end
      invariant offset <= end && FirstHostName(bytes[offset..end]) == ServerName(bytes[start..end])
    {
      SkipEntry(bytes, offset, end);
      var nameType := bytes[offset];
      var nameLength := U16(bytes, offset + 1);
      offset := offset + 3;
      if offset + nameLength > end {
        return None;
      }
      if nameType == 0 {
        var text := Ascii(bytes[offset..offset + nameLength]);
        name := if IsBlank(text) then None else Some(text);
        return;
      }
      offset := offset + nameLength;
    }
    name := None;
  }

  lemma SkipExtension(b: seq<byte>, offset: nat, end: nat)
    requires offset + 4 <= end <= |b|
    ensures var e := b[offset..end]; var n := U16(b, offset + 2);
      U16(e, 2) == n && U16(e, 0) == U16(b, offset) &&
      (offset + 4 + n <= end ==> e[4..4 + n] == b[offset + 4..offset + 4 + n] && e[4 + n..] == b[offset + 4 + n..end])
  {
    var n := U16(b, offset + 2);
    if offset + 4 + n <= end {
      Slices(b, offset, end, 4, n);
    }
  }

  method ParseExtensions(handshake: seq<byte>, start: nat, extensionsEnd: nat) returns (r: Result)
    requires start <= extensionsEnd <= |handshake|
    ensures r == FromExtensions(handshake[start..extensionsEnd])
  {
    var offset := start;
    while offset + 4 <= extensionsEnd
      invariant offset <= extensionsEnd
      invariant FromExtensions(handshake[offset..extensionsEnd]) == FromExtensions(handshake[start..extensionsEnd])
    {
      SkipExtension(handshake, offset, extensionsEnd);
      var kind := U16(handshake, offset);
      var length := U16(handshake, offset + 2);
      offset := offset + 4;
      var extensionEnd := offset + length;
      if extensionEnd > extensionsEnd {
        return NotTls;
      }
      if kind == SERVER_NAME_EXTENSION {
        var name := ParseServerName(handshake, offset, extensionEnd);
        return Parsed(name);
      }
      offset := extensionEnd;
    }
    r := Parsed(None);
  }

  lemma Skip8(b: seq<byte>, offset: nat, limit: nat)
    requires limit <= |b|
    ensures offset <= limit < offset + 1 ==> Behind8(b[offset..limit]).None?
    ensures offset + 1 <= limit ==>
      var next := offset + 1 + b[offset];
      Behind8(b[offset..limit]) == if next <= limit then Some(b[next..limit]) else None
  {
  }

  lemma Skip16(b: seq<byte>, offset: nat, limit: nat)
    requires limit <= |b|
    ensures offset <= limit < offset + 2 ==> Behind16(b[offset..limit]).None?
    ensures offset + 2 <= limit ==>
      && U16(b[offset..limit], 0) == U16(b, offset)
      && var next := offset + 2 + U16(b, offset);
      Behind16(b[offset..limit]) == if next <= limit then Some(b[next..limit]) else None
  {
  }

  method ParseHandshake(handshake: seq<byte>, limit: nat) returns (r: Result)
    requires 4 <= limit <= |handshake|
    ensures r == FromHandshake(handshake[..limit])
  {
    if handshake == [] || handshake[0] != CLIENT_HELLO {
      return NotTls;
    }
    var offset: nat := 4;
    if offset + 2 + 32 > limit {
      return NotTls;
    }
    offset := offset + 2 + 32;
    assert handshake[..limit][38..] == handshake[offset..limit];
    r := ParseFromSessionId(handshake, offset, limit);
  }

  method ParseFromSessionId(handshake: seq<byte>, start: nat, limit: nat) returns (r: Result)
    requires start <= limit <= |handshake|
    ensures r == FromSessionId(handshake[start..limit])
  {
    hide Behind8, Behind16, FromExtensions;
    var offset := start;
    Skip8(handshake, offset, limit);
    if offset + 1 > limit {
      return NotTls;
    }
    var sessionIdLength := handshake[offset];
    offset := offset + 1 + sessionIdLength;

    Skip16(handshake, offset, limit);
    if offset + 2 > limit {
      return NotTls;
    }
    var cipherSuitesLength := U16(handshake, offset);
    offset := offset + 2 + cipherSuitesLength;

    r := ParseFromCompression(handshake, offset, limit);
  }

  method ParseFromCompression(handshake: seq<byte>, start: nat, limit: nat) returns (r: Result)
    requires limit <= |handshake|
    ensures r == if start <= limit then FromCompression(handshake[start..limit]) else NotTls
  {
    hide Behind8, Behind16, FromExtensions;
    var offset := start;
    Skip8(handshake, offset, limit);
    if offset + 1 > limit {
      return NotTls;
    }
    var compressionLength := handshake[offset];
    offset := offset + 1 + compressionLength;

    if offset == limit {
      return Parsed(None);
    }
    Skip16(handshake, offset, limit);
    if offset + 2 > limit {
      return NotTls;
    }
    var extensionsLength := U16(handshake, offset);
    ghost var block := handshake[offset..limit];
    offset := offset + 2;
    var extensionsEnd := offset + extensionsLength;
    if extensionsEnd > limit {
      return NotTls;
    }
    Slices(handshake, offset - 2, limit, 2, extensionsLength);
    r := ParseExtensions(handshake, offset, extensionsEnd);
  }

  /** `parse` */
  method ParseBytes(bytes: seq<byte>) returns (r: Result)
    ensures r == Parse(bytes)
  {
    hide FromHandshake, FromRecords, Message, Complete, U16, U24;
    assert bytes[0..] == bytes;
    if |bytes| < 5 {
      NoRecord(bytes, []);
      return NeedMore;
    }
    NextRecord(bytes, 0, []);
    if bytes[0] != TLS_HANDSHAKE {
      return NotTls;
    }
    var handshake := [];
    var recordOffset := 0;
    NothingIsIncomplete();
    while recordOffset + 5 <= |bytes|
      invariant recordOffset <= |bytes| && !Complete(handshake)
      invariant FromRecords(bytes[recordOffset..], handshake) == Parse(bytes)
    {
      NextRecord(bytes, recordOffset, handshake);
      if bytes[recordOffset] != TLS_HANDSHAKE {
        return if handshake == [] then NotTls else NeedMore;
      }
      var recordLength := U16(bytes, recordOffset + 3);
      var recordEnd := recordOffset + 5 + recordLength;
      if recordEnd > |bytes| {
        return NeedMore;
      }
      handshake := handshake + bytes[recordOffset + 5..recordEnd];
      MessageIs(handshake);
      if |handshake| >= 4 {
        var helloLength := U24(handshake, 1);
        if |handshake| >= helloLength + 4 {
          r := ParseHandshake(handshake, helloLength + 4);
          return;
        }
      }
      recordOffset := recordEnd;
    }
    NoRecord(bytes[recordOffset..], handshake);
    r := NeedMore;
  }

  lemma NoRecord(b: seq<byte>, h: seq<byte>)
    requires |b| < 5
    ensures FromRecords(b, h) == NeedMore
  {
  }

  lemma MessageIs(h: seq<byte>)
    ensures Complete(h) <==> |h| >= 4 && |h| >= U24(h, 1) + 4
    ensures Complete(h) ==> Message(h) == h[..U24(h, 1) + 4]
  {
  }

  /** The record at an offset, in terms of the whole array. */
  lemma NextRecord(b: seq<byte>, offset: nat, h: seq<byte>)
    requires offset + 5 <= |b|
    ensures var n := U16(b, offset + 3); var end := offset + 5 + n;
      FromRecords(b[offset..], h) ==
        if b[offset] != TLS_HANDSHAKE then (if h == [] then NotTls else NeedMore)
        else if end > |b| then NeedMore
        else
          var h' := h + b[offset + 5..end];
          if Complete(h') then FromHandshake(Message(h')) else FromRecords(b[end..], h')
  {
    hide Complete, Message, FromHandshake;
    RecordAt(b, offset);
    hide U16;
  }

  lemma RecordAt(b: seq<byte>, offset: nat)
    requires offset + 5 <= |b|
    ensures var r := b[offset..]; var n := U16(b, offset + 3);
      r[0] == b[offset] && U16(r, 3) == n &&
      (offset + 5 + n <= |b| ==> r[5..5 + n] == b[offset + 5..offset + 5 + n] && r[5 + n..] == b[offset + 5 + n..])
  {
  }
}
