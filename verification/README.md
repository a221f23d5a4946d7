# hev-socks5-tunnel and its relay: a verified model

This project models the algorithmic core of an Android VPN app that sends traffic through a SOCKS5 tunnel, and proves what its parts are for.

- **Name cache.** `ColoredTree`, `RbLayout` and `RbTree` model the intrusive red-black tree with parent pointers; `HevList` the doubly linked list; `LruCache` what a least-recently-used cache is; `MappedDns` the cache of fake IPv4 addresses that is built on all three; `DnsHandle` the DNS answers it gives, which `DnsReader` reads back; `Word` the 32-bit words that addresses are.
- **Configuration.** The YAML library from the text's tokens up: `YamlScanner` the token queue and its simple keys, `YamlScalar`, `YamlSingle`, `YamlQuoted` and `Utf8` quoted scalars both ways, `YamlParser` the pushdown machine over `YamlTokens`, `YamlEvents` the grammar of its events, `YamlLoader` and `YamlComposer` the document graph, `YamlGraph`, `YamlDumper` and `YamlEmitter` how a graph is dumped, `YamlRoundTrip` why loading and dumping undo each other. Independently of all these, `YamlSyntax` says which tokens spell a tree and what it means, and `YamlLayout` when a tree lies in a text; `YamlScanned`, `YamlComplete`, `YamlReading` and `YamlBuilt` prove that the scanner, the parser and the loader find just that tree.
- **Tunnel lifecycle.** `TunnelSync` models stop, init, run and fini as atomic steps of any number of threads.
- **Splice.** `RingBuffer` and `SpliceTcp` model the zero-copy buffer between the proxy socket and lwIP.
- **Wire formats.** `TlsClientHello` finds the server name in a ClientHello; `Socks5Addr`, `UdpFraming` and `RelayUdp` are the UDP framings of the two sides; `Handshake` and `LocalSocksRelay` the SOCKS5 handshake of the two sides.

Code that works in place is a class whose methods update its fields, or a method over arrays; each is proved against a function or predicate on values, and the properties are lemmas about those. Outside the model's boundary, and therefore parameters: the order in which threads and chunks of data come, the lookup of host names, what a server answers, and the text a scanner's lexemes are cut from.

Where the code differs from what its design or documentation would suggest, the code is what is modelled, and the difference is proved:

- `hev_mapped_dns_handle` writes only the low byte of a question's offset into the compression pointer: it is right exactly for questions that start below offset 256 (`DnsHandle.PointerRight`), and `DnsHandle.LatePointer` is a query for which it is wrong.
- `hev_socks5_udp_recvmmsg_tcp` returns a number of bytes, as if it were a number of datagrams, when the stream ends inside a frame: `UdpFraming.CountIsRight` says exactly when a positive result is the number of datagrams, `UdpFraming.MiscountedExample` is a stream for which it is not. Its comparison of sizes wraps around for a buffer shorter than a frame's address (`UdpFraming.PastIff`); no buffer of 252 bytes or more is that short (`UdpFraming.StaysInside`).
- A UDP frame tells the length of its header in one byte, which names of more than 248 bytes do not fit (`UdpFraming.FrameBackIff`, `UdpFraming.LongName`).
- A question's name is handed to the cache as a C string, so that a zero byte inside a label cuts it short: the address leads back to the whole name exactly if no label holds one (`DnsHandle.WholeNameLooksUp`, `DnsHandle.ZeroCutsName`).
- A double-quoted scalar whose lines are broken is scanned back, except where a line without indentation would begin with a document indicator and a space (`YamlScalar.LinesScan`, `YamlScalar.BrokenAtIndicator`).
- The productions at the head of `parser.c` let a pair of a flow sequence leave out its key, and a block mapping hold a VALUE without KEY. The parser takes the token behind such a KEY for the key (`YamlComplete.KeylessPair`, `YamlComplete.KeyAlone`) and refuses such a VALUE (`YamlComplete.KeylessValue`); all else that the productions allow is read as it is meant, given valid directives and declared tag handles (`YamlComplete.StreamParses`).
- An IPv4-mapped IPv6 address comes out of the Kotlin side as the IPv4 address inside it (`RelayUdp.UnchangedIffNotMapped`, `RelayUdp.MappedChanges`); the tunnel itself sends none (`RelayUdp.SockaddrNeverMapped`).
- `TlsClientHello.parse` answers NeedMore for ever exactly if a record of another type follows an unfinished message (`TlsClientHello.ForeignRecordWaits`, `TlsClientHello.AlertBehindHello`).
- A `stop` that takes WAIT before a session is armed ends that session's run exactly if STOP is set before the run checks it (`TunnelSync.UnarmedStopInTime`); else it takes effect at the next `run` (`TunnelSync.NextRunEnds`, `TunnelSync.LateStop`).
- Pipelining preserves meaning against servers that answer each message at once and choose what was offered (`Handshake.SameEnding`), but not against all: `Handshake.AlikeIff` says exactly when the two handshakes end alike, `Handshake.WaitingServer` and `Handshake.CarelessServer` are servers with which they do not.

`dafny verify dfyconfig.toml` checks everything.

## Model

| member | source | states |
|---|---|---|
| ColoredTree.HeightBound | app/src/main/jni/hev-socks5-tunnel/src/core/src/hev-rbtree.c:195-333 | With n items no path of a red-black tree is longer than 2*log2(n+1) |
| ColoredTree.PlugInOrder | app/src/main/jni/hev-socks5-tunnel/src/core/src/hev-rbtree.c:107-166 | The order of a whole tree is what lies before a subtree, the subtree, and what lies after it |
| ColoredTree.FitsPlug | app/src/main/jni/hev-socks5-tunnel/src/core/src/hev-rbtree.c:194-333 | A subtree that suits its place, by black height and colour, makes the whole tree red-black |
| ColoredTree.PlugFits | app/src/main/jni/hev-socks5-tunnel/src/core/src/hev-rbtree.c:194-333 | And every subtree of a red-black tree suits its place |
| ColoredTree.RedBelowStops | app/src/main/jni/hev-socks5-tunnel/src/core/src/hev-rbtree.c:203-220 | The insertion loop may stop at a black parent, or blacken the root |
| ColoredTree.FlipLeft | app/src/main/jni/hev-socks5-tunnel/src/core/src/hev-rbtree.c:226-248 | Case 1 of the insertion moves the only red-red edge two levels up and keeps the order (uncle on the right) |
| ColoredTree.FlipRight | app/src/main/jni/hev-socks5-tunnel/src/core/src/hev-rbtree.c:295-306 | The same with the uncle on the left |
| ColoredTree.SettleInnerLeft | app/src/main/jni/hev-socks5-tunnel/src/core/src/hev-rbtree.c:250-293 | Cases 2 and 3 of the insertion restore all rules and keep the order |
| ColoredTree.SettleOuterLeft | app/src/main/jni/hev-socks5-tunnel/src/core/src/hev-rbtree.c:276-293 | Case 3 alone does |
| ColoredTree.SettleInnerRight | app/src/main/jni/hev-socks5-tunnel/src/core/src/hev-rbtree.c:308-330 | The mirror images do too |
| ColoredTree.SettleOuterRight | app/src/main/jni/hev-socks5-tunnel/src/core/src/hev-rbtree.c:322-330 | The mirror image of case 3 |
| ColoredTree.OneShortAtRoot | app/src/main/jni/hev-socks5-tunnel/src/core/src/hev-rbtree.c:505-513 | One black node too few everywhere, at the root, is no violation at all |
| ColoredTree.ShortRedSiblingLeft | app/src/main/jni/hev-socks5-tunnel/src/core/src/hev-rbtree.c:465-483 | Case 1 of the erasure keeps "one black short through the node" and the order, one level down |
| ColoredTree.ShortFlipLeft | app/src/main/jni/hev-socks5-tunnel/src/core/src/hev-rbtree.c:485-514 | Case 2 ends the shortage at a red parent, or moves it up |
| ColoredTree.ShortRotateLeft | app/src/main/jni/hev-socks5-tunnel/src/core/src/hev-rbtree.c:552-572 | Case 4 ends the shortage |
| ColoredTree.ShortInnerLeft | app/src/main/jni/hev-socks5-tunnel/src/core/src/hev-rbtree.c:515-572 | Cases 3 and 4 together end it |
| ColoredTree.ShortRedSiblingRight | app/src/main/jni/hev-socks5-tunnel/src/core/src/hev-rbtree.c:575-585 | Case 1 mirrored |
| ColoredTree.ShortFlipRight | app/src/main/jni/hev-socks5-tunnel/src/core/src/hev-rbtree.c:587-602 | Case 2 mirrored |
| ColoredTree.ShortRotateRight | app/src/main/jni/hev-socks5-tunnel/src/core/src/hev-rbtree.c:614-624 | Case 4 mirrored |
| ColoredTree.ShortInnerRight | app/src/main/jni/hev-socks5-tunnel/src/core/src/hev-rbtree.c:603-624 | Cases 3 and 4 mirrored |
| ColoredTree.TakeOut | app/src/main/jni/hev-socks5-tunnel/src/core/src/hev-rbtree.c:359-382 | Taking out a node with at most one child leaves a red-black tree, or one that is one black short at the hole |
| ColoredTree.TwoChildRules | app/src/main/jni/hev-socks5-tunnel/src/core/src/hev-rbtree.c:383-441 | Putting the successor in the place and colour of a node with two children keeps the rules, or leaves a shortage where the successor was |
| ColoredTree.TwoChildOrder | app/src/main/jni/hev-socks5-tunnel/src/core/src/hev-rbtree.c:383-441 | And removes exactly that node from the order |
| ColoredTree.OneChildOrder | app/src/main/jni/hev-socks5-tunnel/src/core/src/hev-rbtree.c:359-382 | A node with at most one child leaves the order alone otherwise |
| RbTree.RBTree.Link | app/src/main/jni/hev-socks5-tunnel/src/core/src/hev-rbtree.h:45-53 | The new node is red in the empty slot, all other links and colours as before |
| RbTree.RBTree.InsertColor | app/src/main/jni/hev-socks5-tunnel/src/core/src/hev-rbtree.c:194-333 | The tree is red-black again, with the new node exactly at its slot in the order |
| RbTree.RBTree.InsertRepair | app/src/main/jni/hev-socks5-tunnel/src/core/src/hev-rbtree.c:194-333 | The loop: from a red node under a possibly red parent to a settled tree with the same order |
| RbTree.RBTree.EraseColor | app/src/main/jni/hev-socks5-tunnel/src/core/src/hev-rbtree.c:450-626 | The loop: from one black short at a hole to a red-black tree with the same order |
| RbTree.RBTree.TakeOutTwo | app/src/main/jni/hev-socks5-tunnel/src/core/src/hev-rbtree.c:383-441 | The stores for a node with two children give the shape with the successor in its place |
| RbTree.RBTree.TakeOutOne | app/src/main/jni/hev-socks5-tunnel/src/core/src/hev-rbtree.c:359-382 | The stores for a node with at most one child give the shape with that child in its place |
| RbTree.RBTree.Erase | app/src/main/jni/hev-socks5-tunnel/src/core/src/hev-rbtree.c:628-635 | From any red-black tree, a red-black tree whose order is the old one minus exactly that node |
| RbTree.RBTree.Replace | app/src/main/jni/hev-socks5-tunnel/src/core/src/hev-rbtree.c:335-349 | The newcomer takes the place, colour and links of the other node, and the order is only renamed |
| RbTree.RBTree.First | app/src/main/jni/hev-socks5-tunnel/src/core/src/hev-rbtree.c:168-179 | The first node of the order, or null |
| RbTree.RBTree.Last | app/src/main/jni/hev-socks5-tunnel/src/core/src/hev-rbtree.c:181-192 | The last node of the order, or null |
| RbTree.RBTree.Next | app/src/main/jni/hev-socks5-tunnel/src/core/src/hev-rbtree.c:136-166 | The next node of the order, or null |
| RbTree.RBTree.Prev | app/src/main/jni/hev-socks5-tunnel/src/core/src/hev-rbtree.c:107-134 | The previous node of the order, or null |
| HevLists.HevList.AddTail | app/src/main/jni/hev-socks5-tunnel/src/misc/hev-list.c:14-25 | The node becomes the last of the list, linked both ways |
| HevLists.HevList.Del | app/src/main/jni/hev-socks5-tunnel/src/misc/hev-list.c:27-39 | Exactly that node leaves the list, its neighbours linked to each other |
| LruCache.StepKeepsIndex | app/src/main/jni/hev-socks5-tunnel/src/hev-mapped-dns.c:102-154 | A name that stays in the cache keeps its index |
| LruCache.RunWf | app/src/main/jni/hev-socks5-tunnel/src/hev-mapped-dns.c:102-280 | Over any run of finds and lookups names stay distinct and the indices are exactly 0 up to the number in use |
| LruCache.LookupFind | app/src/main/jni/hev-socks5-tunnel/src/hev-mapped-dns.c:262-280 | Looking up the index that a find answered gives the name back |
| LruCache.LookupIsFind | app/src/main/jni/hev-socks5-tunnel/src/hev-mapped-dns.c:262-280 | A successful lookup is a touch like a find of the name it returns |
| LruCache.ExactLru | app/src/main/jni/hev-socks5-tunnel/src/hev-mapped-dns.c:102-280 | After any run the list is exactly the names most recently touched, at most max, oldest touch first |
| LruCache.KnownUntil | app/src/main/jni/hev-socks5-tunnel/src/hev-mapped-dns.c:102-280 | The name touched last stays known exactly as long as fewer than max distinct other names have been touched since |
| LruCache.KeepsAddress | app/src/main/jni/hev-socks5-tunnel/src/hev-mapped-dns.c:102-280 | And it keeps its address all that time |
| LruCache.AllKnown | app/src/main/jni/hev-socks5-tunnel/src/hev-mapped-dns.c:102-280 | While no more than max distinct names have been touched, all of them are known |
| Word.AndContiguous | app/src/main/jni/hev-socks5-tunnel/src/hev-mapped-dns.c:263-280 | A contiguous host part keeps every number it covers |
| Word.AddressesComeBack | app/src/main/jni/hev-socks5-tunnel/src/hev-mapped-dns.c:231-234 | Every index below max survives the trip through an address just if the net has no host bits and the host part covers every index |
| MappedDns.HevMappedDns.Create | app/src/main/jni/hev-socks5-tunnel/src/hev-mapped-dns.c:44-63 | An empty cache, or a refusal exactly if max is more than the host part of the mask can number |
| MappedDns.HevMappedDns.constructor | app/src/main/jni/hev-socks5-tunnel/src/hev-mapped-dns.c:282-303 | The cache starts empty, with its tree, list and records agreeing |
| MappedDns.HevMappedDns.Search | app/src/main/jni/hev-socks5-tunnel/src/hev-mapped-dns.c:109-125 | The descent finds the node with the name, or the one empty slot where it belongs, in no more steps than the tree is high |
| MappedDns.HevMappedDns.Find | app/src/main/jni/hev-socks5-tunnel/src/hev-mapped-dns.c:102-154 | Tree, list and records keep holding the same nodes with records[i].idx = i; the list becomes that of the abstract cache, and the index answered is its index; the search takes at most 2*log2(n+1) steps |
| MappedDns.HevMappedDns.Lookup | app/src/main/jni/hev-socks5-tunnel/src/hev-mapped-dns.c:262-280 | The name behind an address of a known index, which is touched; none for any other address |
| MappedDns.FindThenLookup | app/src/main/jni/hev-socks5-tunnel/src/hev-mapped-dns.c:102-280 | Where the mask covers the indices, looking up net plus the index found gives back the name |
| MappedDns.EntryLooksUp | app/src/main/jni/hev-socks5-tunnel/src/hev-mapped-dns.c:262-280 | The same for every name that is in the cache |
| MappedDns.ContiguousCovers | app/src/main/jni/hev-socks5-tunnel/src/hev-mapped-dns.c:282-303 | A contiguous mask with no host bits in the net covers the indices |
| DnsHandle.WalkName | app/src/main/jni/hev-socks5-tunnel/src/hev-mapped-dns.c:211-224 | Length bytes become dots up to the name's end; fails just if the name runs out of the query |
| DnsHandle.ReadQuestion | app/src/main/jni/hev-socks5-tunnel/src/hev-mapped-dns.c:211-238 | One question: where the next begins, and the name if it asks for an A record of class IN |
| DnsHandle.QuestionsBack | app/src/main/jni/hev-socks5-tunnel/src/hev-mapped-dns.c:207-239 | However many questions a client spells out of labels, types and classes, they are read as just those: each A question with its labels joined by dots up to the first zero byte, and the end behind the last |
| DnsHandle.AskAll | app/src/main/jni/hev-socks5-tunnel/src/hev-mapped-dns.c:207-239 | All questions in turn, each name looked up once in order, every address being the net joined with its index |
| DnsHandle.WriteRecord | app/src/main/jni/hev-socks5-tunnel/src/hev-mapped-dns.c:245-251 | What is written reads back, byte by byte, as an answer of type 1, class 1, TTL 1 and length 4 with just that address in network order |
| DnsHandle.WriteAnswers | app/src/main/jni/hev-socks5-tunnel/src/hev-mapped-dns.c:241-254 | One record for each answer, or a failure if they do not fit |
| DnsHandle.Handle | app/src/main/jni/hev-socks5-tunnel/src/hev-mapped-dns.c:178-260 | For every query: -1 exactly if it is not answerable; else the reply has the id, the questions and the desired recursion of the query, the response bit and the number of answers, and behind the questions each answer reads as an A record with the address given for its question; nothing is read or written outside the two buffers |
| DnsHandle.ReplyHeader | app/src/main/jni/hev-socks5-tunnel/src/hev-mapped-dns.c:199-258 | Id, question count and questions as in the query; response bit set, recursion available as soon as it was desired, all other flag bits as they were; the number of answers, and no other records |
| DnsHandle.AskedKept | app/src/main/jni/hev-socks5-tunnel/src/hev-mapped-dns.c:178-260 | While the distinct names asked fit the cache, each keeps the index it was answered with |
| DnsHandle.AnswersLookUp | app/src/main/jni/hev-socks5-tunnel/src/hev-mapped-dns.c:178-260 | Every address read from the bytes of the reply looks up to the name that was looked up for its question, if the names fit the cache and the mask covers the indices |
| DnsHandle.WholeNameLooksUp | app/src/main/jni/hev-socks5-tunnel/src/hev-mapped-dns.c:212-237 | The address read from the bytes of the reply leads back to the whole name of the question, labels joined by dots, exactly if no label holds a zero byte |
| DnsHandle.ZeroCutsName | app/src/main/jni/hev-socks5-tunnel/src/hev-mapped-dns.c:212-237 | A query whose label holds a zero byte: only what stands before it is looked up |
| DnsHandle.PointerRight | app/src/main/jni/hev-socks5-tunnel/src/hev-mapped-dns.c:245-246 | The compression pointer in the bytes of an answer is right just if its question starts below offset 256 |
| DnsHandle.LatePointer | app/src/main/jni/hev-socks5-tunnel/src/hev-mapped-dns.c:241-254 | A query of 275 bytes in whose reply the second answer points at the first question |
| TunnelSync.RunKeeps | app/src/main/jni/hev-socks5-tunnel/src/hev-socks5-tunnel.c:682-769 | What holds over every interleaving of stops with any number of sessions |
| TunnelSync.WriteIsSafe | app/src/main/jni/hev-socks5-tunnel/src/hev-socks5-tunnel.c:743-769 | A stopper writes to the event descriptor only while the session it saw has it open, and then no other stopper is between taking and dropping WAIT |
| TunnelSync.CloseIsSafe | app/src/main/jni/hev-socks5-tunnel/src/hev-socks5-tunnel.c:554-570 | The descriptors are closed only when no stopper is about to write to them |
| TunnelSync.HolderMoves | app/src/main/jni/hev-socks5-tunnel/src/hev-socks5-tunnel.c:743-769 | Whoever holds WAIT can always take its next step and drops it after at most three |
| TunnelSync.DeliveredForGood | app/src/main/jni/hev-socks5-tunnel/src/hev-socks5-tunnel.c:281-307 | Once a session's wake-up has arrived, read or unread, that stays so |
| TunnelSync.ArmedStopArrives | app/src/main/jni/hev-socks5-tunnel/src/hev-socks5-tunnel.c:743-769 | A stop that found the session armed has its wake-up delivered when it returns |
| TunnelSync.StopStays | app/src/main/jni/hev-socks5-tunnel/src/hev-socks5-tunnel.c:721-741 | STOP stays set until a run consumes it |
| TunnelSync.NoStopVanishes | app/src/main/jni/hev-socks5-tunnel/src/hev-socks5-tunnel.c:721-769 | When stop returns, either the armed session has its wake-up or STOP was set and stays until consumed |
| TunnelSync.WokenRunEnds | app/src/main/jni/hev-socks5-tunnel/src/hev-socks5-tunnel.c:281-307 | With its wake-up delivered a run can always take its next step, of at most three, down to its end, and no step of any thread takes that back |
| TunnelSync.LateStop | app/src/main/jni/hev-socks5-tunnel/src/hev-socks5-tunnel.c:696-769 | An interleaving in which a stop that overlaps arming misses the session |
| TunnelSync.UnarmedStopInTime | app/src/main/jni/hev-socks5-tunnel/src/hev-socks5-tunnel.c:679-769 | A stop that found nothing armed ends the next run at its check exactly if STOP was set, by it or before it, ahead of that check |
| TunnelSync.NextRunEnds | app/src/main/jni/hev-socks5-tunnel/src/hev-socks5-tunnel.c:679-741 | The first run that checks STOP after it was set ends there |
| RingBuffer.HevRingBuffer.Cursors | app/src/main/jni/hev-socks5-tunnel/src/misc/hev-ring-buffer.c:14-93 | The write position is the read position plus what is unread, around the end; unread is at most in use is at most the size |
| RingBuffer.HevRingBuffer.Reading | app/src/main/jni/hev-socks5-tunnel/src/misc/hev-ring-buffer.c:25-45 | The vectors name exactly the bytes written and not yet read, in order |
| RingBuffer.HevRingBuffer.ReadFinish | app/src/main/jni/hev-socks5-tunnel/src/misc/hev-ring-buffer.c:47-52 | So many more bytes are read, none is freed |
| RingBuffer.HevRingBuffer.GetUseSize | app/src/main/jni/hev-socks5-tunnel/src/misc/hev-ring-buffer.c:19-23 | The number of bytes written and not freed |
| RingBuffer.HevRingBuffer.ReadRelease | app/src/main/jni/hev-socks5-tunnel/src/misc/hev-ring-buffer.c:54-62 | So many more bytes are freed; no byte still in use moves, also when an empty buffer starts over at zero |
| RingBuffer.HevRingBuffer.Writing | app/src/main/jni/hev-socks5-tunnel/src/misc/hev-ring-buffer.c:64-85 | The vectors name all the free bytes, and none that is unread or unreleased |
| RingBuffer.HevRingBuffer.WriteFinish | app/src/main/jni/hev-socks5-tunnel/src/misc/hev-ring-buffer.c:87-93 | What was put into the free bytes is now the end of the unread ones |
| SpliceTcp.SessionTcp.SpliceIn | app/src/main/jni/hev-socks5-tunnel/src/hev-socks5-session-tcp.c:86-105 | What the proxy socket gives is appended to what was received; no byte that is not acknowledged moves |
| SpliceTcp.SessionTcp.SpliceOut | app/src/main/jni/hev-socks5-tunnel/src/hev-socks5-session-tcp.c:106-131 | All that was received has been passed to tcp_write, by reference, in order; -1 if that or the output fails |
| SpliceTcp.SessionTcp.Sent | app/src/main/jni/hev-socks5-tunnel/src/hev-socks5-session-tcp.c:151-160 | Acknowledged bytes are freed, and no other byte moves |
| SpliceTcp.SessionTcp.Err | app/src/main/jni/hev-socks5-tunnel/src/hev-socks5-session-tcp.c:162-169 | The connection is marked as gone, and nothing else changes |
| SpliceTcp.SessionTcp.Lingers | app/src/main/jni/hev-socks5-tunnel/src/hev-socks5-session-tcp.c:229-235 | The session stays just while it is connected and some byte received is not acknowledged |
| SpliceTcp.SessionTcp.Referenced | app/src/main/jni/hev-socks5-tunnel/src/hev-socks5-session-tcp.c:86-160 | Every byte handed over and not acknowledged still lies where it was handed over |
| SpliceTcp.HandOver | app/src/main/jni/hev-socks5-tunnel/src/hev-socks5-session-tcp.c:106-125 | The bytes given to lwIP are those the vectors name |
| YamlEvents.AcceptsStreams | app/src/main/jni/hev-socks5-tunnel/third-part/yaml/src/parser.c:225-304 | The event machine accepts every stream of proper documents: balanced, and with an even number of nodes in a mapping |
| YamlEvents.AcceptedSpells | app/src/main/jni/hev-socks5-tunnel/third-part/yaml/src/parser.c:225-304 | Whatever it accepts spells documents and what is open of one |
| YamlEvents.FinishedIffStream | app/src/main/jni/hev-socks5-tunnel/third-part/yaml/src/parser.c:225-304 | It finishes on exactly the streams of proper documents |
| YamlEvents.AcceptedIffBegins | app/src/main/jni/hev-socks5-tunnel/third-part/yaml/src/parser.c:225-304 | It accepts exactly the event sequences that some stream of proper documents begins with |
| YamlParser.StepAdvances | app/src/main/jni/hev-socks5-tunnel/third-part/yaml/src/parser.c:225-304 | From every reachable state, one call emits an event the grammar allows next, pops no empty stack and comes nearer to the end |
| YamlParser.RunAccepts | app/src/main/jni/hev-socks5-tunnel/third-part/yaml/src/parser.c:169-189 | So does every run, with a bound on the number of its events |
| YamlParser.EventsObeyGrammar | app/src/main/jni/hev-socks5-tunnel/third-part/yaml/src/parser.c:170-1199 | For every token sequence the events are what some stream of proper documents begins with, at most four to a token; a parser that gets to the end has spelled a whole stream |
| YamlParser.ContentShape | app/src/main/jni/hev-socks5-tunnel/third-part/yaml/src/parser.c:631-717 | A node's content is a scalar or starts a collection; an opening token is left for the next state |
| YamlComplete.NodeParses | app/src/main/jni/hev-socks5-tunnel/third-part/yaml/src/parser.c:529-717 | For any node that the productions allow, block or flow, with any properties, aliases and empty parts, parsing the tokens that spell it emits exactly the events it means, scalar values and resolved tags included, and stops right behind it |
| YamlComplete.StreamParses | app/src/main/jni/hev-socks5-tunnel/third-part/yaml/src/parser.c:2-39 | For every stream of documents that the productions allow, with valid directives and declared tag handles, but for a key left out in a flow sequence or block mapping, the parser emits exactly the events the documents mean, and gets to the end |
| YamlComplete.KeylessPair | app/src/main/jni/hev-socks5-tunnel/third-part/yaml/src/parser.c:1009-1036 | A pair of a flow sequence whose key is left out is read as meant exactly if its value is left out too; otherwise the parser fails at the value |
| YamlComplete.KeyAlone | app/src/main/jni/hev-socks5-tunnel/third-part/yaml/src/parser.c:1009-1036 | A KEY alone in a flow sequence swallows the comma or bracket behind it; behind a comma that is as meant exactly if no entry follows, else the parser fails there |
| YamlComplete.KeylessValue | app/src/main/jni/hev-socks5-tunnel/third-part/yaml/src/parser.c:833-887 | A VALUE without KEY in a block mapping, which the productions allow, is an error |
| YamlParser.YamlParser.Parse | app/src/main/jni/hev-socks5-tunnel/third-part/yaml/src/parser.c:169-189 | Nothing after the end or an error, else exactly the step of the machine that StreamParses and EventsObeyGrammar are about; the end of the stream is noted just when it is reached |
| YamlParser.YamlParser.StateMachine | app/src/main/jni/hev-socks5-tunnel/third-part/yaml/src/parser.c:225-304 | The event, the next state, both stacks, the directives and the tokens left are those of the step |
| YamlParser.YamlParser.StreamStartState | app/src/main/jni/hev-socks5-tunnel/third-part/yaml/src/parser.c:312-331 | This state does its part of the step |
| YamlParser.YamlParser.Process | app/src/main/jni/hev-socks5-tunnel/third-part/yaml/src/parser.c:1228-1335 | Reads directives up to another token; fails on a second version, an unsupported one, or a repeated handle |
| YamlParser.YamlParser.Append | app/src/main/jni/hev-socks5-tunnel/third-part/yaml/src/parser.c:1341-1374 | A handle is recorded once |
| YamlParser.YamlParser.DocumentStartState | app/src/main/jni/hev-socks5-tunnel/third-part/yaml/src/parser.c:341-431 | Implicit, explicit or no document |
| YamlParser.YamlParser.DocumentContentState | app/src/main/jni/hev-socks5-tunnel/third-part/yaml/src/parser.c:439-459 | An empty scalar where a document ends at once |
| YamlParser.YamlParser.DocumentEndState | app/src/main/jni/hev-socks5-tunnel/third-part/yaml/src/parser.c:469-497 | The document's directives are forgotten |
| YamlParser.YamlParser.Node | app/src/main/jni/hev-socks5-tunnel/third-part/yaml/src/parser.c:529-630 | Alias, properties and content, tags resolved through the directives |
| YamlParser.YamlParser.Content | app/src/main/jni/hev-socks5-tunnel/third-part/yaml/src/parser.c:631-717 | The event a node starts with and the state it leads to, as the step has them whose events NodeParses tells |
| YamlParser.YamlParser.BlockSequenceEntryState | app/src/main/jni/hev-socks5-tunnel/third-part/yaml/src/parser.c:725-775 | This state does its part of the step |
| YamlParser.YamlParser.IndentlessSequenceEntryState | app/src/main/jni/hev-socks5-tunnel/third-part/yaml/src/parser.c:783-819 | This state does its part of the step |
| YamlParser.YamlParser.BlockMappingKeyState | app/src/main/jni/hev-socks5-tunnel/third-part/yaml/src/parser.c:833-884 | This state does its part of the step |
| YamlParser.YamlParser.BlockMappingValueState | app/src/main/jni/hev-socks5-tunnel/third-part/yaml/src/parser.c:898-932 | This state does its part of the step |
| YamlParser.YamlParser.FlowSequenceEntryState | app/src/main/jni/hev-socks5-tunnel/third-part/yaml/src/parser.c:948-1001 | This state does its part of the step |
| YamlParser.YamlParser.FlowSequenceEntryMappingKeyState | app/src/main/jni/hev-socks5-tunnel/third-part/yaml/src/parser.c:1009-1031 | This state does its part of the step, skipping a delimiter where the key is left out |
| YamlParser.YamlParser.FlowSequenceEntryMappingValueState | app/src/main/jni/hev-socks5-tunnel/third-part/yaml/src/parser.c:1039-1062 | This state does its part of the step |
| YamlParser.YamlParser.FlowSequenceEntryMappingEndState | app/src/main/jni/hev-socks5-tunnel/third-part/yaml/src/parser.c:1070-1083 | This state does its part of the step |
| YamlParser.YamlParser.FlowMappingKeyState | app/src/main/jni/hev-socks5-tunnel/third-part/yaml/src/parser.c:1099-1161 | This state does its part of the step |
| YamlParser.YamlParser.FlowMappingValueState | app/src/main/jni/hev-socks5-tunnel/third-part/yaml/src/parser.c:1169-1199 | This state does its part of the step |
| YamlLoader.WithChildFits | app/src/main/jni/hev-socks5-tunnel/third-part/yaml/src/loader.c:298-344 | A child goes to the end of a sequence, completes a pending pair, or begins a new one |
| YamlLoader.StepKeeps | app/src/main/jni/hev-socks5-tunnel/third-part/yaml/src/loader.c:217-544 | On every event the grammar allows inside a document no assertion of the loader fails, and its context stack follows the grammar |
| YamlLoader.EndsClosed | app/src/main/jni/hev-socks5-tunnel/third-part/yaml/src/loader.c:216-257 | At the end of a document the context is empty, every pair has its value and every child is a node |
| YamlBuilt.GraphStands | app/src/main/jni/hev-socks5-tunnel/third-part/yaml/src/loader.c:217-544 | The graph is the tree: node 1 stands for the root, each node is numbered in order and has the value, style, flow and explicit tag of its event, its children are the nodes of its child events in order, paired up in a mapping, and an alias is the node of its anchor; there are no other nodes |
| YamlRoundTrip.LoaderIsTotal | app/src/main/jni/hev-socks5-tunnel/third-part/yaml/src/loader.c:217-544 | So over any document |
| YamlRoundTrip.TreeDumps | app/src/main/jni/hev-socks5-tunnel/third-part/yaml/src/loader.c:217-544 | A node loaded after some others and dumped after them gives back its events: same values, styles and flows, each tag as it was or its default made explicit, the implicit flags set just where the tag is the default, anchors renamed; and the same targets |
| YamlRoundTrip.RoundTrip | app/src/main/jni/hev-socks5-tunnel/third-part/yaml/src/dumper.c:263-393 | Dumping a loaded document gives back the same tree, with values, styles, flows, tags and alias positions; anchors are renamed and those never aliased dropped; every node is dumped |
| YamlRoundTrip.OpeningRewrites | app/src/main/jni/hev-socks5-tunnel/third-part/yaml/src/dumper.c:315-393 | Loaded and dumped, an event keeps its value, style and flow; a tag left out or written ! becomes the default one, and the implicit flags say whether the tag is the default |
| YamlRoundTrip.AliasResolves | app/src/main/jni/hev-socks5-tunnel/third-part/yaml/src/loader.c:350-368 | An alias stands for the node of the one earlier event that has its name as anchor |
| YamlRoundTrip.StartsNumbered | app/src/main/jni/hev-socks5-tunnel/third-part/yaml/src/loader.c:374-408 | Nodes are numbered in the order of the events that start them |
| YamlRoundTrip.LoadsIffAnchored | app/src/main/jni/hev-socks5-tunnel/third-part/yaml/src/loader.c:263-292 | A document loads exactly if its anchors are unique and each comes before its aliases |
| YamlComposer.NodeTree | app/src/main/jni/hev-socks5-tunnel/third-part/yaml/src/loader.c:216-257 | The events pulled for one document are those of a tree |
| YamlComposer.DocumentStands | app/src/main/jni/hev-socks5-tunnel/third-part/yaml/src/loader.c:184-210 | Whatever the parser emits for a document spells a tree, and the graph loaded from it is that tree |
| YamlComposer.DocumentRoundTrip | app/src/main/jni/hev-socks5-tunnel/third-part/yaml/src/dumper.c:111-160 | The round trip, field by field, for whatever the parser emits for a document |
| YamlComposer.Composer.RegisterAnchor | app/src/main/jni/hev-socks5-tunnel/third-part/yaml/src/loader.c:263-292 | The anchor is recorded, or fails as a duplicate |
| YamlComposer.Composer.AddNode | app/src/main/jni/hev-socks5-tunnel/third-part/yaml/src/loader.c:298-344 | The open collection gets one more child, in place |
| YamlComposer.Composer.LoadAlias | app/src/main/jni/hev-socks5-tunnel/third-part/yaml/src/loader.c:350-368 | The aliased node becomes the child, or the alias is undefined |
| YamlComposer.Composer.LoadScalar | app/src/main/jni/hev-socks5-tunnel/third-part/yaml/src/loader.c:374-408 | The new node has the value and style of the event, and its tag or the default for none and !; its anchor and its parent as the step says |
| YamlComposer.Composer.LoadSequence | app/src/main/jni/hev-socks5-tunnel/third-part/yaml/src/loader.c:414-459 | And the new node is open |
| YamlComposer.Composer.LoadMapping | app/src/main/jni/hev-socks5-tunnel/third-part/yaml/src/loader.c:482-527 | And the new node is open |
| YamlComposer.Composer.LoadEnd | app/src/main/jni/hev-socks5-tunnel/third-part/yaml/src/loader.c:461-544 | What the source asserts holds, and the collection is closed |
| YamlComposer.Composer.LoadNodes | app/src/main/jni/hev-socks5-tunnel/third-part/yaml/src/loader.c:216-257 | Pulls the events of exactly one node and the document's end from the parser, and builds their graph; no assertion fails |
| YamlComposer.Composer.Load | app/src/main/jni/hev-socks5-tunnel/third-part/yaml/src/loader.c:86-132 | The next document, or an empty one at the end of the stream, or an error |
| YamlGraph.DumpMeets | app/src/main/jni/hev-socks5-tunnel/third-part/yaml/src/dumper.c:206-238 | The dumping walk meets the nodes exactly as the anchoring walk does, on cyclic graphs too |
| YamlGraph.DumpTells | app/src/main/jni/hev-socks5-tunnel/third-part/yaml/src/dumper.c:263-294 | An event is the node's own the first time the node is met, and an alias after |
| YamlDumper.TouchCounts | app/src/main/jni/hev-socks5-tunnel/third-part/yaml/src/dumper.c:206-238 | Reference counts are the numbers of meetings, and the identifiers given out are distinct |
| YamlDumper.AnchorNumber | app/src/main/jni/hev-socks5-tunnel/third-part/yaml/src/dumper.c:247-257 | The number can be read back from an anchor's name, so names differ |
| YamlDumper.AliasesFollowAnchors | app/src/main/jni/hev-socks5-tunnel/third-part/yaml/src/dumper.c:263-294 | An alias is never emitted before its anchor, and has its name |
| YamlDumper.AnchorsDiffer | app/src/main/jni/hev-socks5-tunnel/third-part/yaml/src/dumper.c:247-257 | No two nodes get the same anchor |
| YamlDumper.AnchoredIffAliased | app/src/main/jni/hev-socks5-tunnel/third-part/yaml/src/dumper.c:206-238 | A node gets an anchor exactly if it is met more than once |
| YamlEmitter.Emitter.AnchorNode | app/src/main/jni/hev-socks5-tunnel/third-part/yaml/src/dumper.c:206-238 | The recursive walk leaves the table that touching the nodes in depth-first order gives; it ends on cyclic graphs |
| YamlEmitter.Emitter.DumpNode | app/src/main/jni/hev-socks5-tunnel/third-part/yaml/src/dumper.c:263-294 | Emits the dump of the node and marks what it dumped |
| YamlEmitter.Emitter.DumpContent | app/src/main/jni/hev-socks5-tunnel/third-part/yaml/src/dumper.c:315-393 | The node's own event, its children and its end |
| YamlEmitter.Emitter.DumpDocument | app/src/main/jni/hev-socks5-tunnel/third-part/yaml/src/dumper.c:111-160 | The document's events between its start and end, or the end of the stream for an empty one |
| Utf8.DecodeEncode | app/src/main/jni/hev-socks5-tunnel/third-part/yaml/src/reader.c:240-294 | A character that the reader accepts is the encoding of its value |
| Utf8.EncodeDecode | app/src/main/jni/hev-socks5-tunnel/third-part/yaml/src/scanner.c:3251-3268 | The encoding of a code point is a character that the reader accepts, with that value |
| Utf8.ValidDecodes | app/src/main/jni/hev-socks5-tunnel/third-part/yaml/src/reader.c:240-294 | The strings that the reader accepts are exactly the encodings of code points |
| Utf8.EncodedValid | app/src/main/jni/hev-socks5-tunnel/third-part/yaml/src/reader.c:240-294 | In the other direction |
| YamlQuoted.QuotedReadable | app/src/main/jni/hev-socks5-tunnel/third-part/yaml/src/emitter.c:2050-2204 | The reader lets through everything the double-quoted writer writes, over broken lines too |
| YamlQuoted.BodyAscii | app/src/main/jni/hev-socks5-tunnel/third-part/yaml/src/emitter.c:2064-2066 | Without the unicode option all of it is printable ASCII, where lines are not broken |
| YamlQuoted.OneLine | app/src/main/jni/hev-socks5-tunnel/third-part/yaml/src/emitter.c:2172-2189 | Where lines may not be broken all is written on one line |
| YamlQuoted.QuotedWriter.WriteEscape | app/src/main/jni/hev-socks5-tunnel/third-part/yaml/src/emitter.c:2088-2170 | The shortest escape for a character, or its code of two, four or eight digits |
| YamlQuoted.QuotedWriter.WriteIndent | app/src/main/jni/hev-socks5-tunnel/third-part/yaml/src/emitter.c:1787-1805 | A line break unless the line is still blank up to the indentation, and spaces up to it |
| YamlQuoted.QuotedWriter.WriteDoubleQuoted | app/src/main/jni/hev-socks5-tunnel/third-part/yaml/src/emitter.c:2050-2204 | Exactly the quoted form of the scalar is appended, with lines broken where the layout says, and the column is that of its end |
| YamlScalar.EscapeBack | app/src/main/jni/hev-socks5-tunnel/third-part/yaml/src/scanner.c:3117-3276 | Every escape that the writer writes reads back as the character it was written for |
| YamlScalar.WrittenScans | app/src/main/jni/hev-socks5-tunnel/third-part/yaml/src/scanner.c:3024-3391 | Scanning what was written on one line for any valid UTF-8 string, whatever comes after it, gives back the string and stops right behind it |
| YamlScalar.LinesScan | app/src/main/jni/hev-socks5-tunnel/third-part/yaml/src/scanner.c:3024-3391 | Over broken lines too the string comes back, unless a line is broken in front of a document indicator and not indented; then the scanner fails |
| YamlScalar.IndentedScans | app/src/main/jni/hev-socks5-tunnel/third-part/yaml/src/scanner.c:3024-3391 | So it comes back wherever lines are indented or not broken |
| YamlScalar.BrokenAtIndicator | app/src/main/jni/hev-socks5-tunnel/third-part/yaml/src/scanner.c:3055-3068 | A string that, broken behind column 5 without indentation, is not scanned again |
| YamlSingle.SingleScans | app/src/main/jni/hev-socks5-tunnel/third-part/yaml/src/scanner.c:3024-3391 | Any text of one line comes back from between single quotes with its apostrophes doubled, and the scan stops right behind it |
| YamlScalar.FlowScanner.ReadEscape | app/src/main/jni/hev-socks5-tunnel/third-part/yaml/src/scanner.c:3117-3276 | An escape's text and length, or an error for an unknown letter or a bad code |
| YamlScalar.FlowScanner.ReadNonBlanks | app/src/main/jni/hev-socks5-tunnel/third-part/yaml/src/scanner.c:3077-3286 | The inner loop stops where and as the scan says |
| YamlScalar.FlowScanner.ReadBlanks | app/src/main/jni/hev-socks5-tunnel/third-part/yaml/src/scanner.c:3300-3363 | Blanks are kept, line breaks folded |
| YamlScalar.FlowScanner.ScanFlowScalar | app/src/main/jni/hev-socks5-tunnel/third-part/yaml/src/scanner.c:3024-3391 | Exactly the scan of the buffer, for both kinds of quotes |
| YamlScanner.FetchKeeps | app/src/main/jni/hev-socks5-tunnel/third-part/yaml/src/scanner.c:860-1049 | Every fetch keeps: one key for each flow level and one more; each possible key is at the waiting token that starts at its mark; their numbers grow with the level; tokens are in the order of the text; no block collection ends that did not begin, and as many are open as there are levels of indentation |
| YamlScanner.FetchEndKeeps | app/src/main/jni/hev-socks5-tunnel/third-part/yaml/src/scanner.c:1329-1361 | At the end every key is stale, and outside flow collections every block collection has been ended |
| YamlScanner.UnrollKeeps | app/src/main/jni/hev-socks5-tunnel/third-part/yaml/src/scanner.c:1258-1285 | Closes exactly the levels deeper than the column, down to the first |
| YamlScanner.SaveKeeps | app/src/main/jni/hev-socks5-tunnel/third-part/yaml/src/scanner.c:1097-1128 | A saved key is at the token that comes next, and the invariant of FetchKeeps holds |
| YamlScanner.KeyLandsBeforeItsToken | app/src/main/jni/hev-socks5-tunnel/third-part/yaml/src/scanner.c:1683-1759 | The KEY, with a BLOCK-MAPPING-START where the key's column begins a mapping, lands just before the waiting token that starts at the key's mark |
| YamlScanned.KeySaved | app/src/main/jni/hev-socks5-tunnel/third-part/yaml/src/scanner.c:1097-1128 | Behind a word or an opening bracket where a key is allowed, a key of its level is possible, with the number and mark of that token, and is required exactly if a block collection outside brackets is open at its column; where none is allowed the key has only grown older |
| YamlScanned.NodeUnit | app/src/main/jni/hev-socks5-tunnel/third-part/yaml/src/scanner.c:860-1049 | Inside brackets, or as a simple key, the lexemes of any node give exactly its tokens, and leave the key saved at its first lexeme on top |
| YamlScanned.NodeInBlock | app/src/main/jni/hev-socks5-tunnel/third-part/yaml/src/scanner.c:860-1049 | Outside brackets, by indentation, the lexemes of any node give exactly its tokens once what is deeper is closed, with block collections started and ended where columns say so |
| YamlScanned.ScanIsFetch | app/src/main/jni/hev-socks5-tunnel/third-part/yaml/src/scanner.c:742-854 | Handing tokens out between fetches, as many as the keys let go, does not change which tokens come |
| YamlScanned.PagesScan | app/src/main/jni/hev-socks5-tunnel/third-part/yaml/src/scanner.c:860-1049 | For the lexemes of any documents laid out by indentation, lines and brackets, with simple keys, the scanner hands out exactly the tokens that spell those documents, and no others |
| YamlReading.PagesRead | app/src/main/jni/hev-socks5-tunnel/third-part/yaml/src/parser.c:169-189 | Scanned and then parsed, such a text gives exactly the events its documents mean |
| YamlReading.MtuRead | app/src/main/jni/hev-socks5-tunnel/third-part/yaml/src/scanner.c:1683-1759 | The line mtu: 8500 of a configuration is read as a mapping of the key mtu to the value 8500 |
| YamlScanner.HandOutKeeps | app/src/main/jni/hev-socks5-tunnel/third-part/yaml/src/scanner.c:742-776 | Handing out a token that no key may still be put before keeps the invariant |
| YamlScanner.NeverStarves | app/src/main/jni/hev-socks5-tunnel/third-part/yaml/src/scanner.c:800-854 | The scanner never asks for more text than there is |
| YamlScanner.ScannedInOrder | app/src/main/jni/hev-socks5-tunnel/third-part/yaml/src/scanner.c:742-776 | The tokens of any text come in its order, block collections are nested, and all have ended if the flow collections have |
| YamlScanner.StartIsBetween | app/src/main/jni/hev-socks5-tunnel/third-part/yaml/src/scanner.c:1291-1323 | The scanner starts within the invariant |
| YamlScanner.TokenScanner.StaleSimpleKeys | app/src/main/jni/hev-socks5-tunnel/third-part/yaml/src/scanner.c:1056-1090 | Keys on an earlier line or more than 1024 characters back are gone; a required one is an error |
| YamlScanner.TokenScanner.SaveSimpleKey | app/src/main/jni/hev-socks5-tunnel/third-part/yaml/src/scanner.c:1097-1128 | Where a key is allowed it is saved as possible, with the number of the next token, the mark of the text and required just if a block collection is open at this column; where none is allowed nothing changes; an error just if a required key would be lost |
| YamlScanner.TokenScanner.RemoveSimpleKey | app/src/main/jni/hev-socks5-tunnel/third-part/yaml/src/scanner.c:1134-1155 | Does what the step says |
| YamlScanner.TokenScanner.RollIndent | app/src/main/jni/hev-socks5-tunnel/third-part/yaml/src/scanner.c:1205-1249 | Does what the step says |
| YamlScanner.TokenScanner.UnrollIndent | app/src/main/jni/hev-socks5-tunnel/third-part/yaml/src/scanner.c:1258-1285 | Does what the step says |
| YamlScanner.TokenScanner.FetchFlowCollectionStart | app/src/main/jni/hev-socks5-tunnel/third-part/yaml/src/scanner.c:1448-1485 | Does what the step says |
| YamlScanner.TokenScanner.FetchFlowCollectionEnd | app/src/main/jni/hev-socks5-tunnel/third-part/yaml/src/scanner.c:1491-1528 | Does what the step says |
| YamlScanner.TokenScanner.FetchSign | app/src/main/jni/hev-socks5-tunnel/third-part/yaml/src/scanner.c:1534-1677 | Does what the step says |
| YamlScanner.TokenScanner.FetchValue | app/src/main/jni/hev-socks5-tunnel/third-part/yaml/src/scanner.c:1683-1759 | Does what the step says |
| YamlScanner.TokenScanner.FetchToken | app/src/main/jni/hev-socks5-tunnel/third-part/yaml/src/scanner.c:1765-1789 | Does what the step says |
| YamlScanner.TokenScanner.FetchMoreTokens | app/src/main/jni/hev-socks5-tunnel/third-part/yaml/src/scanner.c:800-854 | Fetches until no possible key is at the head of the queue |
| YamlScanner.TokenScanner.Scan | app/src/main/jni/hev-socks5-tunnel/third-part/yaml/src/scanner.c:742-776 | One token more is handed out, and never touched again |
| TlsClientHello.AnswerStays | app/src/main/java/ru/ecubz/aiunblock/TlsClientHello.kt:14-46 | Once there is an answer, bytes that come later do not change it |
| TlsClientHello.RecordsDoNotMatter | app/src/main/java/ru/ecubz/aiunblock/TlsClientHello.kt:14-46 | However a message is split over handshake records, the answer is that of the message |
| TlsClientHello.ForeignRecordWaits | app/src/main/java/ru/ecubz/aiunblock/TlsClientHello.kt:20-24 | Behind handshake records, a record of another type and whatever follows it leave the answer at NeedMore exactly if a message was begun and is not finished |
| TlsClientHello.AlertBehindHello | app/src/main/java/ru/ecubz/aiunblock/TlsClientHello.kt:20-24 | An alert behind the first three bytes of a ClientHello is waited past, whatever comes then; alone it is reported |
| TlsClientHello.HelloBack | app/src/main/java/ru/ecubz/aiunblock/TlsClientHello.kt:48-89 | A well-formed ClientHello is complete, and its server name is read back |
| TlsClientHello.ExtensionsBack | app/src/main/java/ru/ecubz/aiunblock/TlsClientHello.kt:71-88 | The first server_name extension counts |
| TlsClientHello.ServerNameBack | app/src/main/java/ru/ecubz/aiunblock/TlsClientHello.kt:91-107 | And its first host_name entry, whose text HostComesOut tells |
| TlsClientHello.NameComesOut | app/src/main/java/ru/ecubz/aiunblock/TlsClientHello.kt:14-46 | Over any records, with anything after them, what the server_name extension of the hello gives comes out |
| TlsClientHello.HostComesOut | app/src/main/java/ru/ecubz/aiunblock/TlsClientHello.kt:14-46 | Over any records, with anything after them, the first host_name entry b of the first server_name extension gives no name exactly if b is white space throughout, else one of the same length with each byte below 0x80 as its character and U+FFFD for any other |
| TlsClientHello.NoHostComesOut | app/src/main/java/ru/ecubz/aiunblock/TlsClientHello.kt:14-46 | Without such an extension or entry there is no name |
| TlsClientHello.ParseServerName | app/src/main/java/ru/ecubz/aiunblock/TlsClientHello.kt:91-107 | The loop over entries finds the first host name, as the parse that HostComesOut is about |
| TlsClientHello.ParseExtensions | app/src/main/java/ru/ecubz/aiunblock/TlsClientHello.kt:71-88 | The loop over extensions finds the first server name |
| TlsClientHello.ParseHandshake | app/src/main/java/ru/ecubz/aiunblock/TlsClientHello.kt:48-89 | The cursor-driven parse gives what cutting the message up gives, and stays inside it |
| TlsClientHello.ParseBytes | app/src/main/java/ru/ecubz/aiunblock/TlsClientHello.kt:14-46 | The loop over records gives what joining them gives |
| Socks5Addr.DecodeEncode | app/src/main/jni/hev-socks5-tunnel/src/core/src/hev-socks5-misc.c:117-130 | An address is read back from its wire form |
| Socks5Addr.EncodeDecode | app/src/main/jni/hev-socks5-tunnel/src/core/src/hev-socks5-misc.c:117-130 | And what reads as an address is the wire form of it |
| UdpFraming.FramesBack | app/src/main/jni/hev-socks5-tunnel/src/core/src/hev-socks5-udp.c:160-232 | A batch read over any run of frames gives the same datagrams in order, as many as were asked for and had come, and goes on there next time |
| UdpFraming.FrameBackIff | app/src/main/jni/hev-socks5-tunnel/src/core/src/hev-socks5-udp.c:56-100 | A message that a buffer holds comes back from its frame just if its name has at most 248 bytes and its data less than 65536 |
| UdpFraming.LongName | app/src/main/jni/hev-socks5-tunnel/src/core/src/hev-socks5-udp.c:56-100 | A name of 249 bytes does not come back |
| UdpFraming.CountIsRight | app/src/main/jni/hev-socks5-tunnel/src/core/src/hev-socks5-udp.c:160-232 | When the stream ends inside a frame the result is the number of bytes that came of it; a positive result is the number of datagrams just if nothing is cut off or the two numbers happen to agree |
| UdpFraming.MiscountedExample | app/src/main/jni/hev-socks5-tunnel/src/core/src/hev-socks5-udp.c:178-189 | Two bytes and the end of the stream: the result says two datagrams, and there is none |
| UdpFraming.CountedByChance | app/src/main/jni/hev-socks5-tunnel/src/core/src/hev-socks5-udp.c:200-219 | A frame that is cut short and still counted right |
| UdpFraming.StaysInside | app/src/main/jni/hev-socks5-tunnel/src/core/src/hev-socks5-udp.c:193-213 | No read is told to write past a buffer of 252 bytes or more |
| UdpFraming.PastIff | app/src/main/jni/hev-socks5-tunnel/src/core/src/hev-socks5-udp.c:193-213 | A smaller buffer is written past just if the address of a frame alone is longer than it |
| UdpFraming.UnwrapIffWrapped | app/src/main/jni/hev-socks5-tunnel/src/core/src/hev-socks5-udp.c:234-310 | A datagram carries a message just if it is that message wrapped |
| UdpFraming.StaleDoesNotMatter | app/src/main/jni/hev-socks5-tunnel/src/core/src/hev-socks5-udp.c:281-302 | The byte past a four-byte datagram that a name's length is read from never changes the outcome |
| UdpFraming.RecvFrame | app/src/main/jni/hev-socks5-tunnel/src/core/src/hev-socks5-udp.c:171-229 | One frame, its header read in any pieces, into one buffer of any size; it stops where the source would write past the buffer |
| UdpFraming.RecvTcp | app/src/main/jni/hev-socks5-tunnel/src/core/src/hev-socks5-udp.c:160-232 | The buffers hold exactly the messages of the batch read, which stops where and as it says; buffers of 252 bytes or more are never written past |
| UdpFraming.SendTcp | app/src/main/jni/hev-socks5-tunnel/src/core/src/hev-socks5-udp.c:56-100 | All frames are sent in order, or nothing if an address is of no known type |
| UdpFraming.SendUdp | app/src/main/jni/hev-socks5-tunnel/src/core/src/hev-socks5-udp.c:102-144 | One wrapped datagram for each message |
| UdpFraming.RecvUdp | app/src/main/jni/hev-socks5-tunnel/src/core/src/hev-socks5-udp.c:234-310 | Each buffer gives the message its datagram carries; -1 just if one is malformed |
| RelayUdp.SentIsParsed | app/src/main/java/ru/ecubz/aiunblock/LocalSocksRelay.kt:352-385 | A datagram that the C side sends to a numeric address is parsed to that address, port and payload |
| RelayUdp.UnchangedIffNotMapped | app/src/main/java/ru/ecubz/aiunblock/LocalSocksRelay.kt:352-385 | The address is unchanged just if it is not an IPv4-mapped IPv6 one |
| RelayUdp.MappedChanges | app/src/main/java/ru/ecubz/aiunblock/LocalSocksRelay.kt:352-385 | The address ::ffff:1.2.3.4 comes through as 1.2.3.4 |
| RelayUdp.NameIsLookedUp | app/src/main/java/ru/ecubz/aiunblock/LocalSocksRelay.kt:352-385 | One sent to a name is parsed to the address the name is looked up to |
| RelayUdp.ResponseIsUnwrapped | app/src/main/java/ru/ecubz/aiunblock/LocalSocksRelay.kt:387-398 | The C side reads the Kotlin side's answer as the same address, port and payload |
| RelayUdp.ThereAndBack | app/src/main/java/ru/ecubz/aiunblock/LocalSocksRelay.kt:352-398 | What is sent to a numeric address comes back as from that address |
| RelayUdp.SockaddrNeverMapped | app/src/main/jni/hev-socks5-tunnel/src/core/src/hev-socks5-misc.c:161-175 | The addresses that the tunnel sends are never mapped ones, so they all come through unchanged |
| RelayUdp.ParseUdpRequest | app/src/main/java/ru/ecubz/aiunblock/LocalSocksRelay.kt:352-385 | The cursor-driven parse gives what cutting the packet up gives |
| RelayUdp.EncodeUdpResponse | app/src/main/java/ru/ecubz/aiunblock/LocalSocksRelay.kt:387-398 | The array filled in is the response |
| Handshake.SameEnding | app/src/main/jni/hev-socks5-tunnel/src/core/src/hev-socks5-client.c:325-401 | Against a server that goes by the bytes it has read, answers at once and chooses only what was offered, both handshakes succeed or both fail, and send the same when they succeed |
| Handshake.StandardIffPrompt | app/src/main/jni/hev-socks5-tunnel/src/core/src/hev-socks5-client.c:325-401 | Against a server that chooses what was offered, the standard handshake succeeds exactly where the pipelined one does and the server answers at once |
| Handshake.AlikeIff | app/src/main/jni/hev-socks5-tunnel/src/core/src/hev-socks5-client.c:325-401 | Where the pipelined handshake succeeds the two end alike just if the server answers at once and does not pass over a login; where the standard one does, just if it does not pass over a login; otherwise always |
| Handshake.WaitingServer | app/src/main/jni/hev-socks5-tunnel/src/core/src/hev-socks5-client.c:364-401 | A server that does not answer at once: only the pipelined one succeeds |
| Handshake.CarelessServer | app/src/main/jni/hev-socks5-tunnel/src/core/src/hev-socks5-client.c:364-401 | A server that chooses what was not offered: only the standard one succeeds |
| Handshake.HevSocks5Client.WriteAuthCreds | app/src/main/jni/hev-socks5-tunnel/src/core/src/hev-socks5-client.c:55-91 | User and password with one-byte lengths, or nothing |
| Handshake.HevSocks5Client.ReadAuthMethod | app/src/main/jni/hev-socks5-tunnel/src/core/src/hev-socks5-client.c:161-182 | The method chosen, or a failure |
| Handshake.HevSocks5Client.ReadResponse | app/src/main/jni/hev-socks5-tunnel/src/core/src/hev-socks5-client.c:214-268 | Succeeds just on a success reply with a numeric address that is taken; then the upstream address is that of the reply, byte for byte, and otherwise as before |
| Handshake.HevSocks5Client.HandshakeStandard | app/src/main/jni/hev-socks5-tunnel/src/core/src/hev-socks5-client.c:325-362 | Ends as, and has sent what, the standard handshake does; the upstream address is then the one of the reply behind the greeting and login, and unchanged after a failure |
| Handshake.HevSocks5Client.HandshakePipeline | app/src/main/jni/hev-socks5-tunnel/src/core/src/hev-socks5-client.c:364-401 | Ends as, and has sent what, the pipelined handshake does; the upstream address is the one of the reply, and unchanged after a failure |
| Handshake.HevSocks5Client.Handshake | app/src/main/jni/hev-socks5-tunnel/src/core/src/hev-socks5-client.c:403-428 | The one asked for, with its upstream address, and the timeout that goes with the session's type |
| LocalSocksRelay.OutMore | app/src/main/java/ru/ecubz/aiunblock/LocalSocksRelay.kt:106-137 | What the relay has written stays written when more input comes |
| LocalSocksRelay.RelayAnswers | app/src/main/java/ru/ecubz/aiunblock/LocalSocksRelay.kt:106-137 | At every point where a client may wait the relay has answered, and it waits itself only where the client still has something to send: neither waits for the other |
| LocalSocksRelay.RequestIsRead | app/src/main/java/ru/ecubz/aiunblock/LocalSocksRelay.kt:130-137 | The relay reads exactly the command, address and port that were sent |
| LocalSocksRelay.AnonymousIsDenied | app/src/main/java/ru/ecubz/aiunblock/LocalSocksRelay.kt:106-126 | A client that offers no login is turned away at once |
| LocalSocksRelay.ReplyIsGranted | app/src/main/java/ru/ecubz/aiunblock/LocalSocksRelay.kt:432-447 | A client takes the reply just if its code is 0 and it takes the bound address |
| LocalSocksRelay.BothSucceedIff | app/src/main/java/ru/ecubz/aiunblock/LocalSocksRelay.kt:106-137 | Both handshakes succeed against the relay just if the login is its own and it grants the request |
| LocalSocksRelay.Session.NegotiateSession | app/src/main/java/ru/ecubz/aiunblock/LocalSocksRelay.kt:106-126 | Writes what the negotiation says, and goes on just if the login is right |
| LocalSocksRelay.Session.ReadRequestFrom | app/src/main/java/ru/ecubz/aiunblock/LocalSocksRelay.kt:130-137 | The request, or an exception |
| LocalSocksRelay.Session.WriteReply | app/src/main/java/ru/ecubz/aiunblock/LocalSocksRelay.kt:432-447 | The reply's bytes |
| LocalSocksRelay.Session.HandleClient | app/src/main/java/ru/ecubz/aiunblock/LocalSocksRelay.kt:86-104 | All that is written up to the answer to the request |
| LocalSocksRelay.ReadClientHello | app/src/main/java/ru/ecubz/aiunblock/LocalSocksRelay.kt:211-228 | It reads chunk by chunk up to the first one after which there is an answer, the buffer is full or nothing came, and no further |
| LocalSocksRelay.StopsSettled | app/src/main/java/ru/ecubz/aiunblock/LocalSocksRelay.kt:211-228 | If there is an answer then, it is the one for everything that arrives, however the bytes are cut; if not, the last read gave nothing or the buffer is full |

## Left out

- Create: the cache holds at least one name; the tunnel makes no cache for size 0, and a negative size, which the source does not check, is not modelled.
- Handle: the arrays ips and ipo of 32 entries are sequences, and the conversion of the request's question count to host order in place is not modelled; the count is read where it is used.
- Find: allocation is taken to succeed, so the -1 for a node that cannot be allocated is not modelled.
- SpliceIn: a chunk longer than the free space cannot come, because the vectors given to readv name exactly that space.
- DumpDocument: the events an emitter makes of a document are collected; writing them as text is not modelled, apart from double-quoted scalars.
- StepAdvances: marks inside events and the limits of the stacks and the nesting depth are not modelled.
- Load: must not be called again after an error, as the source's own assertion demands.
- FetchKeeps: the limit on nesting that ends in a memory error is not modelled.
- FetchToken: stands for the scanning of anchors, tags and scalars, of which only where they start and end and the kind of token matter to the queue.
- SingleScans: says nothing of texts with line breaks, which the scanner folds.
- ScanFlowScalar: the buffer is all that will ever be read, ended by a NUL, and a byte that can lead no character counts as an error; the reader lets none through.
- RecvTcp: a connection that fails counts as one that ends; where a read would write past a buffer that is shorter than a frame's address, the model stops, and what the source does then is not modelled.
- RecvUdp: binding the socket to the first sender is not modelled.
- ReadClientHello: a timeout and the end of the input are the same empty read.
- HandshakeStandard: a reply that never comes and a closed connection are both a failed read; sending never fails.
- HandleClient: relaying data after the answer, and choosing a gateway by server name, are not modelled.
- LateStop: threads spin on WAIT without a step of their own, and the acquire and release orders are taken as sequentially consistent.
- The scheduler, lwIP, sockets, signals and logging: their sources are not part of this model.
- tcp_splice_f, the forward half of the splice: it passes on pbufs and keeps no state.
- The rest of the YAML emitter and the UTF-16 writer and reader.
- Scanning of plain and block scalars, directives, anchors and tags as text.
- Android services, routing rules, gateway probing and preferences: platform plumbing, or easy lookups.
- The SOCKS5 server side in C: the app talks to the Kotlin relay, which is modelled.
