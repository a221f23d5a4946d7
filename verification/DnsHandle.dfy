/**
 `hev_mapped_dns_handle`: the answer to one DNS query, built in place. The functions say what
 a query asks and what its answer is; the methods are proved to compute exactly that.
 */
module DnsHandle {
  import opened Bytes
  import opened DnsReader
  import opened Word
  import LruCache
  import opened MappedDns

  /** One A/IN question: where it starts and the dotted name it asks for. */
  datatype Asked = Asked(pos: nat, name: Name)

  /** What reading the questions comes to. Questions before a fault have been asked. */
  datatype Scan = Scan(ok: bool, end: nat, asked: seq<Asked>)

  const DOT: byte := 46

  function U16(q: seq<byte>, off: nat): nat
    requires off + 2 <= |q|
  {
    var hi: int := q[off];
    hi * 256 + q[off + 1]
  }

  /** Where the name that starts at `off` ends: the index of its zero length byte. */
  function NameEnd(q: seq<byte>, off: nat): (z: Option<nat>)
    requires off < |q|
    ensures z.Some? ==> off <= z.value < |q| && q[z.value] == 0
    decreases |q| - off
  {
    if q[off] == 0 then Some(off)
    else if off + 1 + q[off] >= |q| then None
    else NameEnd(q, off + 1 + q[off])
  }

  /** The labels of the name, joined by dots. */
  function Dotted(q: seq<byte>, off: nat): Name
    requires off < |q| && NameEnd(q, off).Some?
    decreases |q| - off
  {
    if q[off] == 0 then []
    else
      var next := off + 1 + q[off];
      q[off + 1..next] + if q[next] == 0 then [] else [DOT] + Dotted(q, next)
  }

  /** A C string ends at its first zero byte. */
  function CString(s: Name): (t: Name)
    ensures |t| <= |s| && t == s[..|t|] && (|t| < |s| ==> s[|t|] == 0)
    ensures forall i :: 0 <= i < |t| ==> t[i] != 0
  {
    if s == [] || s[0] == 0 then [] else [s[0]] + CString(s[1..])
  }

  /** Whether a question can be read at `off`, and then where the next one starts. */
  function NextQuestion(q: seq<byte>, off: nat): (next: Option<nat>)
    ensures next.Some? ==> off < next.value <= |q|
  {
    if off >= |q| || NameEnd(q, off).None? || NameEnd(q, off).value + 4 >= |q| then None
    else Some(NameEnd(q, off).value + 5)
  }

  /** The name asked for at `off`, if it is an A/IN question. */
  function AskedAt(q: seq<byte>, off: nat): Option<Name>
    requires NextQuestion(q, off).Some?
  {
    var t := NameEnd(q, off).value + 1;
    if U16(q, t) == 1 && U16(q, t + 2) == 1 then Some(CString(Dotted(q, off))) else None
  }

  function Prepend(seen: seq<Asked>, s: Scan): Scan {
    s.(asked := seen + s.asked)
  }

  /** What a question at `off` adds to those asked. */
  function Noted(off: nat, name: Option<Name>): seq<Asked> {
    if name.Some? then [Asked(off, name.value)] else []
  }

  function AskedHere(q: seq<byte>, off: nat): seq<Asked>
    requires NextQuestion(q, off).Some?
  {
    Noted(off, AskedAt(q, off))
  }

  /** The `n` questions from `off` on. */
  function Questions(q: seq<byte>, off: nat, n: nat): (s: Scan)
    ensures |s.asked| <= n
    ensures s.ok ==> off <= s.end && (off <= |q| ==> s.end <= |q|)
    decreases n
  {
    if n == 0 then Scan(true, off, [])
    else if NextQuestion(q, off).None? then Scan(false, off, [])
    else Prepend(AskedHere(q, off), Questions(q, NextQuestion(q, off).value, n - 1))
  }

  function Names(asked: seq<Asked>): (names: seq<Name>)
    ensures |names| == |asked|
    ensures forall i :: 0 <= i < |asked| ==> names[i] == asked[i].name
  {
    if asked == [] then [] else Names(asked[..|asked| - 1]) + [asked[|asked| - 1].name]
  }

  // ---------------------------------------------------------------- reading one name

  /** The buffer, when the walk that began at `start` stands at `off`. */
  ghost predicate Walked(rb: seq<byte>, q: seq<byte>, start: nat, off: nat) {
    && start <= off < |q| <= |rb|
    && NameEnd(q, start) == NameEnd(q, off)
    && rb[off..|q|] == q[off..]
    && (start < off && NameEnd(q, off).Some? ==> rb[start + 1..off] + Tail(q, off) == Dotted(q, start))
  }

  /** The walk over the labels, writing a dot over every length byte. */
  method WalkName(rb: array<byte>, qlen: nat, start: nat, ghost q: seq<byte>) returns (ok: bool, off: nat)
    requires start < qlen == |q| <= rb.Length && rb[start..qlen] == q[start..]
    modifies rb
    ensures ok <==> NameEnd(q, start).Some?
    ensures ok ==> off == NameEnd(q, start).value && Walked(rb[..], q, start, off)
  {
    off := start;
    while rb[off] != 0
      invariant Walked(rb[..], q, start, off)
      decreases qlen - off
    {
      var poff := off;
      ghost var before := rb[..];
      assert rb[off] == before[off..|q|][0];
      off := off + 1 + rb[off];
      if off >= qlen {
        return false, off;
      }
      rb[poff] := DOT;
      OneLabel(before, rb[..], q, start, poff, off);
    }
    assert rb[off] == rb[..][off..|q|][0];
    ok := true;
  }

  /** What follows the terminator-or-text at `off` in the dotted text. */
  function Tail(q: seq<byte>, off: nat): Name
    requires off < |q| && NameEnd(q, off).Some?
  {
    if q[off] == 0 then [] else [DOT] + Dotted(q, off)
  }

  lemma NameTurn(q: seq<byte>, poff: nat, off: nat)
    requires poff < |q| && q[poff] != 0 && off == poff + 1 + q[poff] < |q|
    ensures NameEnd(q, poff) == NameEnd(q, off)
    ensures NameEnd(q, off).Some? ==> Dotted(q, poff) == q[poff + 1..off] + Tail(q, off)
  {
  }

  lemma TailIs(q: seq<byte>, off: nat)
    requires off < |q| && q[off] != 0 && NameEnd(q, off).Some?
    ensures Tail(q, off) == [DOT] + Dotted(q, off)
  {
  }

  /** One turn of the walk: the text at `poff` joins the text. */
  lemma OneLabel(before: seq<byte>, after: seq<byte>, q: seq<byte>, start: nat, poff: nat, off: nat)
    requires Walked(before, q, start, poff) && q[poff] != 0
    requires off == poff + 1 + q[poff] < |q|
    requires after == before[poff := DOT]
    ensures Walked(after, q, start, off)
  {
    hide NameEnd, Dotted, Tail;
    NameTurn(q, poff, off);
    Window(before, after, q, poff, off);
    if NameEnd(q, off).Some? {
      TailIs(q, poff);
      var text, rest := q[poff + 1..off], Tail(q, off);
      if start < poff {
        LabelJoins(before, after, start + 1, poff, off, text);
        Join4(before[start + 1..poff], [DOT], text, rest);
      }
    }
  }

  lemma Window(before: seq<byte>, after: seq<byte>, q: seq<byte>, poff: nat, off: nat)
    requires poff < off < |q| <= |before| && before[poff..|q|] == q[poff..] && after == before[poff := DOT]
    ensures after[off..|q|] == q[off..] && after[poff + 1..off] == q[poff + 1..off]
  {
    assert forall i :: poff <= i < |q| ==> before[i] == before[poff..|q|][i - poff] == q[poff..][i - poff] == q[i];
  }

  lemma LabelJoins(before: seq<byte>, after: seq<byte>, lo: nat, poff: nat, off: nat, text: Name)
    requires lo <= poff < off <= |before| && after == before[poff := DOT] && after[poff + 1..off] == text
    ensures after[lo..off] == before[lo..poff] + [DOT] + text
  {
  }

  lemma Join4(a: Name, b: Name, c: Name, d: Name)
    ensures a + (b + (c + d)) == a + b + c + d
  {
  }

  /** The C string at `from`; a zero byte at `z` bounds it. */
  method ReadString(rb: array<byte>, from: nat, ghost z: nat) returns (name: Name)
    requires from <= z < rb.Length && rb[z] == 0
    ensures name == CString(rb[from..z])
  {
    var k := from;
    name := [];
    while rb[k] != 0
      invariant from <= k <= z && name == rb[from..k]
      invariant forall i :: 0 <= i < |name| ==> name[i] != 0
      decreases z - k
    {
      name := name + [rb[k]];
      k := k + 1;
    }
    CStringIs(rb[from..z], name);
  }

  lemma {:induction false} CStringIs(s: Name, t: Name)
    requires |t| <= |s| && t == s[..|t|] && (|t| < |s| ==> s[|t|] == 0)
    requires forall i :: 0 <= i < |t| ==> t[i] != 0
    ensures CString(s) == t
  {
    if t != [] {
      CStringIs(s[1..], t[1..]);
      assert t == [t[0]] + t[1..];
    }
  }

  // ---------------------------------------------------------------- reading the questions

  method ReadU16(p: array<byte>, off: nat) returns (v: nat)
    requires off + 2 <= p.Length
    ensures v == U16(p[..], off)
  {
    var hi: int := p[off];
    v := hi * 256 + p[off + 1];
  }

  method ReadQuestion(rb: array<byte>, qlen: nat, start: nat, ghost q: seq<byte>)
    returns (ok: bool, off: nat, asked: Option<Name>)
    requires start <= qlen == |q| <= rb.Length && rb[start..qlen] == q[start..]
    modifies rb
    ensures ok <==> NextQuestion(q, start).Some?
    ensures ok ==> off == NextQuestion(q, start).value && asked == AskedAt(q, start) && rb[off..qlen] == q[off..]
  {
    asked := None;
    if start >= qlen {
      return false, start, None;
    }
    ok, off := WalkName(rb, qlen, start, q);
    if !ok {
      return;
    }
    ghost var z := off;
    off := off + 1;
    if off + 3 >= qlen {
      return false, off, None;
    }
    Suffix(rb[..], q, z, off);
    Suffix(rb[..], q, z, off + 4);
    var qtype := ReadU16(rb, off);
    var qclass := ReadU16(rb, off + 2);
    if qtype == 1 && qclass == 1 {
      if start < z {
        assert rb[start + 1..z] + [] == rb[start + 1..z];
      }
      var name := ReadString(rb, start + 1, if start < z then z else z + 1);
      asked := Some(name);
    }
    off := off + 4;
  }

  lemma Suffix(rb: seq<byte>, q: seq<byte>, z: nat, off: nat)
    requires z <= off <= |q| <= |rb| && rb[z..|q|] == q[z..]
    ensures rb[off..|q|] == q[off..]
    ensures forall i :: z <= i < |q| ==> rb[i] == q[i]
  {
    assert forall i :: z <= i < |q| ==> rb[i] == rb[z..|q|][i - z] == q[z..][i - z] == q[i];
  }

  /** The cache operations a list of questions comes to. */
  function FindOps(names: seq<Name>): (ops: seq<LruCache.Op>)
    ensures |ops| == |names|
  {
    if names == [] then [] else FindOps(names[..|names| - 1]) + [LruCache.FindOp(names[|names| - 1])]
  }

  /** The cache after those questions. */
  function RunFinds(c: seq<LruCache.Entry>, max: nat, names: seq<Name>): seq<LruCache.Entry>
    requires |c| <= max && 1 <= max
  {
    LruCache.Run(c, max, FindOps(names))
  }

  /** The index that answers question `i`. */
  function IndexOf(c: seq<LruCache.Entry>, max: nat, names: seq<Name>, i: nat): int
    requires |c| <= max && 1 <= max && i < |names|
  {
    LruCache.FindIndex(RunFinds(c, max, names[..i]), max, names[i])
  }

  lemma FindOpsSnoc(c: seq<LruCache.Entry>, max: nat, names: seq<Name>, name: Name)
    requires |c| <= max && 1 <= max
    ensures FindOps(names + [name]) == FindOps(names) + [LruCache.FindOp(name)]
    ensures RunFinds(c, max, names + [name]) == LruCache.Find(RunFinds(c, max, names), max, name)
    ensures IndexOf(c, max, names + [name], |names|) == LruCache.FindIndex(RunFinds(c, max, names), max, name)
  {
    assert (names + [name])[..|names|] == names;
    var ops := FindOps(names);
    assert (ops + [LruCache.FindOp(name)])[..|ops|] == ops;
  }

  /** The answers prepared so far are those of the questions in `asked`. */
  ghost predicate Prepared(c: seq<LruCache.Entry>, max: nat, net: word, asked: seq<Asked>, ipo: seq<nat>,
      ips: seq<word>)
    requires |c| <= max && 1 <= max
  {
    && |asked| == |ipo| == |ips|
    && forall i :: 0 <= i < |asked| ==>
      ipo[i] == asked[i].pos && IsAddress(ips[i], net, IndexOf(c, max, Names(asked), i))
  }

  lemma NamesSnoc(asked: seq<Asked>, a: Asked)
    ensures Names(asked + [a]) == Names(asked) + [a.name]
  {
  }

  lemma IndexOfPrefix(c: seq<LruCache.Entry>, max: nat, names: seq<Name>, name: Name, i: nat)
    requires |c| <= max && 1 <= max && i < |names|
    ensures IndexOf(c, max, names + [name], i) == IndexOf(c, max, names, i)
  {
    assert (names + [name])[..i] == names[..i];
  }

  lemma {:induction false} PreparedSnoc(c: seq<LruCache.Entry>, max: nat, net: word, asked: seq<Asked>, a: Asked,
      ipo: seq<nat>, ips: seq<word>, ip: word)
    requires |c| <= max && 1 <= max && Prepared(c, max, net, asked, ipo, ips)
    requires IsAddress(ip, net, LruCache.FindIndex(RunFinds(c, max, Names(asked)), max, a.name))
    ensures Prepared(c, max, net, asked + [a], ipo + [a.pos], ips + [ip])
  {
    var names, n := Names(asked), |asked|;
    NamesSnoc(asked, a);
    FindOpsSnoc(c, max, names, a.name);
    var ipo', ips' := ipo + [a.pos], ips + [ip];
    forall i | 0 <= i < n + 1
      ensures ipo'[i] == (asked + [a])[i].pos && IsAddress(ips'[i], net, IndexOf(c, max, names + [a.name], i))
    {
      if i < n {
        IndexOfPrefix(c, max, names, a.name, i);
      }
    }
  }

  lemma PrependAssoc(a: seq<Asked>, b: seq<Asked>, s: Scan)
    ensures Prepend(a, Prepend(b, s)) == Prepend(a + b, s)
  {
    assert a + (b + s.asked) == a + b + s.asked;
  }

  lemma AddressFits(net: word, idx: nat)
    requires idx < 0x8000_0000
    ensures Or(net, idx) < WORD
  {
    Pow2Word();
    OrFits(net, idx, 32);
  }

  lemma Pow2Word()
    ensures Pow2(32) == WORD
  {
    assert Pow2(8) == 256;
    Pow2Plus(8, 8);
    Pow2Plus(16, 16);
  }

  lemma {:induction false} Pow2Plus(a: nat, b: nat)
    ensures Pow2(a + b) == Pow2(a) * Pow2(b)
  {
    if a != 0 {
      Pow2Plus(a - 1, b);
      assert Pow2(a) * Pow2(b) == 2 * (Pow2(a - 1) * Pow2(b));
    }
  }

  // ---------------------------------------------------------------- asking the cache

  /** One question put to the cache. */
  method Ask(dns: HevMappedDns, name: Name) returns (ip: word, ghost idx: nat)
    requires dns.Valid()
    modifies dns, dns.list, dns.tree, dns.records, dns.tree.cells.Keys, dns.list.nodes
    ensures dns.Valid() && fresh(dns.list.nodes - old(dns.list.nodes))
    ensures Answers(old(dns.view), dns.max, name, dns.view, idx)
    ensures IsAddress(ip, dns.net, idx)
  {
    var i, _ := dns.Find(name);
    ViewWf(dns);
    idx := i;
    AddressFits(dns.net, i);
    ip := Or(dns.net, i);
  }

  /** The view and the notes, after the questions in `seen`. */
  ghost predicate Progress(view: seq<LruCache.Entry>, max: int, net: word, c: seq<LruCache.Entry>, seen: seq<Asked>,
      ipo: seq<nat>, ips: seq<word>) {
    |c| <= max && 1 <= max && view == RunFinds(c, max, Names(seen)) && Prepared(c, max, net, seen, ipo, ips)
  }

  lemma {:induction false} ProgressSnoc(view: seq<LruCache.Entry>, max: int, net: word, c: seq<LruCache.Entry>,
      seen: seq<Asked>, ipo: seq<nat>, ips: seq<word>,
                     a: Asked, view': seq<LruCache.Entry>, idx: nat, ip: word)
    requires Progress(view, max, net, c, seen, ipo, ips)
    requires Answers(view, max, a.name, view', idx) && IsAddress(ip, net, idx)
    ensures Progress(view', max, net, c, seen + [a], ipo + [a.pos], ips + [ip])
  {
    NamesSnoc(seen, a);
    FindOpsSnoc(c, max, Names(seen), a.name);
    PreparedSnoc(c, max, net, seen, a, ipo, ips, ip);
  }

  /** Reading touches only the buffer, asking only the cache. */
  method ReadNext(dns: HevMappedDns, rb: array<byte>, qlen: nat, start: nat, ghost q: seq<byte>)
    returns (ok: bool, off: nat, asked: Option<Name>)
    requires dns.Valid() && start <= qlen == |q| <= rb.Length && rb[start..qlen] == q[start..]
    modifies rb
    ensures dns.Valid() && dns.view == old(dns.view)
    ensures ok <==> NextQuestion(q, start).Some?
    ensures ok ==> off == NextQuestion(q, start).value && asked == AskedAt(q, start) && rb[off..qlen] == q[off..]
  {
    hide HevMappedDns.Valid;
    assert (rb as object) != (dns.records as object);
    ok, off, asked := ReadQuestion(rb, qlen, start, q);
  }

  method AskNext(dns: HevMappedDns, start: nat, asked: Option<Name>, ipo: seq<nat>, ips: seq<word>,
      ghost c: seq<LruCache.Entry>, ghost seen: seq<Asked>)
    returns (ipo': seq<nat>, ips': seq<word>)
    requires dns.Valid() && Progress(dns.view, dns.max, dns.net, c, seen, ipo, ips)
    modifies dns, dns.list, dns.tree, dns.records, dns.tree.cells.Keys, dns.list.nodes
    ensures dns.Valid() && fresh(dns.list.nodes - old(dns.list.nodes))
    ensures Progress(dns.view, dns.max, dns.net, c, seen + Noted(start, asked), ipo', ips')
  {
    ipo', ips' := ipo, ips;
    assert seen + [] == seen;
    if asked.Some? {
      ghost var view, idx := dns.view, 0;
      var ip;
      ip, idx := Ask(dns, asked.value);
      ProgressSnoc(view, dns.max, dns.net, c, seen, ipo, ips, Asked(start, asked.value), dns.view, idx, ip);
      ipo', ips' := ipo + [start], ips + [ip];
    }
  }

  method AskBeside(dns: HevMappedDns, rb: array<byte>, start: nat, asked: Option<Name>, ipo: seq<nat>, ips: seq<word>,
      ghost c: seq<LruCache.Entry>, ghost seen: seq<Asked>)
    returns (ipo': seq<nat>, ips': seq<word>)
    requires dns.Valid() && Progress(dns.view, dns.max, dns.net, c, seen, ipo, ips)
    modifies dns, dns.list, dns.tree, dns.records, dns.tree.cells.Keys, dns.list.nodes
    ensures dns.Valid() && fresh(dns.list.nodes - old(dns.list.nodes))
    ensures Progress(dns.view, dns.max, dns.net, c, seen + Noted(start, asked), ipo', ips')
    ensures rb[..] == old(rb[..])
  {
    hide HevMappedDns.Valid, Progress;
    assert (rb as object) != (dns.records as object);
    ipo', ips' := AskNext(dns, start, asked, ipo, ips, c, seen);
  }

  /** What is left to read at `off` completes what was seen to the whole. */
  ghost predicate Rest(q: seq<byte>, qd: nat, seen: seq<Asked>, off: nat, n: nat) {
    off <= |q| && Questions(q, 12, qd) == Prepend(seen, Questions(q, off, n))
  }

  lemma RestNext(q: seq<byte>, qd: nat, seen: seq<Asked>, off: nat, n: nat)
    requires Rest(q, qd, seen, off, n) && 0 < n
    ensures NextQuestion(q, off).None? ==>
      !Questions(q, 12, qd).ok && Questions(q, 12, qd).asked == seen
    ensures NextQuestion(q, off).Some? ==>
      Rest(q, qd, seen + AskedHere(q, off), NextQuestion(q, off).value, n - 1)
  {
    if NextQuestion(q, off).Some? {
      PrependAssoc(seen, AskedHere(q, off), Questions(q, NextQuestion(q, off).value, n - 1));
    }
  }

  /** One turn of the loop over the questions. */
  method AskOne(dns: HevMappedDns, rb: array<byte>, qlen: nat, start: nat, ipo: seq<nat>, ips: seq<word>,
      ghost q: seq<byte>, ghost c: seq<LruCache.Entry>, ghost seen: seq<Asked>)
    returns (ok: bool, off: nat, ipo': seq<nat>, ips': seq<word>)
    requires dns.Valid() && Progress(dns.view, dns.max, dns.net, c, seen, ipo, ips)
    requires start <= qlen == |q| <= rb.Length && rb[start..qlen] == q[start..]
    modifies rb
    modifies dns, dns.list, dns.tree, dns.records, dns.tree.cells.Keys, dns.list.nodes
    ensures ok <==> NextQuestion(q, start).Some?
    ensures ok ==> off == NextQuestion(q, start).value && rb[off..qlen] == q[off..]
    ensures ok ==> Progress(dns.view, dns.max, dns.net, c, seen + AskedHere(q, start), ipo', ips')
    ensures !ok ==> Progress(dns.view, dns.max, dns.net, c, seen, ipo', ips')
    ensures dns.Valid()
    ensures fresh(dns.list.nodes - old(dns.list.nodes))
  {
    hide HevMappedDns.Valid;
    var asked;
    ipo', ips' := ipo, ips;
    ok, off, asked := ReadNext(dns, rb, qlen, start, q);
    if ok {
      ipo', ips' := AskBeside(dns, rb, start, asked, ipo, ips, c, seen);
    }
  }

  lemma RestAll(q: seq<byte>, qd: nat)
    requires 12 <= |q|
    ensures Rest(q, qd, [], 12, qd)
  {
  }

  lemma RestNone(q: seq<byte>, qd: nat, seen: seq<Asked>, off: nat)
    requires Rest(q, qd, seen, off, 0)
    ensures Questions(q, 12, qd) == Scan(true, off, seen)
  {
    assert seen + [] == seen;
  }

  lemma Bounded(dns: HevMappedDns)
    requires dns.Valid()
    ensures |dns.view| <= dns.max && 1 <= dns.max
    ensures LruCache.Wf(dns.view, dns.max)
    ensures dns.tree.cells.Keys == dns.list.nodes
  {
    ViewWf(dns);
  }

  lemma ProgressAtStart(dns: HevMappedDns)
    requires |dns.view| <= dns.max && 1 <= dns.max
    ensures Progress(dns.view, dns.max, dns.net, dns.view, [], [], [])
  {
  }

  /** Reads the questions and asks the cache for each A/IN name, noting position and address. */
  method AskAll(dns: HevMappedDns, rb: array<byte>, qlen: nat, qd: nat, ghost q: seq<byte>)
    returns (ok: bool, off: nat, ipo: seq<nat>, ips: seq<word>)
    requires dns.Valid() && 12 <= qlen == |q| <= rb.Length && rb[..qlen] == q
    modifies rb
    modifies dns, dns.list, dns.tree, dns.records, dns.tree.cells.Keys, dns.list.nodes
    ensures dns.Valid() && fresh(dns.list.nodes - old(dns.list.nodes))
    ensures var s := Questions(q, 12, qd);
      && ok == s.ok && (ok ==> off == s.end)
      && Progress(dns.view, dns.max, dns.net, old(dns.view), s.asked, ipo, ips)
  {
    hide HevMappedDns.Valid;
    hide Questions;
    hide Progress;
    hide Rest;
    off, ipo, ips, ok := 12, [], [], true;
    var i := 0;
    ghost var seen: seq<Asked> := [];
    ghost var c := dns.view;
    Bounded(dns);
    RestAll(q, qd);
    ProgressAtStart(dns);
    while i < qd
      invariant 0 <= i <= qd && ok && off <= qlen && Rest(q, qd, seen, off, qd - i)
      invariant dns.Valid() && fresh(dns.list.nodes - old(dns.list.nodes))
      invariant Progress(dns.view, dns.max, dns.net, c, seen, ipo, ips)
      invariant rb[off..qlen] == q[off..]
    {
      Bounded(dns);
      RestNext(q, qd, seen, off, qd - i);
      ghost var start := off;
      ok, off, ipo, ips := AskOne(dns, rb, qlen, off, ipo, ips, q, c, seen);
      if !ok {
        return;
      }
      seen := seen + AskedHere(q, start);
      i := i + 1;
    }
    RestNone(q, qd, seen, off);
  }

  // ---------------------------------------------------------------- writing the answers

  function Bytes16(v: int): seq<byte> {
    [(v / 256) % 256, v % 256]
  }

  function Bytes32(v: int): seq<byte> {
    [(v / 0x1_000000) % 256, (v / 0x1_0000) % 256, (v / 256) % 256, v % 256]
  }

  /** One answer record: a pointer to the question's name, type A, class IN, one second to
      live, and the address. The pointer's second byte is the position cut to eight bits. */
  function Record(pos: nat, ip: word): (r: seq<byte>)
    ensures |r| == 16
  {
    [0xc0, pos % 256] + Bytes16(1) + Bytes16(1) + Bytes32(1) + Bytes16(4) + Bytes32(ip)
  }

  function Records(ipo: seq<nat>, ips: seq<word>): (r: seq<byte>)
    requires |ipo| == |ips|
    ensures |r| == 16 * |ipo|
  {
    if ipo == [] then []
    else Records(ipo[..|ipo| - 1], ips[..|ips| - 1]) + Record(ipo[|ipo| - 1], ips[|ips| - 1])
  }

  /** `s` with `v` over the bytes from `off`. */
  function Put(s: seq<byte>, off: nat, v: seq<byte>): (t: seq<byte>)
    requires off + |v| <= |s|
    ensures |t| == |s|
  {
    s[..off] + v + s[off + |v|..]
  }

  lemma PutPut(s: seq<byte>, off: nat, v: seq<byte>, w: seq<byte>)
    requires off + |v| + |w| <= |s|
    ensures Put(Put(s, off, v), off + |v|, w) == Put(s, off, v + w)
  {
  }

  method WriteU16(p: array<byte>, off: nat, v: int)
    requires off + 2 <= p.Length
    modifies p
    ensures p[..] == Put(old(p[..]), off, Bytes16(v))
  {
    p[off] := (v / 256) % 256;
    p[off + 1] := v % 256;
  }

  method WriteU32(p: array<byte>, off: nat, v: int)
    requires off + 4 <= p.Length
    modifies p
    ensures p[..] == Put(old(p[..]), off, Bytes32(v))
  {
    p[off] := (v / 0x1_000000) % 256;
    p[off + 1] := (v / 0x1_0000) % 256;
    p[off + 2] := (v / 256) % 256;
    p[off + 3] := v % 256;
  }

  // ---------------------------------------------------------------- one record, read again

  lemma RecordRead(pos: nat, ip: word)
    ensures AnswerAt(Record(pos, ip), 0) == Answer(0xC000 + pos % 256, 1, 1, 1, 4, ip)
  {
    var r := Record(pos, ip);
    RecordBytes(pos, ip);
    Big2(r[0..2]);
    Big2(r[2..4]);
    Big2(r[4..6]);
    Big4(r[6..10]);
    Big2(r[10..12]);
    Big4(r[12..16]);
    Digits(ip);
    hide Record, Big;
  }

  lemma RecordBytes(pos: nat, ip: word)
    ensures var r := Record(pos, ip);
      r == [0xc0, pos % 256, 0, 1, 0, 1, 0, 0, 0, 1, 0, 4, (ip / 0x1_000000) % 256, (ip / 0x1_0000) % 256,
            (ip / 256) % 256, ip % 256]
  {
  }

  lemma Digits(ip: word)
    ensures 0x100_0000 * ((ip / 0x1_000000) % 256) + 0x1_0000 * ((ip / 0x1_0000) % 256) + 0x100 * ((ip / 256) % 256)
      + ip % 256 == ip
  {
    var a := ip / 256;
    var b := a / 256;
    assert ip / 0x1_0000 == b && ip / 0x1_000000 == b / 256;
  }

  lemma {:induction false} RecordsAt(ipo: seq<nat>, ips: seq<word>, i: nat)
    requires |ipo| == |ips| && i < |ips|
    ensures Records(ipo, ips)[16 * i..16 * i + 16] == Record(ipo[i], ips[i])
  {
    hide Record;
    var n := |ipo| - 1;
    if i < n {
      RecordsAt(ipo[..n], ips[..n], i);
      var r := Records(ipo[..n], ips[..n]);
      assert (r + Record(ipo[n], ips[n]))[16 * i..16 * i + 16] == r[16 * i..16 * i + 16];
    }
  }

  lemma AnswerInside(r: seq<byte>, at: nat, b: seq<byte>)
    requires at + 16 <= |r| && r[at..at + 16] == b
    ensures AnswerAt(r, at) == AnswerAt(b, 0)
  {
    hide Big;
    Inside(r, at, b, 0, 2);
    Inside(r, at, b, 2, 4);
    Inside(r, at, b, 4, 6);
    Inside(r, at, b, 6, 10);
    Inside(r, at, b, 10, 12);
    Inside(r, at, b, 12, 16);
  }

  lemma Inside(r: seq<byte>, at: nat, b: seq<byte>, lo: nat, hi: nat)
    requires at + 16 <= |r| && r[at..at + 16] == b && lo <= hi <= 16
    ensures r[at + lo..at + hi] == b[lo..hi]
  {
    forall k | lo <= k < hi ensures r[at + k] == b[k] {
      assert b[k] == r[at..at + 16][k];
    }
  }

  method WriteRecord(sb: array<byte>, off: nat, pos: nat, ip: word)
    requires off + 16 <= sb.Length
    modifies sb
    ensures sb[..] == Put(old(sb[..]), off, Record(pos, ip))
    ensures AnswerAt(sb[..], off) == Answer(0xC000 + pos % 256, 1, 1, 1, 4, ip)
  {
    hide AnswerAt;
    ghost var s := sb[..];
    sb[off] := 0xc0;
    sb[off + 1] := pos % 256;
    ghost var v := [0xc0, pos % 256];
    assert sb[..] == Put(s, off, v);
    WriteU16(sb, off + 2, 1);
    PutPut(s, off, v, Bytes16(1));
    v := v + Bytes16(1);
    WriteU16(sb, off + 4, 1);
    PutPut(s, off, v, Bytes16(1));
    v := v + Bytes16(1);
    WriteU32(sb, off + 6, 1);
    PutPut(s, off, v, Bytes32(1));
    v := v + Bytes32(1);
    WriteU16(sb, off + 10, 4);
    PutPut(s, off, v, Bytes16(4));
    v := v + Bytes16(4);
    WriteU32(sb, off + 12, ip);
    PutPut(s, off, v, Bytes32(ip));
    PutRecord(s, off, pos, ip);
  }

  lemma PutRecord(s: seq<byte>, off: nat, pos: nat, ip: word)
    requires off + 16 <= |s|
    ensures AnswerAt(Put(s, off, Record(pos, ip)), off) == Answer(0xC000 + pos % 256, 1, 1, 1, 4, ip)
  {
    RecordRead(pos, ip);
    hide Record, AnswerAt;
    var r := Put(s, off, Record(pos, ip));
    assert r[off..off + 16] == Record(pos, ip);
    AnswerInside(r, off, Record(pos, ip));
  }

  /** The answer section, as far as it fits. */
  method WriteAnswers(sb: array<byte>, slen: nat, start: nat, ipo: seq<nat>, ips: seq<word>)
    returns (ok: bool, off: nat)
    requires start <= slen <= sb.Length && |ipo| == |ips|
    modifies sb
    ensures ok <==> start + 16 * |ipo| <= slen
    ensures ok ==> off == start + 16 * |ipo| && sb[..] == Put(old(sb[..]), start, Records(ipo, ips))
    ensures sb[slen..] == old(sb[slen..])
  {
    hide Records, Put;
    var i := 0;
    off := start;
    ghost var s := sb[..];
    NoRecords(s, start);
    while i < |ipo|
      invariant 0 <= i <= |ipo| && off == start + 16 * i <= slen
      invariant sb[..] == Put(s, start, Records(ipo[..i], ips[..i]))
    {
      if off + 15 >= slen {
        PutBeyond(s, start, Records(ipo[..i], ips[..i]), slen);
        return false, off;
      }
      WriteRecord(sb, off, ipo[i], ips[i]);
      PutPut(s, start, Records(ipo[..i], ips[..i]), Record(ipo[i], ips[i]));
      RecordsSnoc(ipo, ips, i);
      off := off + 16;
      i := i + 1;
    }
    assert ipo[..i] == ipo && ips[..i] == ips;
    PutBeyond(s, start, Records(ipo, ips), slen);
    ok := true;
  }

  lemma NoRecords(s: seq<byte>, start: nat)
    requires start <= |s|
    ensures Put(s, start, Records([], [])) == s
  {
  }

  lemma PutBeyond(s: seq<byte>, off: nat, v: seq<byte>, n: nat)
    requires off + |v| <= n <= |s|
    ensures Put(s, off, v)[n..] == s[n..]
  {
  }

  lemma RecordsSnoc(ipo: seq<nat>, ips: seq<word>, i: nat)
    requires |ipo| == |ips| && i < |ipo|
    ensures Records(ipo[..i + 1], ips[..i + 1]) == Records(ipo[..i], ips[..i]) + Record(ipo[i], ips[i])
  {
    assert ipo[..i + 1][..i] == ipo[..i] && ips[..i + 1][..i] == ips[..i];
  }

  // ---------------------------------------------------------------- the whole handler

  /** The answer's flag word: a response, recursion available if it was desired. */
  function AnswerFlags(fl: nat): nat {
    Or(Or(fl, 0x8000), And(fl, 0x100) / 2)
  }

  /** The answer: the query up to the end of its questions, a new header, and the records. */
  function Reply(q: seq<byte>, end: nat, ipo: seq<nat>, ips: seq<word>): (r: seq<byte>)
    requires 12 <= end <= |q| && |ipo| == |ips|
  {
    q[..2] + Bytes16(AnswerFlags(U16(q, 2))) + q[4..6] + Bytes16(|ipo|) + [0, 0, 0, 0] + q[12..end] + Records(ipo, ips)
  }

  /** Whether the questions of the query are read at all. */
  predicate Readable(q: seq<byte>, slen: int) {
    12 <= |q| <= slen && U16(q, 4) <= 32
  }

  /** Whether the query is answered: its questions are whole and the answers fit. */
  predicate Answerable(q: seq<byte>, slen: int) {
    Readable(q, slen) &&
    var s := Questions(q, 12, U16(q, 4));
    s.ok && s.end + 16 * |s.asked| <= slen
  }

  /** The copy of the query with its three counts cleared. */
  method CopyHeader(req: array<byte>, qlen: nat, res: array<byte>)
    requires 12 <= qlen <= req.Length && qlen <= res.Length && req != res
    modifies res
    ensures res[..] == Put(Put(old(res[..]), 0, req[..qlen]), 6, [0, 0, 0, 0, 0, 0])
  {
    forall i | 0 <= i < qlen {
      res[i] := req[i];
    }
    res[8], res[9] := 0, 0;
    res[6], res[7] := 0, 0;
    res[10], res[11] := 0, 0;
    CountsCleared(old(res[..]), req[..qlen], res[..]);
  }

  lemma CountsCleared(was: seq<byte>, q: seq<byte>, now: seq<byte>)
    requires 12 <= |q| <= |was| == |now|
    requires forall i :: 0 <= i < |now| ==> now[i] == if 6 <= i < 12 then 0 else if i < |q| then q[i] else was[i]
    ensures now == Put(Put(was, 0, q), 6, [0, 0, 0, 0, 0, 0])
  {
    PutBytes(was, 0, q);
    var copy := Put(was, 0, q);
    PutBytes(copy, 6, [0, 0, 0, 0, 0, 0]);
    hide Put;
  }

  lemma PutBytes(s: seq<byte>, off: nat, v: seq<byte>)
    requires off + |v| <= |s|
    ensures forall i :: 0 <= i < |s| ==> Put(s, off, v)[i] == if off <= i < off + |v| then v[i - off] else s[i]
  {
  }

  /** What the stores into the answer buffer amount to. */
  lemma ReplyStores(was: seq<byte>, q: seq<byte>, end: nat, ipo: seq<nat>, ips: seq<word>)
    requires 12 <= end <= |q| <= |was| && |ipo| == |ips| && end + 16 * |ipo| <= |was|
    ensures
      var r := Put(Put(Put(Put(Put(was, 0, q), 6, [0, 0, 0, 0, 0, 0]), end, Records(ipo, ips)),
        2, Bytes16(AnswerFlags(U16(q, 2)))), 6, Bytes16(|ipo|));
      r[..end + 16 * |ipo|] == Reply(q, end, ipo, ips)
  {
    var recs, h2, h6 := Records(ipo, ips), Bytes16(AnswerFlags(U16(q, 2))), Bytes16(|ipo|);
    var s := Put(was, 0, q);
    HeaderStores(s, end, recs, h2, h6);
    CopiedSlice(was, q, 0, 2);
    CopiedSlice(was, q, 4, 6);
    CopiedSlice(was, q, 12, end);
  }

  lemma CopiedSlice(was: seq<byte>, q: seq<byte>, lo: nat, hi: nat)
    requires lo <= hi <= |q| <= |was|
    ensures Put(was, 0, q)[lo..hi] == q[lo..hi]
    ensures Put(was, 0, q)[..hi] == q[..hi]
  {
  }

  lemma HeaderStores(s: seq<byte>, end: nat, recs: seq<byte>, h2: seq<byte>, h6: seq<byte>)
    requires 12 <= end && end + |recs| <= |s| && |h2| == |h6| == 2
    ensures Put(Put(Put(Put(s, 6, [0, 0, 0, 0, 0, 0]), end, recs), 2, h2), 6, h6)[..end + |recs|]
      == s[..2] + h2 + s[4..6] + h6 + [0, 0, 0, 0] + s[12..end] + recs
  {
    var s1 := Put(s, 6, [0, 0, 0, 0, 0, 0]);
    var s2 := Put(s1, end, recs);
    var s3 := Put(s2, 2, h2);
    var s4 := Put(s3, 6, h6);
    var t := s[..2] + h2 + s[4..6] + h6 + [0, 0, 0, 0] + s[12..end] + recs;
    assert |t| == end + |recs|;
    forall i | 0 <= i < |t| ensures s4[i] == t[i] {
      PutAt(s, 6, [0, 0, 0, 0, 0, 0], i);
      PutAt(s1, end, recs, i);
      PutAt(s2, 2, h2, i);
      PutAt(s3, 6, h6, i);
      ConcatAt(s, end, recs, h2, h6, i);
    }
  }

  lemma PutAt(s: seq<byte>, off: nat, v: seq<byte>, i: nat)
    requires off + |v| <= |s| && i < |s|
    ensures Put(s, off, v)[i] == if off <= i < off + |v| then v[i - off] else s[i]
  {
  }

  lemma ConcatAt(s: seq<byte>, end: nat, recs: seq<byte>, h2: seq<byte>, h6: seq<byte>, i: nat)
    requires 12 <= end && i < end + |recs| <= |s| && |h2| == |h6| == 2
    ensures (s[..2] + h2 + s[4..6] + h6 + [0, 0, 0, 0] + s[12..end] + recs)[i] ==
      if 2 <= i < 4 then h2[i - 2] else if 6 <= i < 8 then h6[i - 6] else if 8 <= i < 12 then 0
      else if end <= i then recs[i - end] else s[i]
  {
  }

  // ---------------------------------------------------------------- what a client reads

  /** Read as a client does, answer `i` is that of question `i`: an A record of class IN, good
      for one second, whose four bytes are the address noted for it. */
  ghost predicate Answered(r: seq<byte>, end: nat, asked: seq<Asked>, ips: seq<word>) {
    && |asked| == |ips| && end + 16 * |ips| == |r|
    && forall i :: 0 <= i < |ips| ==>
      AnswerAt(r, end + 16 * i) == Answer(0xC000 + asked[i].pos % 256, 1, 1, 1, 4, ips[i])
  }

  lemma ReplyAnswers(q: seq<byte>, end: nat, asked: seq<Asked>, ipo: seq<nat>, ips: seq<word>)
    requires 12 <= end <= |q| && |asked| == |ipo| == |ips|
    requires forall i :: 0 <= i < |asked| ==> ipo[i] == asked[i].pos
    ensures Answered(Reply(q, end, ipo, ips), end, asked, ips)
  {
    hide Reply, Record, Records, AnswerAt;
    var r := Reply(q, end, ipo, ips);
    ReplyEnds(q, end, ipo, ips);
    forall i | 0 <= i < |ips|
      ensures AnswerAt(r, end + 16 * i) == Answer(0xC000 + asked[i].pos % 256, 1, 1, 1, 4, ips[i])
    {
      ReplyAnswer(r, end, ipo, ips, i);
    }
  }

  lemma ReplyAnswer(r: seq<byte>, end: nat, ipo: seq<nat>, ips: seq<word>, i: nat)
    requires |ipo| == |ips| && end + 16 * |ips| == |r| && r[end..] == Records(ipo, ips) && i < |ips|
    ensures AnswerAt(r, end + 16 * i) == Answer(0xC000 + ipo[i] % 256, 1, 1, 1, 4, ips[i])
  {
    hide Record, Records, AnswerAt;
    RecordsAt(ipo, ips, i);
    Deeper(r, end, Records(ipo, ips), 16 * i);
    AnswerInside(r, end + 16 * i, Record(ipo[i], ips[i]));
    RecordRead(ipo[i], ips[i]);
  }

  lemma Deeper(r: seq<byte>, end: nat, recs: seq<byte>, at: nat)
    requires end <= |r| && r[end..] == recs && at + 16 <= |recs|
    ensures r[end + at..end + at + 16] == recs[at..at + 16]
  {
  }

  lemma ReplyEnds(q: seq<byte>, end: nat, ipo: seq<nat>, ips: seq<word>)
    requires 12 <= end <= |q| && |ipo| == |ips|
    ensures var r := Reply(q, end, ipo, ips);
      |r| == end + 16 * |ipo| && r[end..] == Records(ipo, ips)
  {
    hide Records, AnswerFlags;
  }

  lemma ReplyHeader(q: seq<byte>, end: nat, ipo: seq<nat>, ips: seq<word>)
    requires 12 <= end <= |q| && |ipo| == |ips| <= 32
    ensures |Reply(q, end, ipo, ips)| >= end
    ensures Replies(q, Reply(q, end, ipo, ips), end, |ips|)
  {
    hide AnswerFlags, Reply, Replies, Big;
    ReplyFront(q, end, ipo, ips);
    FlagBits(q[2], q[3]);
    HeaderRead(q, Reply(q, end, ipo, ips), end, |ips|, AnswerFlags(U16(q, 2)));
  }

  lemma HeaderRead(q: seq<byte>, r: seq<byte>, end: nat, n: nat, fl: nat)
    requires 12 <= end <= |q| && end <= |r| && n <= 32
    requires r[..2] == q[..2] && r[4..6] == q[4..6] && r[12..end] == q[12..end]
    requires r[2] == (fl / 256) % 256 && r[3] == fl % 256
    requires r[6] == (n / 256) % 256 && r[7] == n % 256 && r[8] == r[9] == r[10] == r[11] == 0
    requires (fl / 256) % 256 == q[2] % 128 + 128
    requires fl % 256 == q[3] % 128 + if q[3] >= 128 || q[2] % 2 == 1 then 128 else 0
    ensures Replies(q, r, end, n)
  {
    hide Big;
    Big2(r[6..8]);
    Big2(r[8..10]);
    Big2(r[10..12]);
  }

  lemma ReplyFront(q: seq<byte>, end: nat, ipo: seq<nat>, ips: seq<word>)
    requires 12 <= end <= |q| && |ipo| == |ips|
    ensures var r := Reply(q, end, ipo, ips); var fl := AnswerFlags(U16(q, 2));
      && |r| >= end && r[..2] == q[..2] && r[2] == (fl / 256) % 256 && r[3] == fl % 256 && r[4..6] == q[4..6]
      && r[6] == (|ipo| / 256) % 256 && r[7] == |ipo| % 256 && r[8] == r[9] == r[10] == r[11] == 0
      && r[12..end] == q[12..end]
  {
    hide Records, AnswerFlags;
  }

  lemma FlagParts(hi: byte, lo: byte)
    ensures var fl: nat := hi * 256 + lo;
      && (fl / 0x8000) % 2 == hi / 128 && (fl / 0x100) % 2 == hi % 2 && (fl / 0x80) % 2 == lo / 128
      && (fl / 256) % 256 == hi && fl % 256 == lo
  {
    assert (hi * 256 + lo) / 256 == hi;
    assert (hi * 256 + lo) / 128 == 2 * hi + lo / 128;
    assert (hi * 256 + lo) / 0x8000 == hi / 128;
  }

  lemma TopBit(hi: byte, lo: byte)
    ensures Or(hi * 256 + lo, 0x8000) == (hi % 128 + 128) * 256 + lo
  {
    hide Or, Bit, Pow2;
    SomePowers();
    FlagParts(hi, lo);
    OrBit(hi * 256 + lo, 15);
    BitIs(hi * 256 + lo, 15);
  }

  lemma EighthBit(hi: byte, lo: byte)
    ensures And(hi * 256 + lo, 0x100) == if hi % 2 == 1 then 0x100 else 0
  {
    hide And, Bit, Pow2;
    SomePowers();
    FlagParts(hi, lo);
    AndBit(hi * 256 + lo, 8);
    BitIs(hi * 256 + lo, 8);
  }

  lemma SeventhBit(hi: byte, lo: byte)
    ensures Or(hi * 256 + lo, 0x80) == hi * 256 + lo % 128 + 128
  {
    hide Or, Bit, Pow2;
    SomePowers();
    FlagParts(hi, lo);
    OrBit(hi * 256 + lo, 7);
    BitIs(hi * 256 + lo, 7);
  }

  /** The flag word: its top bit set, bit 7 joined with bit 8, the rest as it was. */
  lemma FlagBits(hi: byte, lo: byte)
    ensures var fl := AnswerFlags(hi * 256 + lo);
      && (fl / 256) % 256 == hi % 128 + 128
      && fl % 256 == lo % 128 + if lo >= 128 || hi % 2 == 1 then 128 else 0
  {
    hide Or, And;
    TopBit(hi, lo);
    EighthBit(hi, lo);
    var top, low := hi % 128 + 128, if hi % 2 == 1 then lo % 128 + 128 else lo;
    if hi % 2 == 1 {
      SeventhBit(top, lo);
    } else {
      TwoZero(top * 256 + lo);
    }
    assert AnswerFlags(hi * 256 + lo) == top * 256 + low;
    FlagParts(top, low);
  }

  /** The stores after the questions are read: answers, then flags and answer count. */
  method Finish(res: array<byte>, slen: nat, end: nat, ipo: seq<nat>, ips: seq<word>, ghost was: seq<byte>,
      ghost q: seq<byte>)
    returns (len: int)
    requires 12 <= end <= |q| <= slen <= res.Length == |was| && |ipo| == |ips|
    requires res[..] == Put(Put(was, 0, q), 6, [0, 0, 0, 0, 0, 0])
    modifies res
    ensures len == if end + 16 * |ipo| <= slen then end + 16 * |ipo| else -1
    ensures len != -1 ==> res[..len] == Reply(q, end, ipo, ips)
  {
    HeaderWord(was, q);
    var fl := ReadU16(res, 2);
    var ok, off := WriteAnswers(res, slen, end, ipo, ips);
    if !ok {
      return -1;
    }
    WriteU16(res, 2, AnswerFlags(fl));
    WriteU16(res, 6, |ipo|);
    ReplyStores(was, q, end, ipo, ips);
    len := off;
  }

  lemma HeaderWord(was: seq<byte>, q: seq<byte>)
    requires 12 <= |q| <= |was|
    ensures U16(Put(Put(was, 0, q), 6, [0, 0, 0, 0, 0, 0]), 2) == U16(q, 2)
  {
  }

  lemma ProgressSizes(view: seq<LruCache.Entry>, max: int, net: word, c: seq<LruCache.Entry>, seen: seq<Asked>,
      ipo: seq<nat>, ips: seq<word>)
    requires Progress(view, max, net, c, seen, ipo, ips)
    ensures |seen| == |ipo| == |ips|
  {
  }

  /** `hev_mapped_dns_handle`: answers exactly the answerable queries, with the addresses the
      cache gives the names, asked in order. A query that is read but not answered has still
      asked the cache the names up to its fault. */
  method Handle(dns: HevMappedDns, req: array<byte>, qlen: nat, res: array<byte>, slen: nat)
    returns (len: int, ghost ipo: seq<nat>, ghost ips: seq<word>)
    requires dns.Valid() && qlen <= req.Length && slen <= res.Length && req != res
    modifies req, res
    modifies dns, dns.list, dns.tree, dns.records, dns.tree.cells.Keys, dns.list.nodes
    ensures dns.Valid() && fresh(dns.list.nodes - old(dns.list.nodes))
    ensures !Readable(old(req[..qlen]), slen) ==> dns.view == old(dns.view)
    ensures Readable(old(req[..qlen]), slen) ==>
      Progress(dns.view, dns.max, dns.net, old(dns.view),
        Questions(old(req[..qlen]), 12, U16(old(req[..qlen]), 4)).asked, ipo, ips)
    ensures len == -1 <==> !Answerable(old(req[..qlen]), slen)
    ensures len != -1 ==>
      var s := Questions(old(req[..qlen]), 12, U16(old(req[..qlen]), 4));
      12 <= len <= slen && res[..len] == Reply(old(req[..qlen]), s.end, ipo, ips)
    ensures len != -1 ==>
      var s := Questions(old(req[..qlen]), 12, U16(old(req[..qlen]), 4));
      && 12 <= s.end <= |old(req[..qlen])| && s.end <= |res[..len]|
      && Replies(old(req[..qlen]), res[..len], s.end, |s.asked|) && Answered(res[..len], s.end, s.asked, ips)
  {
    hide HevMappedDns.Valid, Progress, Questions, Reply, Replies, Answered;
    ghost var q, was := req[..qlen], res[..];
    ipo, ips := [], [];
    if slen < qlen {
      return -1, ipo, ips;
    }
    if qlen < 12 {
      return -1, ipo, ips;
    }
    CopyHeader(req, qlen, res);
    var qd := ReadU16(req, 4);
    if qd > 32 {
      return -1, ipo, ips;
    }
    var ok, off, pos, addr := AskAll(dns, req, qlen, qd, q);
    ipo, ips := pos, addr;
    ProgressSizes(dns.view, dns.max, dns.net, old(dns.view), Questions(q, 12, qd).asked, ipo, ips);
    if !ok {
      return -1, ipo, ips;
    }
    len := Finish(res, slen, off, pos, addr, was, q);
    ReplyRead(dns.view, dns.max, dns.net, old(dns.view), q, off, Questions(q, 12, qd).asked, pos, addr);
  }

  lemma ReplyRead(view: seq<LruCache.Entry>, max: int, net: word, c: seq<LruCache.Entry>, q: seq<byte>, end: nat,
      asked: seq<Asked>, ipo: seq<nat>, ips: seq<word>)
    requires 12 <= end <= |q| && Progress(view, max, net, c, asked, ipo, ips) && |ipo| == |ips| <= 32
    ensures |Reply(q, end, ipo, ips)| >= end
    ensures Replies(q, Reply(q, end, ipo, ips), end, |asked|)
    ensures Answered(Reply(q, end, ipo, ips), end, asked, ips)
  {
    hide Reply, Replies, Answered;
    ReplyHeader(q, end, ipo, ips);
    ReplyAnswers(q, end, asked, ipo, ips);
  }

  // ---------------------------------------------------------------- what the answers are good for

  lemma {:induction false} FindHistory(c: seq<LruCache.Entry>, max: nat, names: seq<Name>)
    requires |c| <= max && 1 <= max
    ensures LruCache.History(c, max, FindOps(names)) == names
  {
    hide LruCache.Find;
    if names != [] {
      var n := |names| - 1;
      FindHistory(c, max, names[..n]);
      assert FindOps(names)[..n] == FindOps(names[..n]);
    }
  }

  /** Asked names keep their indices as long as they are no more than the cache can hold. */
  lemma {:induction false} AskedKept(c: seq<LruCache.Entry>, max: nat, names: seq<Name>, i: nat, k: nat)
    requires LruCache.Wf(c, max) && 1 <= max && |LruCache.Recent(names)| <= max
    requires i < k <= |names|
    ensures LruCache.Entry(names[i], IndexOf(c, max, names, i)) in RunFinds(c, max, names[..k])
    decreases k
  {
    hide LruCache.Recent, LruCache.Run, LruCache.Names;
    var e := LruCache.Entry(names[i], IndexOf(c, max, names, i));
    var before := names[..k - 1];
    var r := RunFinds(c, max, before);
    assert names[..k] == before + [names[k - 1]];
    FindOpsSnoc(c, max, before, names[k - 1]);
    LruCache.RunWf(c, max, FindOps(before));
    if i == k - 1 {
      LruCache.FindWf(r, max, names[i]);
    } else {
      AskedKept(c, max, names, i, k - 1);
      StillListed(c, max, names, i, k);
      LruCache.StepKeepsIndex(r, max, LruCache.FindOp(names[k - 1]), e);
    }
  }

  /** An asked name is still in the cache. */
  lemma StillListed(c: seq<LruCache.Entry>, max: nat, names: seq<Name>, i: nat, k: nat)
    requires LruCache.Wf(c, max) && 1 <= max && |LruCache.Recent(names)| <= max
    requires i < k <= |names|
    ensures exists e :: e in RunFinds(c, max, names[..k]) && e.name == names[i]
  {
    hide LruCache.Recent, LruCache.Find, LruCache.Run;
    FindHistory(c, max, names[..k]);
    LruCache.RecentGrows(names, k);
    assert names[..k][i] == names[i];
    LruCache.AllKnown(c, max, FindOps(names[..k]), names[i]);
    LruCache.InNames(RunFinds(c, max, names[..k]), names[i]);
  }

  /** The address that the reply gives for question `i`. */
  function AddressAt(r: seq<byte>, end: nat, i: nat): word
    requires end + 16 * i + 16 <= |r|
  {
    AnswerAt(r, end + 16 * i).address
  }

  /** Every address that the reply `r` spells looks up to the name its question asked for, when
      the query's distinct names fit the cache and the mask covers the indices. */
  lemma AnswersLookUp(view: seq<LruCache.Entry>, max: nat, net: word, mask: word, c: seq<LruCache.Entry>,
      asked: seq<Asked>, ipo: seq<nat>, ips: seq<word>, r: seq<byte>, end: nat, i: nat)
    requires LruCache.Wf(c, max) && Progress(view, max, net, c, asked, ipo, ips) && i < |asked|
    requires |LruCache.Recent(Names(asked))| <= max && Covers(net, mask, max)
    requires Answered(r, end, asked, ips)
    ensures end + 16 * i + 16 <= |r|
    ensures var idx := HostIndex(AddressAt(r, end, i), mask);
      LooksUp(view, idx, LruCache.Lookup(view, idx), Some(asked[i].name))
  {
    hide Progress, LruCache.Wf, LruCache.Recent, Covers, LooksUp, AnswerAt;
    AddressLooksUp(view, max, net, mask, c, asked, ipo, ips, i);
  }

  /** Every address noted looks up to the name its question asked for. */
  lemma AddressLooksUp(view: seq<LruCache.Entry>, max: nat, net: word, mask: word, c: seq<LruCache.Entry>,
      asked: seq<Asked>, ipo: seq<nat>, ips: seq<word>, i: nat)
    requires LruCache.Wf(c, max) && Progress(view, max, net, c, asked, ipo, ips) && i < |asked|
    requires |LruCache.Recent(Names(asked))| <= max && Covers(net, mask, max)
    ensures i < |ips|
    ensures LooksUp(view, HostIndex(ips[i], mask), LruCache.Lookup(view, HostIndex(ips[i], mask)), Some(asked[i].name))
  {
    hide LruCache.Wf, LruCache.Recent, LruCache.Run, Covers;
    var names := Names(asked);
    AskedKept(c, max, names, i, |names|);
    assert names[..|names|] == names;
    LruCache.RunWf(c, max, FindOps(names));
    EntryLooksUp(view, max, net, mask, LruCache.Entry(names[i], IndexOf(c, max, names, i)), ips[i]);
  }

  // ---------------------------------------------------------------- reading what was spelled

  /** `b` stands at `off`. */
  predicate Lies(q: seq<byte>, off: nat, b: seq<byte>) {
    off + |b| <= |q| && q[off..off + |b|] == b
  }

  lemma LiesBoth(q: seq<byte>, off: nat, a: seq<byte>, b: seq<byte>)
    requires Lies(q, off, a + b)
    ensures Lies(q, off, a) && Lies(q, off + |a|, b)
  {
    var ab := a + b;
    assert ab[..|a|] == a && ab[|a|..] == b;
    assert q[off..off + |ab|][..|a|] == q[off..off + |a|];
    assert q[off..off + |ab|][|a|..] == q[off + |a|..off + |ab|];
  }

  lemma LiesFirst(q: seq<byte>, off: nat, b: seq<byte>)
    requires Lies(q, off, b) && b != []
    ensures q[off] == b[0]
  {
    assert b[0] == q[off..off + |b|][0];
  }

  lemma SpelledFirst(labels: seq<Name>)
    requires forall l :: l in labels ==> 0 < |l| < 256
    ensures SpellName(labels)[0] == 0 <==> labels == []
  {
    if labels != [] {
      assert labels[0] in labels;
    }
  }

  lemma {:induction false} NameBack(q: seq<byte>, off: nat, labels: seq<Name>)
    requires forall l :: l in labels ==> 0 < |l| < 256
    requires Lies(q, off, SpellName(labels))
    decreases labels
    ensures NameEnd(q, off) == Some(off + |SpellName(labels)| - 1)
    ensures Dotted(q, off) == Joined(labels)
  {
    hide NameEnd, Dotted, SpellName, Joined, Lies;
    if labels == [] {
      RootBack(q, off);
    } else {
      var l, rest := labels[0], SpellName(labels[1..]);
      SpelledStep(labels);
      LiesBoth(q, off, [|l|] + l, rest);
      LabelBack(q, off, l);
      NameBack(q, off + 1 + |l|, labels[1..]);
      LiesFirst(q, off + 1 + |l|, rest);
      SpelledFirst(labels[1..]);
    }
  }

  lemma RootBack(q: seq<byte>, off: nat)
    requires Lies(q, off, SpellName([]))
    ensures NameEnd(q, off) == Some(off) && |SpellName([])| == 1 && Dotted(q, off) == Joined([])
  {
    LiesFirst(q, off, [0]);
  }

  lemma SpelledStep(labels: seq<Name>)
    requires labels != [] && forall l :: l in labels ==> 0 < |l| < 256
    ensures var l := labels[0];
      && 0 < |l| < 256 && SpellName(labels) == [|l|] + l + SpellName(labels[1..])
      && Joined(labels) == l + if labels[1..] == [] then [] else [DOT] + Joined(labels[1..])
  {
    assert labels[0] in labels;
  }

  lemma LabelBack(q: seq<byte>, off: nat, l: Name)
    requires 0 < |l| < 256 && Lies(q, off, [|l|] + l) && off + 1 + |l| < |q|
    ensures var next := off + 1 + |l|;
      && NameEnd(q, off) == NameEnd(q, next)
      && (NameEnd(q, off).Some? ==>
        Dotted(q, off) == l + if q[next] == 0 then [] else [DOT] + Dotted(q, next))
  {
    hide NameEnd, Dotted;
    LiesBoth(q, off, [|l|], l);
    LiesFirst(q, off, [|l|]);
    NameTurn(q, off, off + 1 + |l|);
  }

  /** A question as it is read: where the next begins, and the name up to its first zero byte
      if its type and class are A and IN. */
  lemma QuestionBack(q: seq<byte>, off: nat, x: Question)
    requires Sendable(x) && Lies(q, off, SpellQuestion(x))
    ensures NextQuestion(q, off) == Some(off + |SpellQuestion(x)|)
    ensures AskedAt(q, off) == if x.kind == 1 && x.family == 1 then Some(CString(Joined(x.labels))) else None
  {
    hide CString, Joined, NameEnd, Dotted, SpellName, Lies;
    var name := SpellName(x.labels);
    var codes := [x.kind / 256, x.kind % 256, x.family / 256, x.family % 256];
    LiesBoth(q, off, name, codes);
    NameBack(q, off, x.labels);
    LiesFour(q, off + |name|, codes);
  }

  lemma LiesFour(q: seq<byte>, off: nat, b: seq<byte>)
    requires Lies(q, off, b) && |b| == 4
    ensures off + 4 <= |q|
    ensures q[off] == b[0] && q[off + 1] == b[1] && q[off + 2] == b[2] && q[off + 3] == b[3]
  {
    forall i | 0 <= i < 4 ensures q[off + i] == b[i] {
      assert b[i] == q[off..off + 4][i];
    }
  }

  /** What a client that spells `xs` from `off` on asks for: each A/IN name, as a C string. */
  function AsksFor(xs: seq<Question>, off: nat): seq<Asked>
    requires forall x :: x in xs ==> Sendable(x)
  {
    if xs == [] then []
    else
      var x := xs[0];
      (if x.kind == 1 && x.family == 1 then [Asked(off, CString(Joined(x.labels)))] else [])
      + AsksFor(xs[1..], off + |SpellQuestion(x)|)
  }

  /** Every list of questions that a client spells is read as just those questions. */
  lemma {:induction false} QuestionsBack(q: seq<byte>, off: nat, xs: seq<Question>)
    requires forall x :: x in xs ==> Sendable(x)
    requires Lies(q, off, SpellQuestions(xs))
    decreases xs
    ensures Questions(q, off, |xs|) == Scan(true, off + |SpellQuestions(xs)|, AsksFor(xs, off))
  {
    hide NextQuestion, AskedAt, CString, Joined, Lies, SpellQuestion, Sendable;
    if xs != [] {
      assert xs[0] in xs;
      var first, rest := SpellQuestion(xs[0]), SpellQuestions(xs[1..]);
      LiesBoth(q, off, first, rest);
      QuestionBack(q, off, xs[0]);
      QuestionsBack(q, off + |first|, xs[1..]);
    }
  }

  // ---------------------------------------------------------------- names with zero bytes

  /** No label of the name at `off` holds a zero byte. */
  predicate NoZeroInside(q: seq<byte>, off: nat)
    requires off < |q| && NameEnd(q, off).Some?
    decreases |q| - off
  {
    q[off] == 0 ||
    var next := off + 1 + q[off];
    (forall i :: off < i < next ==> q[i] != 0) && NoZeroInside(q, next)
  }

  predicate NoZero(s: Name) {
    forall i :: 0 <= i < |s| ==> s[i] != 0
  }

  lemma NoZeroConcat(a: Name, b: Name)
    ensures NoZero(a + b) <==> NoZero(a) && NoZero(b)
  {
    forall i | 0 <= i < |a| + |b| ensures (a + b)[i] == if i < |a| then a[i] else b[i - |a|] {
    }
    forall i | 0 <= i < |b| ensures b[i] == (a + b)[|a| + i] {
    }
    forall i | 0 <= i < |a| ensures a[i] == (a + b)[i] {
    }
  }

  lemma NoZeroSlice(q: seq<byte>, from: nat, to: nat)
    requires from <= to <= |q|
    ensures NoZero(q[from..to]) <==> forall i :: from <= i < to ==> q[i] != 0
  {
    forall i | from <= i < to ensures q[i] == q[from..to][i - from] {
    }
  }

  lemma {:induction false} DottedNoZero(q: seq<byte>, off: nat)
    requires off < |q| && NameEnd(q, off).Some?
    ensures NoZero(Dotted(q, off)) <==> NoZeroInside(q, off)
    decreases |q| - off
  {
    if q[off] != 0 {
      var next := off + 1 + q[off];
      DottedNoZero(q, next);
      NoZeroSlice(q, off + 1, next);
      NoZeroConcat(q[off + 1..next], if q[next] == 0 then [] else [DOT] + Dotted(q, next));
      NoZeroConcat([DOT], Dotted(q, next));
    }
  }

  lemma {:induction false} CStringWhole(s: Name)
    ensures CString(s) == s <==> NoZero(s)
  {
    if s != [] && s[0] != 0 {
      CStringWhole(s[1..]);
      NoZeroConcat([s[0]], s[1..]);
      assert [s[0]] + s[1..] == s;
      assert CString(s) == s ==> CString(s)[1..] == s[1..];
    }
  }

  /** The names asked are those at their questions, as far as a C string goes. */
  lemma {:induction false} AskedName(q: seq<byte>, off: nat, n: nat, i: nat)
    requires Questions(q, off, n).ok && i < |Questions(q, off, n).asked|
    ensures var a := Questions(q, off, n).asked[i];
      a.pos < |q| && NameEnd(q, a.pos).Some? && a.name == CString(Dotted(q, a.pos))
    decreases n
  {
    hide NameEnd, Dotted, CString;
    var next := NextQuestion(q, off).value;
    var here := |AskedHere(q, off)|;
    if i >= here {
      AskedName(q, next, n - 1, i - here);
    }
  }

  /** So an address that the reply spells leads back to the whole name of its question exactly
      if no label of it holds a zero byte. */
  lemma WholeNameLooksUp(view: seq<LruCache.Entry>, max: nat, net: word, mask: word, c: seq<LruCache.Entry>,
      q: seq<byte>, n: nat, ipo: seq<nat>, ips: seq<word>, r: seq<byte>, i: nat)
    requires Questions(q, 12, n).ok && i < |Questions(q, 12, n).asked| && LruCache.Wf(c, max)
    requires Progress(view, max, net, c, Questions(q, 12, n).asked, ipo, ips)
    requires |LruCache.Recent(Names(Questions(q, 12, n).asked))| <= max && Covers(net, mask, max)
    requires Answered(r, Questions(q, 12, n).end, Questions(q, 12, n).asked, ips)
    ensures var s := Questions(q, 12, n); var pos := s.asked[i].pos;
      && pos < |q| && NameEnd(q, pos).Some? && s.end + 16 * i + 16 <= |r|
      && var idx := HostIndex(AddressAt(r, s.end, i), mask);
      (LooksUp(view, idx, LruCache.Lookup(view, idx), Some(Dotted(q, pos))) <==> NoZeroInside(q, pos))
  {
    hide LruCache.Wf, LruCache.Recent, Covers, Questions, NameEnd, Dotted, CString, NoZeroInside, Progress,
      LruCache.Slot, Answered, AddressAt;
    var s := Questions(q, 12, n);
    AskedName(q, 12, n, i);
    DottedNoZero(q, s.asked[i].pos);
    CStringWhole(Dotted(q, s.asked[i].pos));
    AnswersLookUp(view, max, net, mask, c, s.asked, ipo, ips, r, s.end, i);
  }

  /** A query for a name of one label, of three bytes with a zero in the middle. */
  const ZERO_QUERY: seq<byte> := [0, 0, 1, 0, 0, 1, 0, 0, 0, 0, 0, 0, 3, 97, 0, 98, 0, 0, 1, 0, 1]

  /** It is answered, and asks the cache for the first letter only. */
  lemma ZeroCutsName()
    ensures Answerable(ZERO_QUERY, 512)
    ensures var s := Questions(ZERO_QUERY, 12, U16(ZERO_QUERY, 4));
      s.asked == [Asked(12, [97])] && NameEnd(ZERO_QUERY, 12).Some? && Dotted(ZERO_QUERY, 12) == [97, 0, 98]
  {
    var q := ZERO_QUERY;
    assert NameEnd(q, 16) == Some(16);
    assert NameEnd(q, 12) == NameEnd(q, 16);
    assert q[13..16] == [97, 0, 98];
    assert Dotted(q, 12) == [97, 0, 98] + [];
    ZeroString();
    assert AskedHere(q, 12) == [Asked(12, [97])];
    assert Questions(q, 21, 0) == Scan(true, 21, []);
    assert Questions(q, 12, 1) == Prepend(AskedHere(q, 12), Questions(q, 21, 0));
  }

  lemma ZeroString()
    ensures CString([97, 0, 98]) == [97]
  {
    assert [97, 0, 98][1..] == [0, 98];
  }

  // ---------------------------------------------------------------- compression pointers

  /** The name offset that the compression pointer at `at` stands for (section 4.1.4 of RFC
      1035): what its fourteen low bits say, the two high ones being set. */
  predicate PointsTo(r: seq<byte>, at: nat, pos: nat)
    requires at + 2 <= |r|
  {
    Big(r[at..at + 2]) == 0xC000 + pos && pos < 0x4000
  }

  /** Answer `i` of a reply points at its question's name exactly if that starts below offset
      256. */
  lemma PointerRight(r: seq<byte>, end: nat, asked: seq<Asked>, ips: seq<word>, i: nat)
    requires Answered(r, end, asked, ips) && i < |asked|
    ensures end + 16 * i + 2 <= |r|
    ensures PointsTo(r, end + 16 * i, asked[i].pos % 256)
    ensures PointsTo(r, end + 16 * i, asked[i].pos) <==> asked[i].pos < 256
  {
    hide Big;
    assert AnswerAt(r, end + 16 * i) == Answer(0xC000 + asked[i].pos % 256, 1, 1, 1, 4, ips[i]);
  }

  function Label(n: byte): (b: seq<byte>)
    ensures |b| == n as int + 1 && b[0] == n
  {
    [n] + seq(n, _ => 97)
  }

  /** A query for two names, the first of them of four labels and 250 characters. */
  function LateQuery(): (q: seq<byte>)
    ensures |q| == 275
  {
    [0, 0, 1, 0, 0, 2, 0, 0, 0, 0, 0, 0] + Label(63) + Label(63) + Label(63) + Label(58) + [0, 0, 1, 0, 1]
    + [1, 98, 0, 0, 1, 0, 1]
  }

  ghost predicate LateBytes(q: seq<byte>) {
    && |q| == 275 && q[4] == 0 && q[5] == 2 && q[12] == 63 && q[76] == 63 && q[140] == 63 && q[204] == 58
    && q[263] == 0 && q[264] == 0 && q[265] == 1 && q[266] == 0 && q[267] == 1
    && q[268] == 1 && q[270] == 0 && q[271] == 0 && q[272] == 1 && q[273] == 0 && q[274] == 1
  }

  lemma FirstLate(q: seq<byte>)
    requires LateBytes(q)
    ensures NextQuestion(q, 12) == Some(268) && AskedAt(q, 12).Some?
  {
    assert NameEnd(q, 263) == Some(263);
    assert NameEnd(q, 204) == NameEnd(q, 263);
    assert NameEnd(q, 140) == NameEnd(q, 204);
    assert NameEnd(q, 76) == NameEnd(q, 140);
    assert NameEnd(q, 12) == NameEnd(q, 76);
  }

  lemma SecondLate(q: seq<byte>)
    requires LateBytes(q)
    ensures NextQuestion(q, 268) == Some(275) && AskedAt(q, 268).Some?
  {
    assert NameEnd(q, 270) == Some(270);
    assert NameEnd(q, 268) == NameEnd(q, 270);
  }

  lemma LateQuestions(q: seq<byte>)
    requires LateBytes(q)
    ensures var s := Questions(q, 12, 2);
      U16(q, 4) == 2 && s.ok && s.end == 275 && |s.asked| == 2 && s.asked[0].pos == 12 && s.asked[1].pos == 268
  {
    FirstLate(q);
    SecondLate(q);
    hide NameEnd, NextQuestion, AskedAt;
    assert Questions(q, 275, 0) == Scan(true, 275, []);
    assert Questions(q, 268, 1) == Prepend(AskedHere(q, 268), Questions(q, 275, 0));
    assert Questions(q, 12, 2) == Prepend(AskedHere(q, 12), Questions(q, 268, 1));
  }

  lemma LateQueryBytes()
    ensures LateBytes(LateQuery())
  {
  }

  /** It is answered, and the second answer points at the first name. */
  lemma LatePointer(q: seq<byte>, r: seq<byte>, ips: seq<word>)
    requires q == LateQuery() && Answered(r, 275, Questions(q, 12, U16(q, 4)).asked, ips)
    ensures Answerable(q, 512)
    ensures var s := Questions(q, 12, U16(q, 4));
      s.end == 275 && |s.asked| == 2 && s.asked[1].pos == 268 && |r| == 307 && PointsTo(r, 291, s.asked[0].pos)
  {
    hide LateQuery, Questions, PointsTo, Answered;
    LateQueryBytes();
    LateQuestions(q);
    var asked := Questions(q, 12, 2).asked;
    PointerRight(r, 275, asked, ips, 1);
    AnsweredSize(r, 275, asked, ips);
  }

  lemma AnsweredSize(r: seq<byte>, end: nat, asked: seq<Asked>, ips: seq<word>)
    requires Answered(r, end, asked, ips)
    ensures |r| == end + 16 * |asked|
  {
  }
}
