/**
 What the mapped-DNS cache is, without its three data structures: a bounded list of
 (name, index) pairs, least recently touched first. The heap code in MappedDns.dfy is
 proved against `Find` and `Touch`; the promises about whole runs are proved here.
 */
module LruCache {
  import opened Bytes

  datatype Entry = Entry(name: Name, idx: int)

  /** The position of the entry that `name` has, or |c|. */
  function Position(c: seq<Entry>, name: Name): (k: nat)
    ensures k <= |c|
    ensures k < |c| ==> c[k].name == name
    ensures forall j :: 0 <= j < k ==> c[j].name != name
  {
    if c == [] || c[0].name == name then 0 else 1 + Position(c[1..], name)
  }

  function Slot(c: seq<Entry>, idx: int): (k: nat)
    ensures k <= |c|
    ensures k < |c| ==> c[k].idx == idx
    ensures forall j :: 0 <= j < k ==> c[j].idx != idx
  {
    if c == [] || c[0].idx == idx then 0 else 1 + Slot(c[1..], idx)
  }

  function ToTail<T>(s: seq<T>, k: nat): seq<T>
    requires k < |s|
  {
    s[..k] + s[k + 1..] + [s[k]]
  }

  /** Where each element of the moved list comes from. */
  lemma ToTailAt<T>(s: seq<T>, k: nat)
    requires k < |s|
    ensures |ToTail(s, k)| == |s|
    ensures forall i :: 0 <= i < |s| ==> ToTail(s, k)[i] == s[if i < k then i else if i < |s| - 1 then i + 1 else k]
  {
  }

  /** `hev_mapped_dns_find`: a known name moves to the tail; a new one takes the next free
      index, or the index of the entry at the head, which is forgotten. */
  function Find(c: seq<Entry>, max: nat, name: Name): seq<Entry>
    requires |c| <= max && 1 <= max
  {
    var k := Position(c, name);
    if k < |c| then ToTail(c, k)
    else if |c| < max then c + [Entry(name, |c|)]
    else c[1..] + [Entry(name, c[0].idx)]
  }

  /** The index `Find` answers with: that of the entry it leaves at the tail. */
  function FindIndex(c: seq<Entry>, max: nat, name: Name): int
    requires |c| <= max && 1 <= max
  {
    var f := Find(c, max, name);
    f[|f| - 1].idx
  }

  /** `hev_mapped_dns_lookup`, from the masked address on. */
  function Lookup(c: seq<Entry>, idx: int): seq<Entry> {
    var k := Slot(c, idx);
    if k < |c| then ToTail(c, k) else c
  }

  /** Names are distinct, and the indices in use are exactly 0, 1, ..., |c|-1. */
  ghost predicate Wf(c: seq<Entry>, max: nat) {
    && |c| <= max
    && (forall i, j :: 0 <= i < j < |c| ==> c[i].name != c[j].name)
    && (forall i, j :: 0 <= i < j < |c| ==> c[i].idx != c[j].idx)
    && (forall i :: 0 <= i < |c| ==> 0 <= c[i].idx < |c|)
  }

  lemma ToTailWf(c: seq<Entry>, max: nat, k: nat)
    requires Wf(c, max) && k < |c|
    ensures Wf(ToTail(c, k), max)
  {
  }

  lemma AppendWf(c: seq<Entry>, max: nat, name: Name)
    requires Wf(c, max) && |c| < max && Position(c, name) == |c|
    ensures Wf(c + [Entry(name, |c|)], max)
  {
  }

  lemma EvictWf(c: seq<Entry>, max: nat, name: Name)
    requires Wf(c, max) && c != [] && Position(c, name) == |c|
    ensures Wf(c[1..] + [Entry(name, c[0].idx)], max)
  {
    var f := c[1..] + [Entry(name, c[0].idx)];
    assert forall i :: 0 <= i < |c| - 1 ==> f[i] == c[i + 1];
  }

  lemma FindWf(c: seq<Entry>, max: nat, name: Name)
    requires Wf(c, max) && 1 <= max
    ensures Wf(Find(c, max, name), max)
    ensures var f := Find(c, max, name);
      f != [] && f[|f| - 1].name == name && |c| <= |f|
  {
    var k := Position(c, name);
    if k < |c| {
      ToTailWf(c, max, k);
    } else if |c| < max {
      AppendWf(c, max, name);
    } else {
      EvictWf(c, max, name);
    }
  }

  /** The two halves undo each other: the index found for a name looks up to that name. */
  lemma LookupFind(c: seq<Entry>, max: nat, name: Name)
    requires Wf(c, max) && 1 <= max
    ensures var f := Find(c, max, name);
      var i := FindIndex(c, max, name);
      i < max && Slot(f, i) == |f| - 1 && f[Slot(f, i)].name == name && Lookup(f, i) == f
  {
    hide Wf;
    FindWf(c, max, name);
    var f := Find(c, max, name);
    var i := FindIndex(c, max, name);
    assert Slot(f, i) == |f| - 1;
  }

  // ---------------------------------------------------------------- whole runs

  datatype Op = FindOp(name: Name) | LookupOp(idx: int)

  function Step(c: seq<Entry>, max: nat, op: Op): seq<Entry>
    requires |c| <= max && 1 <= max
  {
    match op
    case FindOp(name) => Find(c, max, name)
    case LookupOp(idx) => Lookup(c, idx)
  }

  /** The name an operation touches, if any: a lookup touches only what it finds. */
  function Touched(c: seq<Entry>, op: Op): seq<Name> {
    match op
    case FindOp(name) => [name]
    case LookupOp(idx) => if Slot(c, idx) < |c| then [c[Slot(c, idx)].name] else []
  }

  lemma StepWf(c: seq<Entry>, max: nat, op: Op)
    requires Wf(c, max) && 1 <= max
    ensures Wf(Step(c, max, op), max) && |c| <= |Step(c, max, op)|
  {
    match op
    case FindOp(name) => FindWf(c, max, name);
    case LookupOp(idx) =>
      if Slot(c, idx) < |c| {
        ToTailWf(c, max, Slot(c, idx));
      }
  }

  lemma StepFits(c: seq<Entry>, max: nat, op: Op)
    requires |c| <= max && 1 <= max
    ensures |Step(c, max, op)| <= max
  {
  }

  /** The cache after a run of operations. */
  function Run(c: seq<Entry>, max: nat, ops: seq<Op>): (r: seq<Entry>)
    requires |c| <= max && 1 <= max
    ensures |r| <= max
  {
    if ops == [] then c
    else
      var r := Run(c, max, ops[..|ops| - 1]);
      StepFits(r, max, ops[|ops| - 1]);
      Step(r, max, ops[|ops| - 1])
  }

  /** The names a run touches, in order. */
  function History(c: seq<Entry>, max: nat, ops: seq<Op>): seq<Name>
    requires |c| <= max && 1 <= max
  {
    if ops == [] then []
    else
      History(c, max, ops[..|ops| - 1]) + Touched(Run(c, max, ops[..|ops| - 1]), ops[|ops| - 1])
  }

  lemma {:induction false} RunWf(c: seq<Entry>, max: nat, ops: seq<Op>)
    requires Wf(c, max) && 1 <= max
    ensures Wf(Run(c, max, ops), max)
  {
    if ops != [] {
      RunWf(c, max, ops[..|ops| - 1]);
      StepWf(Run(c, max, ops[..|ops| - 1]), max, ops[|ops| - 1]);
    }
  }

  // ---------------------------------------------------------------- recency

  ghost predicate Distinct<T>(s: seq<T>) {
    forall i, j :: 0 <= i < j < |s| ==> s[i] != s[j]
  }

  /** `s` without `x`. */
  function Drop<T(==)>(s: seq<T>, x: T): seq<T> {
    if s == [] then [] else (if s[0] == x then [] else [s[0]]) + Drop(s[1..], x)
  }

  /** The distinct elements of a history, ordered by their last touch. */
  function Recent<T(==)>(h: seq<T>): seq<T> {
    if h == [] then [] else Drop(Recent(h[..|h| - 1]), h[|h| - 1]) + [h[|h| - 1]]
  }

  function Last<T>(s: seq<T>, n: nat): seq<T> {
    if |s| <= n then s else s[|s| - n..]
  }

  lemma {:induction false} DropAbsent<T>(s: seq<T>, x: T)
    requires x !in s
    ensures Drop(s, x) == s
  {
    if s != [] {
      DropAbsent(s[1..], x);
    }
  }

  lemma {:induction false} DropConcat<T>(s: seq<T>, t: seq<T>, x: T)
    ensures Drop(s + t, x) == Drop(s, x) + Drop(t, x)
  {
    if s == [] {
      assert s + t == t;
    } else {
      DropConcat(s[1..], t, x);
      assert (s + t)[1..] == s[1..] + t;
      Regroup(if s[0] == x then [] else [s[0]], Drop(s[1..], x), Drop(t, x));
    }
  }

  lemma Regroup<T>(a: seq<T>, b: seq<T>, c: seq<T>)
    ensures a + (b + c) == a + b + c
  {
  }

  lemma DropMiddle<T>(s: seq<T>, x: T, t: seq<T>)
    requires x !in s && x !in t
    ensures Drop(s + ([x] + t), x) == s + t
  {
    DropAbsent(s, x);
    DropAbsent(t, x);
    DropConcat([x], t, x);
    DropConcat(s, [x] + t, x);
    assert Drop([x], x) == [];
    assert [] + t == t;
  }

  lemma Split<T>(s: seq<T>, k: nat)
    requires k < |s|
    ensures s == s[..k] + ([s[k]] + s[k + 1..])
  {
  }

  lemma DropAt<T>(s: seq<T>, k: nat)
    requires Distinct(s) && k < |s|
    ensures Drop(s, s[k]) == s[..k] + s[k + 1..]
  {
    var a, b := s[..k], s[k + 1..];
    Split(s, k);
    assert s[k] !in a;
    assert s[k] !in b;
    DropMiddle(a, s[k], b);
  }

  lemma {:induction false} RecentDistinct<T>(h: seq<T>)
    ensures Distinct(Recent(h))
  {
    if h != [] {
      var y := h[|h| - 1];
      var r := Recent(h[..|h| - 1]);
      RecentDistinct(h[..|h| - 1]);
      if y in r {
        var k :| 0 <= k < |r| && r[k] == y;
        DropAt(r, k);
      } else {
        DropAbsent(r, y);
      }
    }
  }

  /** A list of distinct elements is its own order of last touch. */
  lemma {:induction false} RecentOfDistinct<T>(h: seq<T>)
    requires Distinct(h)
    ensures Recent(h) == h
  {
    if h != [] {
      var front, x := h[..|h| - 1], h[|h| - 1];
      assert h == front + [x];
      assert x !in front;
      RecentOfDistinct(front);
      DropAbsent(front, x);
    }
  }

  lemma RecentSnoc<T>(h: seq<T>, y: T)
    ensures Recent(h + [y]) == Drop(Recent(h), y) + [y]
    ensures |Recent(h)| <= |Recent(h + [y])|
  {
    assert (h + [y])[..|h|] == h;
    RecentDistinct(h);
    var r := Recent(h);
    if y in r {
      var k :| 0 <= k < |r| && r[k] == y;
      DropAt(r, k);
    } else {
      DropAbsent(r, y);
    }
  }

  /** After its last touch an element is followed by exactly the distinct ones touched since. */
  lemma {:induction false} RecentSplit<T>(h: seq<T>, x: T, since: seq<T>) returns (p: seq<T>)
    requires x !in since
    ensures Recent(h + [x] + since) == p + [x] + Recent(since)
  {
    if since == [] {
      RecentSnoc(h, x);
      assert h + [x] + since == h + [x];
      p := Drop(Recent(h), x);
    } else {
      var n := |since| - 1;
      var y := since[n];
      var q := RecentSplit(h, x, since[..n]);
      RecentSnoc(h + [x] + since[..n], y);
      assert h + [x] + since == h + [x] + since[..n] + [y];
      DropConcat(q + [x], Recent(since[..n]), y);
      DropConcat(q, [x], y);
      DropAbsent([x], y);
      p := Drop(q, y);
      Regroup(p + [x], Drop(Recent(since[..n]), y), [y]);
    }
  }

  // ---------------------------------------------------------------- exact LRU

  /** One touch: the kept entries follow the order of last touch. */
  lemma TouchKnown<T>(r: seq<T>, max: nat, k: nat)
    requires Distinct(r) && 1 <= max && k < |Last(r, max)|
    ensures Last(Drop(r, Last(r, max)[k]) + [Last(r, max)[k]], max) == ToTail(Last(r, max), k)
  {
    hide Drop, Distinct, ToTail;
    var d := |r| - |Last(r, max)|;
    assert Last(r, max) == r[d..];
    assert r[d..][k] == r[d + k];
    DropAt(r, d + k);
    LastOfMoved(r, d, k);
    assert |r[..d + k] + r[d + k + 1..] + [r[d + k]]| == |r|;
  }

  lemma LastOfMoved<T>(r: seq<T>, d: nat, k: nat)
    requires d + k < |r|
    ensures (r[..d + k] + r[d + k + 1..] + [r[d + k]])[d..] == ToTail(r[d..], k)
  {
    assert r[d..][..k] == r[..d + k][d..];
    assert r[d..][k + 1..] == r[d + k + 1..];
  }

  lemma TouchNew<T>(r: seq<T>, max: nat, x: T)
    requires Distinct(r) && 1 <= max && x !in Last(r, max)
    ensures |r| < max ==> Last(Drop(r, x) + [x], max) == Last(r, max) + [x]
    ensures |r| >= max ==> Last(Drop(r, x) + [x], max) == Last(r, max)[1..] + [x]
  {
    if x in r {
      var k :| 0 <= k < |r| && r[k] == x;
      DropAt(r, k);
      NotLast(r, max, k);
      LastOfShorter(r, max, k);
    } else {
      DropAbsent(r, x);
      if |r| >= max {
        LastOfLonger(r, max, x);
      }
    }
  }

  lemma LastHolds<T>(s: seq<T>, n: nat, k: nat)
    requires k < |s| && |s| - k <= n
    ensures s[k] in Last(s, n)
  {
    if n < |s| {
      assert Last(s, n)[k - (|s| - n)] == s[k];
    }
  }

  lemma NotLast<T>(s: seq<T>, n: nat, k: nat)
    requires k < |s| && s[k] !in Last(s, n)
    ensures |s| - k > n
  {
    hide Last;
    if |s| - k <= n {
      LastHolds(s, n, k);
    }
  }

  lemma LastOfShorter<T>(r: seq<T>, n: nat, k: nat)
    requires 1 <= n && k < |r| - n
    ensures Last(r[..k] + r[k + 1..] + [r[k]], n) == Last(r, n)[1..] + [r[k]]
  {
    var t := r[..k] + r[k + 1..] + [r[k]];
    assert |t| == |r|;
    assert t[|r| - n..] == r[|r| - n + 1..] + [r[k]];
  }

  lemma LastOfLonger<T>(r: seq<T>, n: nat, x: T)
    requires 1 <= n <= |r|
    ensures Last(r + [x], n) == Last(r, n)[1..] + [x]
  {
  }

  function Names(c: seq<Entry>): (s: seq<Name>)
    ensures |s| == |c| && forall i :: 0 <= i < |s| ==> s[i] == c[i].name
  {
    if c == [] then [] else [c[0].name] + Names(c[1..])
  }

  lemma NamesConcat(c: seq<Entry>, d: seq<Entry>)
    ensures Names(c + d) == Names(c) + Names(d)
  {
  }

  lemma NamesToTail(c: seq<Entry>, k: nat)
    requires k < |c|
    ensures Names(ToTail(c, k)) == ToTail(Names(c), k)
  {
    hide Names, ToTail;
    ToTailAt(c, k);
    ToTailAt(Names(c), k);
    var a, b := Names(ToTail(c, k)), ToTail(Names(c), k);
    assert |a| == |b| && forall i :: 0 <= i < |c| ==> a[i] == b[i];
  }

  lemma NewNames(c: seq<Entry>, max: nat, name: Name)
    requires |c| <= max && 1 <= max && Position(c, name) == |c|
    ensures Names(Find(c, max, name)) == if |c| < max then Names(c) + [name] else Names(c)[1..] + [name]
    ensures name !in Names(c)
  {
    var e := Entry(name, if |c| < max then |c| else c[0].idx);
    NamesConcat(c, [e]);
    if |c| == max {
      NamesConcat(c[1..], [e]);
    }
    assert Names([e]) == [name];
  }

  lemma FindTouches(c: seq<Entry>, max: nat, name: Name, r: seq<Name>)
    requires Wf(c, max) && 1 <= max && Distinct(r) && Names(c) == Last(r, max)
    ensures Names(Find(c, max, name)) == Last(Drop(r, name) + [name], max)
  {
    hide Drop, Distinct, ToTail, Names, Wf;
    var k := Position(c, name);
    if k < |c| {
      assert Names(c)[k] == name;
      NamesToTail(c, k);
      TouchKnown(r, max, k);
    } else {
      NewNames(c, max, name);
      TouchNew(r, max, name);
    }
  }

  /** A successful lookup is a touch like `Find` of the name it returns. */
  lemma LookupIsFind(c: seq<Entry>, max: nat, idx: int)
    requires Wf(c, max) && 1 <= max && Slot(c, idx) < |c|
    ensures Lookup(c, idx) == Find(c, max, c[Slot(c, idx)].name)
  {
    assert Position(c, c[Slot(c, idx)].name) == Slot(c, idx);
  }

  lemma LastName(c: seq<Entry>)
    requires c != []
    ensures Names(c) == Names(c)[..|c| - 1] + [c[|c| - 1].name]
  {
    var names := Names(c);
    assert |names| == |c| && names[|c| - 1] == c[|c| - 1].name;
    hide Names;
  }

  /** The list is exactly the `max` most recently touched names, oldest touch first. */
  lemma {:induction false} ExactLru(c: seq<Entry>, max: nat, ops: seq<Op>)
    requires Wf(c, max) && 1 <= max
    ensures Names(Run(c, max, ops)) == Last(Recent(Names(c) + History(c, max, ops)), max)
  {
    if ops == [] {
      assert Names(c) + [] == Names(c);
      RecentOfDistinct(Names(c));
    } else {
      var before := ops[..|ops| - 1];
      var op := ops[|ops| - 1];
      var r := Run(c, max, before);
      var h := Names(c) + History(c, max, before);
      ExactLru(c, max, before);
      RunWf(c, max, before);
      RecentDistinct(h);
      var t := Touched(r, op);
      Regroup(Names(c), History(c, max, before), t);
      if t == [] {
        assert h + t == h;
      } else {
        RecentSnoc(h, t[0]);
        FindTouches(r, max, t[0], Recent(h));
        if op.LookupOp? {
          LookupIsFind(r, max, op.idx);
        }
      }
    }
  }

  /** What survives an operation keeps its index. */
  lemma StepKeepsIndex(c: seq<Entry>, max: nat, op: Op, e: Entry)
    requires Wf(c, max) && 1 <= max && e in c
    requires exists x :: x in Step(c, max, op) && x.name == e.name
    ensures e in Step(c, max, op)
  {
    var s := Step(c, max, op);
    var x :| x in s && x.name == e.name;
    var k :| 0 <= k < |c| && c[k] == e;
    match op
    case FindOp(name) =>
      if Position(c, name) < |c| {
        ToTailKeeps(c, Position(c, name), k);
      } else if |c| == max {
        EvictKeeps(c, max, name, k, x);
      } else {
        assert s[k] == e;
      }
    case LookupOp(idx) =>
      if Slot(c, idx) < |c| {
        ToTailKeeps(c, Slot(c, idx), k);
      }
  }

  lemma EvictKeeps(c: seq<Entry>, max: nat, name: Name, k: nat, x: Entry)
    requires Wf(c, max) && c != [] && Position(c, name) == |c| && k < |c|
    requires x in c[1..] + [Entry(name, c[0].idx)] && x.name == c[k].name
    ensures c[k] in c[1..] + [Entry(name, c[0].idx)]
  {
    var f := c[1..] + [Entry(name, c[0].idx)];
    assert forall j :: 0 <= j < |f| ==> f[j].name != c[0].name;
    assert k > 0;
    assert f[k - 1] == c[k];
  }

  lemma ToTailKeeps<T>(s: seq<T>, k: nat, i: nat)
    requires k < |s| && i < |s|
    ensures s[i] in ToTail(s, k)
  {
    var t := ToTail(s, k);
    assert s[i] == if i < k then t[i] else if i == k then t[|s| - 1] else t[i - 1];
  }

  lemma InNames(c: seq<Entry>, name: Name)
    ensures name in Names(c) <==> exists e :: e in c && e.name == name
  {
    if name in Names(c) {
      var i :| 0 <= i < |c| && Names(c)[i] == name;
      assert c[i] in c && c[i].name == name;
    }
    if e :| e in c && e.name == name {
      var i :| 0 <= i < |c| && c[i] == e;
      assert Names(c)[i] == name;
    }
  }

  /** The name touched last stays known exactly as long as fewer than `max` distinct other
      names have been touched since. */
  lemma KnownUntil(c: seq<Entry>, max: nat, ops: seq<Op>)
    requires Wf(c, max) && 1 <= max && c != []
    requires c[|c| - 1].name !in History(c, max, ops)
    ensures c[|c| - 1].name in Names(Run(c, max, ops)) <==> |Recent(History(c, max, ops))| < max
  {
    assert |c| <= max;
    hide Recent, Last, Drop, Run, History, Wf, Names;
    ExactLru(c, max, ops);
    LastName(c);
    StillRecent(Names(c)[..|c| - 1], c[|c| - 1].name, History(c, max, ops), max);
  }

  lemma StillRecent<T>(h: seq<T>, x: T, since: seq<T>, n: nat)
    requires x !in since
    ensures x in Last(Recent(h + [x] + since), n) <==> |Recent(since)| < n
  {
    var p := RecentSplit(h, x, since);
    var r := Recent(h + [x] + since);
    RecentDistinct(h + [x] + since);
    assert r[|p|] == x;
    LastHas(r, n, |p|);
  }

  lemma LastHas<T>(s: seq<T>, n: nat, k: nat)
    requires Distinct(s) && k < |s|
    ensures s[k] in Last(s, n) <==> |s| - k <= n
  {
    if |s| - k <= n {
      LastHolds(s, n, k);
    }
  }

  /** ... and while it is known it keeps its index, so its address. */
  lemma {:induction false} KeepsAddress(c: seq<Entry>, max: nat, ops: seq<Op>)
    requires Wf(c, max) && 1 <= max && c != []
    requires c[|c| - 1].name !in History(c, max, ops)
    requires |Recent(History(c, max, ops))| < max
    ensures c[|c| - 1] in Run(c, max, ops)
  {
    var e := c[|c| - 1];
    if ops != [] {
      var before := ops[..|ops| - 1];
      var r := Run(c, max, before);
      var t := Touched(r, ops[|ops| - 1]);
      var h := History(c, max, before);
      if t == [] {
        assert h + t == h;
      } else {
        RecentSnoc(h, t[0]);
      }
      assert forall x :: x in h ==> x in History(c, max, ops);
      KeepsAddress(c, max, before);
      RunWf(c, max, before);
      KnownUntil(c, max, ops);
      InNames(Run(c, max, ops), e.name);
      StepKeepsIndex(r, max, ops[|ops| - 1], e);
    }
  }

  // ---------------------------------------------------------------- few names are all kept

  lemma {:induction false} RecentAppend<T>(h: seq<T>, since: seq<T>) returns (p: seq<T>)
    ensures Recent(h + since) == p + Recent(since)
  {
    if since == [] {
      assert h + since == h;
      p := Recent(h);
    } else {
      var n := |since| - 1;
      var y := since[n];
      var q := RecentAppend(h, since[..n]);
      RecentSnoc(h + since[..n], y);
      assert h + since == h + since[..n] + [y];
      DropConcat(q, Recent(since[..n]), y);
      p := Drop(q, y);
      Regroup(p, Drop(Recent(since[..n]), y), [y]);
    }
  }

  lemma {:induction false} DropMembers<T>(s: seq<T>, y: T, x: T)
    ensures x in Drop(s, y) <==> x in s && x != y
  {
    if s != [] {
      DropMembers(s[1..], y, x);
    }
  }

  lemma {:induction false} RecentMembers<T>(h: seq<T>, x: T)
    ensures x in Recent(h) <==> x in h
  {
    if h != [] {
      RecentMembers(h[..|h| - 1], x);
      DropMembers(Recent(h[..|h| - 1]), h[|h| - 1], x);
    }
  }

  lemma {:induction false} RecentGrows<T>(h: seq<T>, k: nat)
    requires k <= |h|
    ensures |Recent(h[..k])| <= |Recent(h)|
  {
    if k == |h| {
      assert h[..k] == h;
    } else {
      var g := h[..|h| - 1];
      RecentGrows(g, k);
      assert g[..k] == h[..k];
      RecentSnoc(g, h[|h| - 1]);
      assert g + [h[|h| - 1]] == h;
    }
  }

  /** While no more than `max` distinct names have been touched, all of them are known. */
  lemma AllKnown(c: seq<Entry>, max: nat, ops: seq<Op>, x: Name)
    requires Wf(c, max) && 1 <= max && |Recent(History(c, max, ops))| <= max
    requires x in History(c, max, ops)
    ensures x in Names(Run(c, max, ops))
  {
    ExactLru(c, max, ops);
    var d := Recent(History(c, max, ops));
    var p := RecentAppend(Names(c), History(c, max, ops));
    RecentMembers(History(c, max, ops), x);
    var k :| 0 <= k < |d| && d[k] == x;
    assert (p + d)[|p| + k] == x;
    LastHolds(p + d, max, |p| + k);
  }
}
