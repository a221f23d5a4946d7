/**
 The ring buffer between the proxy socket and lwIP. Bytes are written at the tail, handed to
 `tcp_write` by reference, and given back only when the peer has acknowledged them.
 */
module RingBuffer {
  import opened Bytes

  /** A stretch of the buffer, as `struct iovec` has it. */
  datatype Iov = Iov(base: nat, len: nat)

  /** `x` modulo `m`, for the sums the cursors come to. */
  function Wrap(x: nat, m: nat): nat {
    if x < m then x else x - m
  }

  /** Where the i-th byte from `start` on lies. */
  function Place(start: nat, i: nat, m: nat): nat {
    Wrap(start + i, m)
  }

  lemma PlaceAgain(start: nat, i: nat, j: nat, m: nat)
    requires start < m && i + j <= m && i < m
    ensures Place(Place(start, i, m), j, m) == Place(start, i + j, m)
  {
  }

  lemma HeadMoves(start: nat, i: nat, size: nat, m: nat)
    requires start < m && i + size <= m
    ensures (Place(start, i, m) + size) % m == Place(start, i + size, m)
  {
    ModWrap(Place(start, i, m) + size, m);
    if i < m {
      PlaceAgain(start, i, size, m);
    }
  }

  lemma AtLeastTwice(q: nat, m: nat)
    requires q >= 2
    ensures q * m >= 2 * m
  {
    assert q * m == 2 * m + (q - 2) * m;
  }

  lemma ModWrap(x: nat, m: nat)
    requires x < 2 * m
    ensures x % m == Wrap(x, m)
  {
    var q, r := x / m, x % m;
    assert x == q * m + r;
    if q >= 2 {
      AtLeastTwice(q, m);
    } else if q == 1 {
      assert r == x - m;
    }
  }

  function Total(iov: seq<Iov>): nat {
    if iov == [] then 0 else iov[0].len + Total(iov[1..])
  }

  /** The position of the i-th byte that the vector names. */
  function Spot(iov: seq<Iov>, i: nat): nat
    requires i < Total(iov)
  {
    if i < iov[0].len then iov[0].base + i else Spot(iov[1..], i - iov[0].len)
  }

  predicate Within(iov: seq<Iov>, size: nat) {
    forall k :: 0 <= k < |iov| ==> iov[k].base + iov[k].len <= size
  }

  /** The bytes the vector names, in order. */
  function Gather(data: seq<byte>, iov: seq<Iov>): (b: seq<byte>)
    requires Within(iov, |data|)
    ensures |b| == Total(iov)
  {
    if iov == [] then [] else data[iov[0].base..iov[0].base + iov[0].len] + Gather(data, iov[1..])
  }

  /** One or two stretches starting at `from` and going around the end of the buffer. */
  ghost predicate Around(iov: seq<Iov>, from: nat, len: nat, max: nat) {
    && Total(iov) == len && Within(iov, max) && |iov| <= 2
    && forall i :: 0 <= i < len ==> Spot(iov, i) == Place(from, i, max)
  }

  lemma OneStretch(from: nat, len: nat, max: nat)
    requires from + len <= max
    ensures Around([Iov(from, len)], from, len, max)
  {
    assert Total([Iov(from, len)][1..]) == 0;
  }

  lemma TwoStretches(from: nat, len: nat, max: nat)
    requires from < max < from + len && len <= max
    ensures Around([Iov(from, max - from), Iov(0, len - (max - from))], from, len, max)
  {
    var iov, rest := [Iov(from, max - from), Iov(0, len - (max - from))], [Iov(0, len - (max - from))];
    assert iov[1..] == rest;
    OneStretch(0, len - (max - from), max);
    assert Total(iov) == iov[0].len + Total(rest);
    forall i | 0 <= i < len ensures Spot(iov, i) == Place(from, i, max) {
      if i >= max - from {
        assert Spot(iov, i) == Spot(rest, i - (max - from));
      }
    }
  }

  /** `held` lies in the buffer from `start` on. */
  ghost predicate Lies(data: seq<byte>, start: nat, held: seq<byte>) {
    && |held| <= |data| && (start < |data| || |data| == 0)
    && forall i :: 0 <= i < |held| ==> data[Place(start, i, |data|)] == held[i]
  }

  lemma NothingLies(data: seq<byte>)
    ensures Lies(data, 0, [])
  {
  }

  lemma LiesLater(data: seq<byte>, start: nat, held: seq<byte>, k: nat)
    requires Lies(data, start, held) && k < |held|
    ensures Lies(data, Place(start, k, |data|), held[k..])
  {
    forall i | 0 <= i < |held| - k ensures data[Place(Place(start, k, |data|), i, |data|)] == held[k..][i] {
      PlaceAgain(start, k, i, |data|);
    }
  }

  /** The tail moves on past what was just written behind it. */
  lemma TailMoves(data: seq<byte>, start: nat, held: seq<byte>, more: seq<byte>)
    requires Lies(data, start, held) && |held| + |more| <= |data| && 0 < |data|
    requires Lies(data, Place(start, |held|, |data|), more)
    ensures Lies(data, start, held + more)
    ensures (Place(start, |held|, |data|) + |more|) % |data| == Place(start, |held| + |more|, |data|)
  {
    HeadMoves(start, |held|, |more|, |data|);
    if |held| < |data| {
      LiesMore(data, start, held, more);
    } else {
      assert held + more == held;
    }
  }

  lemma LiesMore(data: seq<byte>, start: nat, held: seq<byte>, more: seq<byte>)
    requires Lies(data, start, held) && |held| + |more| <= |data| && |held| < |data|
    requires Lies(data, Place(start, |held|, |data|), more)
    ensures Lies(data, start, held + more)
  {
    forall i | 0 <= i < |held + more| ensures data[Place(start, i, |data|)] == (held + more)[i] {
      if i >= |held| {
        PlaceAgain(start, |held|, i - |held|, |data|);
      }
    }
  }

  lemma {:induction false} GatherAt(data: seq<byte>, iov: seq<Iov>, i: nat)
    requires Within(iov, |data|) && i < Total(iov)
    ensures Spot(iov, i) < |data| && Gather(data, iov)[i] == data[Spot(iov, i)]
  {
    if i >= iov[0].len {
      GatherAt(data, iov[1..], i - iov[0].len);
    }
  }

  /** Gathering all the way around reads what lies there. */
  lemma GatherAround(data: seq<byte>, iov: seq<Iov>, from: nat, held: seq<byte>)
    requires Around(iov, from, |held|, |data|) && Lies(data, from, held)
    ensures Gather(data, iov) == held
  {
    forall i | 0 <= i < |held| ensures Gather(data, iov)[i] == held[i] {
      GatherAt(data, iov, i);
    }
  }

  /** Where the i-th byte ever written lies, the oldest kept one being byte `released`. */
  function AddressOf(start: nat, released: nat, i: nat, m: nat): nat
    requires released <= i
  {
    Place(start, i - released, m)
  }

  lemma Addresses(start: nat, released: nat, size: nat, n: nat, m: nat)
    requires start < m && released + size <= n <= released + m
    ensures forall i :: released + size <= i < n ==>
      AddressOf(Place(start, size, m), released + size, i, m) == AddressOf(start, released, i, m)
  {
    forall i | released + size <= i < n
      ensures AddressOf(Place(start, size, m), released + size, i, m) == AddressOf(start, released, i, m)
    {
      PlaceAgain(start, size, i - (released + size), m);
    }
  }

  /** What is kept after a release lies where it lay. */
  lemma HeadStays(data: seq<byte>, start: nat, written: seq<byte>, released: nat, read: nat, size: nat)
    requires released + size <= read <= |written| && released + size < |written|
    requires Lies(data, start, written[released..])
    ensures Lies(data, Place(start, size, |data|), written[released + size..])
    ensures Place(Place(start, size, |data|), |written| - released - size, |data|) ==
      Place(start, |written| - released, |data|)
    ensures Place(Place(start, size, |data|), read - released - size, |data|) == Place(start, read - released, |data|)
    ensures forall i :: released + size <= i < |written| ==>
      AddressOf(Place(start, size, |data|), released + size, i, |data|) == AddressOf(start, released, i, |data|)
  {
    Addresses(start, released, size, |written|, |data|);
    LiesLater(data, start, written[released..], size);
    assert written[released..][size..] == written[released + size..];
    PlaceAgain(start, size, |written| - released - size, |data|);
    PlaceAgain(start, size, read - released - size, |data|);
  }

  class HevRingBuffer {
    var rp: nat
    var wp: nat
    var rda_size: nat
    var use_size: nat
    const max_size: nat
    const data: array<byte>

    // The whole history: every byte ever written, and how many of them have been read and
    // released. `start` is where the oldest byte not released lies.
    ghost var written: seq<byte>
    ghost var read: nat
    ghost var released: nat
    ghost var start: nat

    ghost predicate Valid()
      reads this, data
    {
      && data.Length == max_size
      && released <= read <= |written|
      && use_size == |written| - released && rda_size == |written| - read
      && use_size <= max_size
      && (if max_size == 0 then start == rp == wp == 0
          else
            && start < max_size
            && rp == Place(start, read - released, max_size)
            && wp == Place(start, use_size, max_size))
      && Lies(data[..], start, written[released..])
    }

    constructor (size: nat)
      ensures Valid() && written == [] && max_size == size && fresh(data)
    {
      rp, wp, rda_size, use_size, max_size := 0, 0, 0, 0, size;
      data := new byte[size](_ => 0);
      written, read, released, start := [], 0, 0, 0;
    }

    /** The cursors as the design states them. */
    lemma Cursors()
      requires Valid() && max_size > 0
      ensures wp == (rp + rda_size) % max_size
      ensures rda_size <= use_size <= max_size
    {
      ModWrap(rp + rda_size, max_size);
    }

    /** `hev_ring_buffer_get_use_size`: the bytes written and not freed. */
    method GetUseSize() returns (size: nat)
      requires Valid()
      ensures size == |written| - released
    {
      size := use_size;
    }

    /** `hev_ring_buffer_reading`: the bytes written and not read, in order. */
    method Reading() returns (iov: seq<Iov>)
      requires Valid()
      ensures Around(iov, rp, rda_size, max_size)
      ensures Gather(data[..], iov) == written[read..]
      ensures iov == [] <==> rda_size == 0
    {
      hide Lies, Gather, Place;
      if 0 == rda_size {
        return [];
      }
      LiesLater(data[..], start, written[released..], read - released);
      assert written[released..][read - released..] == written[read..];
      var upper := max_size - rp;
      if rda_size <= upper {
        iov := [Iov(rp, rda_size)];
        OneStretch(rp, rda_size, max_size);
      } else {
        iov := [Iov(rp, upper), Iov(0, rda_size - upper)];
        TwoStretches(rp, rda_size, max_size);
      }
      GatherAround(data[..], iov, rp, written[read..]);
    }

    /** `hev_ring_buffer_writing`: the free bytes, from the tail on. */
    method Writing() returns (iov: seq<Iov>)
      requires Valid()
      ensures Around(iov, wp, max_size - use_size, max_size)
      ensures forall i, j :: 0 <= i < max_size - use_size && 0 <= j < use_size ==>
        Spot(iov, i) != Place(start, j, max_size)
      ensures iov == [] <==> use_size == max_size
    {
      if use_size == max_size {
        return [];
      }
      var upper, space := max_size - wp, max_size - use_size;
      if space <= upper {
        iov := [Iov(wp, space)];
        OneStretch(wp, space, max_size);
      } else {
        iov := [Iov(wp, upper), Iov(0, space - upper)];
        TwoStretches(wp, space, max_size);
      }
    }

    /** `hev_ring_buffer_read_finish` */
    method ReadFinish(size: nat)
      requires Valid() && size <= rda_size && max_size > 0
      modifies `rp, `rda_size, `read
      ensures Valid() && read == old(read) + size
    {
      HeadMoves(start, read - released, size, max_size);
      rp := (rp + size) % max_size;
      rda_size := rda_size - size;
      read := read + size;
    }

    /** Where the i-th byte ever written lies. */
    ghost function Address(i: nat): nat
      requires released <= i
      reads this
    {
      AddressOf(start, released, i, max_size)
    }

    /** `hev_ring_buffer_read_release`: an empty buffer starts over at zero, but no byte still
        in use moves. */
    method ReadRelease(size: nat)
      requires Valid() && size <= read - released
      modifies `rp, `wp, `use_size, `released, `start
      ensures Valid() && released == old(released) + size
      ensures forall i :: released <= i < |written| ==> Address(i) == old(Address(i))
    {
      hide Lies;
      if size < use_size {
        HeadStays(data[..], start, written, released, read, size);
      } else {
        assert written[released + size..] == [];
        NothingLies(data[..]);
      }
      use_size := use_size - size;
      released := released + size;
      start := Place(start, size, max_size);
      if use_size == 0 {
        rp := 0;
        wp := 0;
        start := 0;
      }
    }

    /** `hev_ring_buffer_write_finish`, `bytes` having been put into the first free bytes. */
    method WriteFinish(size: nat, ghost bytes: seq<byte>)
      requires Valid() && |bytes| == size <= max_size - use_size && max_size > 0
      requires Lies(data[..], wp, bytes)
      modifies `wp, `use_size, `rda_size, `written
      ensures Valid() && written == old(written) + bytes
    {
      TailMoves(data[..], start, written[released..], bytes);
      assert (written + bytes)[released..] == written[released..] + bytes;
      wp := (wp + size) % max_size;
      use_size := use_size + size;
      rda_size := rda_size + size;
      written := written + bytes;
    }
  }
}
