/**
 The backward half of the TCP splice: from the proxy socket through the ring buffer to lwIP,
 and the acknowledgements that free the buffer again. The other tasks run only where this one
 waits for the mutex, so the operations below are the atomic pieces, in any order.
 */
module SpliceTcp {
  import opened Bytes
  import opened RingBuffer

  /** What `readv` on the proxy socket comes back with. */
  datatype Input = Chunk(bytes: seq<byte>) | WouldBlock | Ended

  class SessionTcp {
    const buffer: HevRingBuffer
    var pcb: bool

    // everything read from the proxy, everything given to tcp_write, and how much of that
    // the peer has acknowledged
    ghost var received: seq<byte>
    ghost var handed: seq<byte>
    ghost var acked: nat

    ghost predicate Valid()
      reads this, buffer, buffer.data
    {
      && buffer.Valid() && received == buffer.written
      && |handed| == buffer.read && handed == received[..|handed|]
      && acked == buffer.released
    }

    constructor (size: nat)
      ensures Valid() && received == [] && handed == [] && acked == 0 && pcb
      ensures buffer.max_size == size
    {
      buffer := new HevRingBuffer(size);
      pcb := true;
      received, handed, acked := [], [], 0;
    }

    /** `readv`: the chunk goes into the first free bytes, one stretch after the other. */
    method Scatter(iov: seq<Iov>, bytes: seq<byte>)
      requires Valid() && Around(iov, buffer.wp, buffer.max_size - buffer.use_size, buffer.max_size)
      requires |bytes| <= buffer.max_size - buffer.use_size
      modifies buffer.data
      ensures Valid() && Lies(buffer.data[..], buffer.wp, bytes)
    {
      hide Lies;
      var k := 0;
      LiesNothing(buffer.data[..], buffer.wp);
      while k < |bytes|
        invariant 0 <= k <= |bytes|
        invariant Valid() && Lies(buffer.data[..], buffer.wp, bytes[..k])
      {
        FreeSpot(buffer.start, buffer.use_size, k, buffer.max_size);
        ghost var data, spot := buffer.data[..], Spot(iov, k);
        buffer.data[Spot(iov, k)] := bytes[k];
        assert buffer.data[..] == data[spot := bytes[k]];
        LiesStored(data, buffer.start, buffer.written[buffer.released..], spot, bytes[k]);
        LiesSnoc(data, buffer.wp, bytes[..k], spot, bytes[k]);
        assert bytes[..k + 1] == bytes[..k] + [bytes[k]];
        k := k + 1;
      }
      assert bytes[..k] == bytes;
    }

    /** A chunk was read. */
    method TakeChunk(iov: seq<Iov>, bytes: seq<byte>)
      requires Valid() && Around(iov, buffer.wp, buffer.max_size - buffer.use_size, buffer.max_size)
      requires 1 <= |bytes| <= buffer.max_size - buffer.use_size
      modifies this`received, buffer, buffer.data
      ensures Valid() && received == old(received) + bytes
      ensures buffer.start == old(buffer.start) && buffer.released == old(buffer.released)
    {
      hide Lies, Gather, Around;
      Scatter(iov, bytes);
      buffer.WriteFinish(|bytes|, bytes);
      received := received + bytes;
    }

    /** `tcp_splice_b` up to the lock: read from the socket what fits. */
    method SpliceIn(input: Input) returns (res: int)
      requires Valid()
      requires input.Chunk? ==> 1 <= |input.bytes| <= buffer.max_size - buffer.use_size
      modifies this`received, buffer, buffer.data
      ensures Valid()
      ensures res == (if old(buffer.use_size) == buffer.max_size then 0
                      else match input case Chunk(_) => 1 case WouldBlock => 0 case Ended => -1)
      ensures received == old(received) + if input.Chunk? then input.bytes else []
      ensures forall i :: acked <= i < |old(received)| ==> buffer.Address(i) == old(buffer.Address(i))
    {
      res := 1;
      var iov := buffer.Writing();
      if iov != [] {
        match input {
          case Chunk(bytes) =>
            TakeChunk(iov, bytes);
          case WouldBlock => res := 0;
          case Ended => res := -1;
        }
      } else {
        res := 0;
      }
    }

    /** `tcp_splice_b` under the lock: pass everything read to `tcp_write`, by reference. `fails`
        says whether a `tcp_write` or the `tcp_output` reports an error; what was passed to it
        counts as handed over all the same. */
    method SpliceOut(res0: int, fails: bool) returns (res: int, shut: bool)
      requires Valid()
      modifies this`handed, buffer
      ensures Valid()
      ensures handed == if pcb then received else old(handed)
      ensures res == if !pcb || (fails && |old(handed)| < |received|) then -1
                     else if |old(handed)| < |received| then 1 else res0
      ensures shut <==> pcb && |old(handed)| == |received| && res0 < 0
      ensures forall i :: acked <= i < |received| ==> buffer.Address(i) == old(buffer.Address(i))
    {
      hide Lies, Around;
      res, shut := res0, false;
      var err := false;
      if pcb {
        var iov := buffer.Reading();
        if iov != [] {
          var s;
          ghost var bytes;
          AroundWithin(iov, buffer.rp, buffer.rda_size, buffer.max_size);
          s, bytes := HandOver(buffer.data, iov);
          handed := handed + bytes;
          assert handed == received;
          buffer.ReadFinish(s);
          err := fails;
          res := 1;
        } else if res < 0 {
          shut := true;
        }
      }
      if !pcb || err {
        res := -1;
      }
    }

    /** `tcp_sent_handler`: the peer acknowledged `len` more bytes of those handed over. */
    method Sent(len: nat)
      requires Valid() && len <= |handed| - acked
      modifies this`acked, buffer
      ensures Valid() && acked == old(acked) + len
      ensures forall i :: acked <= i < |received| ==> buffer.Address(i) == old(buffer.Address(i))
    {
      buffer.ReadRelease(len);
      acked := acked + len;
    }

    /** `tcp_err_handler`: the connection is gone, and with it what lwIP referred to. */
    method Err()
      requires Valid()
      modifies this`pcb
      ensures Valid() && !pcb
    {
      pcb := false;
    }

    /** The loop at the end of `hev_socks5_session_tcp_splice`: whether the session stays for bytes
        that are not acknowledged yet. */
    method Lingers() returns (waits: bool)
      requires Valid()
      ensures waits <==> pcb && acked < |received|
    {
      waits := false;
      if pcb {
        var size := buffer.GetUseSize();
        waits := size != 0;
      }
    }

    /** What lwIP still refers to is what was handed over, where it was handed over. */
    lemma Referenced(i: nat)
      requires Valid() && acked <= i < |handed|
      ensures buffer.Address(i) < buffer.data.Length && buffer.data[buffer.Address(i)] == handed[i]
    {
      assert buffer.written[buffer.released..][i - acked] == received[i];
    }
  }

  /** One `tcp_write` for each stretch: the length handed over, and the bytes. */
  method HandOver(data: array<byte>, iov: seq<Iov>) returns (s: nat, ghost bytes: seq<byte>)
    requires Within(iov, data.Length)
    ensures s == Total(iov) && bytes == Gather(data[..], iov)
  {
    hide Gather, Total;
    s, bytes := 0, [];
    var i := 0;
    assert iov[0..] == iov;
    while i < |iov|
      invariant 0 <= i <= |iov| && s + Total(iov[i..]) == Total(iov)
      invariant bytes + Gather(data[..], iov[i..]) == Gather(data[..], iov)
    {
      OneMore(data[..], iov, i);
      assert data[..][iov[i].base..iov[i].base + iov[i].len] == data[iov[i].base..iov[i].base + iov[i].len];
      bytes := bytes + data[iov[i].base..iov[i].base + iov[i].len];
      s := s + iov[i].len;
      i := i + 1;
    }
    NoMore(data[..]);
    assert iov[i..] == [];
  }

  lemma LiesNothing(data: seq<byte>, start: nat)
    requires start < |data| || |data| == 0
    ensures Lies(data, start, [])
  {
  }

  /** A store elsewhere leaves what lies there. */
  lemma LiesStored(data: seq<byte>, start: nat, held: seq<byte>, spot: nat, b: byte)
    requires Lies(data, start, held) && spot < |data|
    requires forall i :: 0 <= i < |held| ==> Place(start, i, |data|) != spot
    ensures Lies(data[spot := b], start, held)
  {
  }

  lemma LiesSnoc(data: seq<byte>, start: nat, held: seq<byte>, spot: nat, b: byte)
    requires Lies(data, start, held) && |held| < |data| && spot == Place(start, |held|, |data|) < |data|
    requires forall i :: 0 <= i < |held| ==> Place(start, i, |data|) != spot
    ensures Lies(data[spot := b], start, held + [b])
  {
  }

  lemma AroundWithin(iov: seq<Iov>, from: nat, len: nat, max: nat)
    requires Around(iov, from, len, max)
    ensures Within(iov, max)
  {
  }

  lemma NoMore(data: seq<byte>)
    ensures Total([]) == 0 && Gather(data, []) == []
  {
  }

  lemma OneMore(data: seq<byte>, iov: seq<Iov>, i: nat)
    requires Within(iov, |data|) && i < |iov|
    ensures Within(iov[i..], |data|) && Within(iov[i + 1..], |data|)
    ensures Total(iov[i..]) == iov[i].len + Total(iov[i + 1..])
    ensures Gather(data, iov[i..]) == data[iov[i].base..iov[i].base + iov[i].len] + Gather(data, iov[i + 1..])
  {
    WithinFrom(iov, |data|, i);
    WithinFrom(iov, |data|, i + 1);
    hide Within;
    assert iov[i..][0] == iov[i] && iov[i..][1..] == iov[i + 1..];
  }

  lemma WithinFrom(iov: seq<Iov>, n: nat, i: nat)
    requires Within(iov, n) && i <= |iov|
    ensures Within(iov[i..], n)
  {
    forall k | 0 <= k < |iov[i..]| ensures iov[i..][k].base + iov[i..][k].len <= n {
      assert iov[i..][k] == iov[i + k];
    }
  }

  /** The k-th free byte is none of those in use, and none of the free ones before it. */
  lemma FreeSpot(start: nat, used: nat, k: nat, m: nat)
    requires start < m && used + k < m
    ensures Place(Place(start, used, m), k, m) < m
    ensures forall j :: 0 <= j < used ==> Place(start, j, m) != Place(Place(start, used, m), k, m)
    ensures forall j :: 0 <= j < k ==> Place(Place(start, used, m), j, m) != Place(Place(start, used, m), k, m)
  {
  }
}
