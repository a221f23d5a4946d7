/**
 UDP datagrams over a SOCKS5 connection, as the C side frames them: one after the other on a TCP
 stream, or one to a UDP datagram. `Receive` says what a batch read makes of a stream; the
 methods at the end are the source's and fill the caller's buffers in place.
 */
module UdpFraming {
  import opened Bytes
  import opened Socks5Addr

  /** An address in its wire form, and the data sent to it or received from it. */
  datatype Msg = Msg(addr: seq<byte>, data: seq<byte>)

  // ---------------------------------------------------------------- on a stream

  /** Length of the data, length of the three-byte header with the address, address, data. */
  function Frame(m: Msg): seq<byte> {
    Port(|m.data|) + [(3 + |m.addr|) % 256] + m.addr + m.data
  }

  function Frames(ms: seq<Msg>): seq<byte> {
    if ms == [] then [] else Frame(ms[0]) + Frames(ms[1..])
  }

  /** The messages that came out, the code returned, and what is left unread. `past` is set when
      the next read was told to write past the end of its buffer; nothing is said of what the
      code and the rest are then. */
  datatype Received = Received(msgs: seq<Msg>, code: int, rest: seq<byte>, past: bool := false)

  const SIZES := 0x1_0000_0000_0000_0000

  /** The source compares sizes without a sign: what a buffer has left behind an address that is
      longer than the buffer wraps around. */
  function Left(room: nat, addrlen: nat): int {
    (room - addrlen) % SIZES
  }

  /** A batch read of at most `num` frames into buffers of `room` bytes, `done` of them already
      read. The peer sends `stream` and then closes; `quiet` is how many frames may be begun
      before a read would block. */
  function Receive(stream: seq<byte>, num: nat, room: nat, quiet: nat, done: nat): (r: Received)
    requires done <= num
    decreases num - done
  {
    if done == num then Received([], done, stream)
    else if quiet == 0 then Received([], if done > 0 then done else -1, stream)
    else if |stream| < 5 then Received([], if done > 0 then done else |stream|, [])
    else if stream[2] < 5 then Received([], -1, stream[5..])
    else
      var addrlen := stream[2] - 3;
      var datlen := U16(stream, 0);
      if datlen > Left(room, addrlen) then Received([], -1, stream[5..])
      else if addrlen + datlen > room then Received([], -1, stream[5..], true)
      else if |stream| < 3 + addrlen + datlen then Received([], |stream| - 5, [])
      else
        var m := Msg(stream[3..3 + addrlen], stream[3 + addrlen..3 + addrlen + datlen]);
        var r := Receive(stream[3 + addrlen + datlen..], num, room, quiet - 1, done + 1);
        r.(msgs := [m] + r.msgs)
  }

  /** A message that one frame can carry and one buffer can hold. */
  predicate Fits(m: Msg, room: nat) {
    m.addr != [] && AddrLen(m.addr, 0) == Some(|m.addr|) && |m.addr| <= 252
    && |m.data| < 0x1_0000 && |m.data| + |m.addr| <= room < SIZES
  }

  function Min(a: nat, b: nat): nat {
    if a < b then a else b
  }

  lemma FrameHead(m: Msg, tail: seq<byte>, room: nat)
    requires Fits(m, room)
    ensures var s := Frame(m) + tail; var n := |m.addr|; var d := |m.data|;
      && |s| == 3 + n + d + |tail| && s[2] == 3 + n && U16(s, 0) == d
      && s[3..3 + n] == m.addr && s[3 + n..3 + n + d] == m.data && s[3 + n + d..] == tail
  {
    PortBack(|m.data|, [3 + |m.addr|] + m.addr + m.data + tail);
    assert Frame(m) + tail == Port(|m.data|) + ([3 + |m.addr|] + m.addr + m.data + tail);
  }

  /** One frame is read as the message it was made of. */
  lemma FrameBack(m: Msg, tail: seq<byte>, num: nat, room: nat, quiet: nat, done: nat)
    requires Fits(m, room) && done < num && quiet > 0
    ensures var r := Receive(tail, num, room, quiet - 1, done + 1);
      Receive(Frame(m) + tail, num, room, quiet, done) == r.(msgs := [m] + r.msgs)
  {
    FrameHead(m, tail, room);
    hide Frame, AddrLen, U16;
  }

  lemma PortOfParts(q: nat, high: nat, low: nat)
    requires high < 256 && low < 256
    ensures Port((256 * q + high) * 256 + low) == [high, low]
  {
    var n := (256 * q + high) * 256 + low;
    assert n / 256 == 256 * q + high && n % 256 == low;
    assert (q * 256 + high) % 256 == high;
  }

  lemma PortWraps(n: nat)
    ensures Port(n) == Port(n % 0x1_0000)
  {
    var q, m := n / 0x1_0000, n % 0x1_0000;
    var high, low := m / 256, m % 256;
    hide Port;
    PortOfParts(q, high, low);
    PortOfParts(0, high, low);
    assert n == (256 * q + high) * 256 + low && m == (256 * 0 + high) * 256 + low;
  }

  lemma HeaderWraps(m: Msg)
    ensures var s := Frame(m);
      |s| == 3 + |m.addr| + |m.data| && s[2] == (3 + |m.addr|) % 256 && U16(s, 0) == |m.data| % 0x1_0000
  {
    PortWraps(|m.data|);
    hide Port;
    assert Frame(m) == Port(|m.data|) + ([(3 + |m.addr|) % 256] + m.addr + m.data) by {
      assert |Port(|m.data|)| == 2 by {
        PortTwo(|m.data|);
      }
    }
    PortTwo(|m.data|);
    PortBack(|m.data| % 0x1_0000, [(3 + |m.addr|) % 256] + m.addr + m.data);
  }

  lemma PortTwo(n: nat)
    ensures |Port(n)| == 2
  {
  }

  /** One frame gives at most one message, with the lengths its header tells. */
  lemma OneMessage(s: seq<byte>, room: nat)
    ensures var ms := Receive(s, 1, room, 1, 0).msgs;
      |ms| <= 1 && (ms != [] ==> |s| >= 5 && |ms[0].addr| == s[2] as int - 3 && |ms[0].data| == U16(s, 0))
  {
  }

  /** A message that a buffer can hold comes back from its frame just if the header can tell its
      lengths: one byte for the address, which allows names of up to 248 bytes, two for the data. */
  lemma FrameBackIff(m: Msg, room: nat)
    requires m.addr != [] && AddrLen(m.addr, 0) == Some(|m.addr|) && |m.data| + |m.addr| <= room < SIZES
    ensures Receive(Frame(m), 1, room, 1, 0).msgs == [m] <==> |m.addr| <= 252 && |m.data| < 0x1_0000
  {
    if |m.addr| <= 252 && |m.data| < 0x1_0000 {
      assert Frame(m) + [] == Frame(m);
      FrameBack(m, [], 1, room, 1, 0);
      NoFrameNow([], 1, room, 0, 1);
      hide Receive, Frame;
    } else {
      hide Receive, Frame;
      HeaderWraps(m);
      OneMessage(Frame(m), room);
    }
  }

  /** A name of 249 bytes is too long: the length of its header comes out as 0. */
  lemma LongName(room: nat)
    requires 253 <= room < SIZES
    ensures var m := Msg([NAME, 249] + seq(249, _ => 97) + [0, 53], []);
      && m.addr != [] && AddrLen(m.addr, 0) == Some(|m.addr|) && |m.data| + |m.addr| <= room
      && Receive(Frame(m), 1, room, 1, 0).msgs == []
  {
    var m := Msg([NAME, 249] + seq(249, _ => 97) + [0, 53], []);
    HeaderWraps(m);
    hide Frame;
  }

  lemma NoMoreFrames(num: nat, room: nat, quiet: nat, done: nat)
    requires done <= num
    ensures Receive([], num, room, quiet, done) ==
      Received([], if done > 0 || num == 0 then done else if quiet == 0 then -1 else 0, [])
  {
  }

  lemma NoFrameNow(stream: seq<byte>, num: nat, room: nat, quiet: nat, done: nat)
    requires done == num || (done < num && quiet == 0)
    ensures Receive(stream, num, room, quiet, done) == Received([], if done > 0 || num == 0 then done else -1, stream)
  {
  }

  lemma FirstOf(ms: seq<Msg>, k: nat)
    requires 1 <= k <= |ms|
    ensures ms[..k] == [ms[0]] + ms[1..][..k - 1] && ms[k..] == ms[1..][k - 1..]
  {
  }

  /** Reading back any run of frames gives the datagrams, in order, as many as were asked for
      and had come; the next read goes on where this one stopped. */
  lemma {:induction false} FramesBack(ms: seq<Msg>, num: nat, room: nat, quiet: nat, done: nat)
    requires done <= num && forall i :: 0 <= i < |ms| ==> Fits(ms[i], room)
    ensures var k := Min(|ms|, Min(num - done, quiet));
      Receive(Frames(ms), num, room, quiet, done) ==
        Received(ms[..k], if done + k > 0 || num == 0 then done + k else if quiet == 0 then -1 else 0, Frames(ms[k..]))
    decreases |ms|
  {
    hide Frame, Fits, Receive;
    if ms == [] {
      NoMoreFrames(num, room, quiet, done);
    } else if done == num || quiet == 0 {
      NoFrameNow(Frames(ms), num, room, quiet, done);
      assert ms[..0] == [] && ms[0..] == ms;
    } else {
      var k := Min(|ms|, Min(num - done, quiet));
      FirstOf(ms, k);
      FrameBack(ms[0], Frames(ms[1..]), num, room, quiet, done);
      FramesBack(ms[1..], num, room, quiet - 1, done + 1);
    }
  }

  // ---------------------------------------------------------------- when the count is wrong

  /** How many whole frames a batch read takes, and how many bytes of a frame that the stream ends
      inside come behind them: those after its header of 5 bytes, or all there are if not even
      the first header is whole. */
  function CutBytes(stream: seq<byte>, num: nat, room: nat, quiet: nat, done: nat): (r: (nat, nat))
    requires done <= num
    decreases num - done
  {
    if done == num || quiet == 0 then (done, 0)
    else if |stream| < 5 then (done, if done > 0 then 0 else |stream|)
    else if stream[2] < 5 then (done, 0)
    else
      var addrlen := stream[2] - 3;
      var datlen := U16(stream, 0);
      if datlen > Left(room, addrlen) || addrlen + datlen > room then (done, 0)
      else if |stream| < 3 + addrlen + datlen then (done, |stream| - 5)
      else CutBytes(stream[3 + addrlen + datlen..], num, room, quiet - 1, done + 1)
  }

  /** The whole frames are the messages delivered, and the bytes cut off are the code. */
  lemma {:induction false} CutBytesTell(stream: seq<byte>, num: nat, room: nat, quiet: nat, done: nat)
    requires done <= num
    ensures var r := Receive(stream, num, room, quiet, done); var t := CutBytes(stream, num, room, quiet, done);
      t.0 == done + |r.msgs| && if t.1 > 0 then r.code == t.1 && r.rest == [] else r.code <= 0 || r.code == t.0
    decreases num - done
  {
    hide U16, Left;
    if done < num && quiet > 0 && |stream| >= 5 && stream[2] >= 5 {
      var addrlen := stream[2] as int - 3;
      var datlen := U16(stream, 0);
      if datlen <= Left(room, addrlen) && addrlen + datlen <= room && |stream| >= 3 + addrlen + datlen {
        CutBytesTell(stream[3 + addrlen + datlen..], num, room, quiet - 1, done + 1);
      }
    }
  }

  /** When a frame is cut short, the code is a number of bytes; a positive code is the number of
      datagrams just if nothing is cut off, or as many bytes came as there are datagrams. */
  lemma CountIsRight(stream: seq<byte>, num: nat, room: nat, quiet: nat)
    ensures var r := Receive(stream, num, room, quiet, 0); var (whole, cut) := CutBytes(stream, num, room, quiet, 0);
      && whole == |r.msgs|
      && (cut > 0 ==> r.code == cut && r.rest == [])
      && (r.code > 0 ==> (r.code == |r.msgs| <==> cut == 0 || cut == whole))
  {
    hide Receive, CutBytes;
    CutBytesTell(stream, num, room, quiet, 0);
  }

  /** One whole frame and six bytes of a second behind its header: the count is right by chance. */
  lemma CountedByChance(num: nat)
    requires num > 1
    ensures var s := [0, 0, 10, 1, 1, 2, 3, 4, 0, 53] + [0, 9, 10, 1, 1, 1];
      CutBytes(s, num, 1500, 2, 0) == (1, 1) && Receive(s, num, 1500, 2, 0).code == 1
  {
    var s: seq<byte> := [0, 0, 10, 1, 1, 2, 3, 4, 0, 53] + [0, 9, 10, 1, 1, 1];
    var t: seq<byte> := [0, 9, 10, 1, 1, 1];
    assert s[10..] == t;
    assert CutBytes(t, num, 1500, 1, 1) == (1, 1);
    CountIsRight(s, num, 1500, 2);
  }

  /** Two bytes and then the end: the code says two datagrams, and there is none. */
  lemma MiscountedExample(num: nat, room: nat)
    requires num > 0
    ensures Receive([0, 1], num, room, 1, 0) == Received([], 2, [])
    ensures CutBytes([0, 1], num, room, 1, 0) == (0, 2)
  {
  }

  /** A read is told to write past its buffer only if the buffer cannot hold every address. */
  lemma {:induction false} StaysInside(stream: seq<byte>, num: nat, room: nat, quiet: nat, done: nat)
    requires done <= num && 252 <= room < SIZES
    ensures !Receive(stream, num, room, quiet, done).past
    decreases num - done
  {
    hide U16, Left;
    if done < num && quiet > 0 && |stream| >= 5 && stream[2] >= 5 {
      var addrlen := stream[2] as int - 3;
      var datlen := U16(stream, 0);
      LeftInside(room, addrlen);
      if datlen <= room - addrlen && |stream| >= 3 + addrlen + datlen {
        StaysInside(stream[3 + addrlen + datlen..], num, room, quiet - 1, done + 1);
      }
    }
  }

  /** What is left of a buffer, while it is there and when the difference wraps around. */
  lemma LeftInside(room: nat, addrlen: nat)
    requires room < SIZES && addrlen <= 252
    ensures addrlen <= room ==> Left(room, addrlen) == room - addrlen
    ensures addrlen > room ==> Left(room, addrlen) == room - addrlen + SIZES
  {
  }

  /** One frame is told to be written past its buffer just if its address alone is too long. */
  lemma PastIff(stream: seq<byte>, room: nat)
    requires |stream| >= 5 && room < SIZES
    ensures Receive(stream, 1, room, 1, 0).past <==> stream[2] >= 5 && stream[2] as int - 3 > room
  {
    if stream[2] >= 5 {
      LeftInside(room, stream[2] as int - 3);
    }
  }

  // ---------------------------------------------------------------- the stream in place

  /** A connection: what will still come, and how many reads go before one would block. */
  class Channel {
    var stream: seq<byte>
    var patience: nat

    constructor (stream: seq<byte>, patience: nat)
      ensures this.stream == stream && this.patience == patience
    {
      this.stream, this.patience := stream, patience;
    }

    /** Any number of bytes up to `n`, none only at the end. */
    method RecvSome(n: nat, nonblock: bool) returns (again: bool, got: seq<byte>)
      requires n > 0
      modifies this
      ensures again <==> nonblock && old(patience) == 0
      ensures again ==> got == [] && stream == old(stream) && patience == 0
      ensures !again ==> old(stream) == got + stream && |got| <= n && (got == [] ==> old(stream) == [])
      ensures !again ==> patience == if nonblock then old(patience) - 1 else old(patience)
    {
      again, got := nonblock && patience == 0, [];
      if again {
        return;
      }
      if nonblock {
        patience := patience - 1;
      }
      if stream != [] {
        var k :| 1 <= k <= n && k <= |stream|;
        got := stream[..k];
        stream := stream[k..];
      }
    }

    /** All `n` bytes, or what comes before the end. */
    method RecvAll(n: nat) returns (got: seq<byte>)
      modifies `stream
      ensures old(stream) == got + stream && |got| == Min(n, |old(stream)|)
    {
      got := stream[..Min(n, |stream|)];
      stream := stream[Min(n, |stream|)..];
    }

    method Send(data: seq<byte>)
      modifies `stream
      ensures stream == old(stream) + data
    {
      stream := stream + data;
    }
  }

  /** Where a message lies in its buffer: address first, then the data. */
  datatype Slot = Slot(addrLen: nat, len: nat)

  ghost predicate Holds(buf: array<byte>, s: Slot, m: Msg)
    reads buf
  {
    s.addrLen == |m.addr| && s.len == |m.data| && s.addrLen + s.len <= buf.Length
    && buf[..s.addrLen] == m.addr && buf[s.addrLen..s.addrLen + s.len] == m.data
  }

  ghost predicate AllHold(bufs: seq<array<byte>>, slots: seq<Slot>, msgs: seq<Msg>)
    reads bufs
  {
    |slots| == |msgs| <= |bufs| && forall i :: 0 <= i < |msgs| ==> Holds(bufs[i], slots[i], msgs[i])
  }

  ghost predicate Distinct(bufs: seq<array<byte>>) {
    forall i, j :: 0 <= i < j < |bufs| ==> bufs[i] != bufs[j]
  }

  /** The header and the first two bytes of the address; 5 bytes unless the read fails. */
  method ReadHead(ch: Channel, nonblock: bool) returns (again: bool, head: seq<byte>)
    modifies ch
    ensures again <==> nonblock && old(ch.patience) == 0
    ensures again ==> head == [] && ch.stream == old(ch.stream) && ch.patience == 0
    ensures !again ==> old(ch.stream) == head + ch.stream && |head| == Min(5, |old(ch.stream)|)
    ensures !again ==> ch.patience == if nonblock then old(ch.patience) - 1 else old(ch.patience)
  {
    again, head := ch.RecvSome(5, nonblock);
    if 0 < |head| < 5 {
      var more := ch.RecvAll(5 - |head|);
      head := head + more;
    }
  }

  /** The rest of a frame, scattered into a buffer whose first two bytes come from the header. */
  method ReadBody(ch: Channel, buf: array<byte>, head: seq<byte>, addrlen: nat, datlen: nat) returns (got: nat)
    requires |head| == 5 && 2 <= addrlen && addrlen + datlen <= buf.Length
    modifies ch`stream, buf
    ensures got == Min(addrlen - 2 + datlen, |old(ch.stream)|) && ch.stream == old(ch.stream)[got..]
    ensures got == addrlen - 2 + datlen ==>
      buf[..addrlen + datlen] == head[3..] + old(ch.stream)[..got]
  {
    var body := ch.RecvAll(addrlen - 2 + datlen);
    got := |body|;
    forall k | 0 <= k < |body| {
      buf[2 + k] := body[k];
    }
    if got != addrlen - 2 + datlen {
      return;
    }
    buf[0], buf[1] := head[3], head[4];
  }

  lemma Split(head: seq<byte>, body: seq<byte>, addrlen: nat, datlen: nat)
    requires |head| == 5 && addrlen >= 2 && |body| >= addrlen - 2 + datlen
    ensures var s := head + body;
      head[3..] + body[..addrlen - 2 + datlen] == s[3..3 + addrlen] + s[3 + addrlen..3 + addrlen + datlen]
      && body[addrlen - 2 + datlen..] == s[3 + addrlen + datlen..] && U16(s, 0) == U16(head, 0) && s[2] == head[2]
  {
    var s := head + body;
    var a, b := s[3..3 + addrlen], s[3 + addrlen..3 + addrlen + datlen];
    var c, d := head[3..], body[..addrlen - 2 + datlen];
    assert |c + d| == |a + b|;
    assert forall k :: 0 <= k < addrlen ==> (a + b)[k] == s[3 + k] == (c + d)[k];
    assert forall k :: addrlen <= k < addrlen + datlen ==> (a + b)[k] == s[3 + k] == (c + d)[k];
    assert body[addrlen - 2 + datlen..] == s[3 + addrlen + datlen..];
  }

  /** What became of one frame: read, or the code to return, or a read told to write past the
      buffer. */
  datatype Step = Took(slot: Slot) | Stopped(code: int) | GoesPast

  /** What one step of a batch read makes of it. */
  ghost predicate Steps(stream: seq<byte>, num: nat, room: nat, quiet: nat, done: nat, step: Step, m: Msg,
      rest: seq<byte>) {
    done < num &&
    var r := Receive(stream, num, room, quiet, done);
    if step.Stopped? then r == Received([], step.code, rest)
    else if step.GoesPast? then r == Received([], -1, rest, true)
    else
      && quiet > 0
      && var next := Receive(rest, num, room, quiet - 1, done + 1);
      r == next.(msgs := [m] + next.msgs)
  }

  lemma StepsHead(stream: seq<byte>, num: nat, room: nat, quiet: nat, done: nat)
    requires done < num
    ensures quiet == 0 ==> Steps(stream, num, room, quiet, done, Stopped(if done > 0 then done else -1), Msg([], []),
      stream)
    ensures quiet > 0 && |stream| < 5 ==>
      Steps(stream, num, room, quiet, done, Stopped(if done > 0 then done else |stream|), Msg([], []), [])
    ensures quiet > 0 && |stream| >= 5 && (stream[2] < 5 || U16(stream, 0) > Left(room, stream[2] as int - 3)) ==>
      Steps(stream, num, room, quiet, done, Stopped(-1), Msg([], []), stream[5..])
    ensures quiet > 0 && |stream| >= 5 && stream[2] >= 5 && U16(stream, 0) <= Left(room, stream[2] as int - 3) ==>
      stream[2] as int - 3 + U16(stream, 0) > room ==>
      Steps(stream, num, room, quiet, done, GoesPast, Msg([], []), stream[5..])
  {
  }

  lemma StepsBody(stream: seq<byte>, num: nat, room: nat, quiet: nat, done: nat, addrlen: nat, datlen: nat)
    requires done < num && quiet > 0 && |stream| >= 5 && stream[2] >= 5
    requires addrlen == stream[2] - 3 && datlen == U16(stream, 0) <= Left(room, addrlen) && addrlen + datlen <= room
    ensures |stream| < 3 + addrlen + datlen ==>
      Steps(stream, num, room, quiet, done, Stopped(|stream| - 5), Msg([], []), [])
    ensures |stream| >= 3 + addrlen + datlen ==>
      Steps(stream, num, room, quiet, done, Took(Slot(addrlen, datlen)),
        Msg(stream[3..3 + addrlen], stream[3 + addrlen..3 + addrlen + datlen]), stream[3 + addrlen + datlen..])
  {
    hide U16, Left;
  }

  /** One frame into one buffer. */
  method RecvFrame(ch: Channel, buf: array<byte>, nonblock: bool, done: nat, ghost num: nat, ghost quiet: nat)
    returns (step: Step, ghost m: Msg)
    requires buf.Length < SIZES && done < num && (if nonblock then quiet == ch.patience else quiet > 0)
    modifies ch, buf
    ensures step.Took? ==> Holds(buf, step.slot, m)
    ensures Steps(old(ch.stream), num, buf.Length, quiet, done, step, m, ch.stream)
    ensures step.Took? && nonblock ==> ch.patience == old(ch.patience) - 1
  {
    hide Steps, U16, Left;
    m := Msg([], []);
    ghost var stream := ch.stream;
    StepsHead(stream, num, buf.Length, quiet, done);
    var again, head := ReadHead(ch, nonblock);
    if |head| != 5 {
      step := Stopped(if done > 0 then done else if again then -1 else |head|);
      return;
    }
    HeadOf(stream, head, ch.stream);
    if head[2] < 5 {
      step := Stopped(-1);
      return;
    }
    var addrlen: nat := head[2] - 3;
    var datlen := U16(head, 0);
    if datlen > Left(buf.Length, addrlen) {
      step := Stopped(-1);
      return;
    }
    if addrlen + datlen > buf.Length {
      step := GoesPast;
      return;
    }
    StepsBody(stream, num, buf.Length, quiet, done, addrlen, datlen);
    ghost var body := ch.stream;
    var got := ReadBody(ch, buf, head, addrlen, datlen);
    if got != addrlen - 2 + datlen {
      step := Stopped(got);
      return;
    }
    Split(head, body, addrlen, datlen);
    step := Took(Slot(addrlen, datlen));
    m := Msg(stream[3..3 + addrlen], stream[3 + addrlen..3 + addrlen + datlen]);
    InBuffer(buf[..], stream, addrlen, datlen);
  }

  lemma HeadOf(stream: seq<byte>, head: seq<byte>, rest: seq<byte>)
    requires |head| == 5 && stream == head + rest
    ensures stream[5..] == rest && stream[2] == head[2] && U16(stream, 0) == U16(head, 0)
  {
  }

  lemma InBuffer(b: seq<byte>, stream: seq<byte>, addrlen: nat, datlen: nat)
    requires addrlen + datlen <= |b| && 3 + addrlen + datlen <= |stream|
    requires b[..addrlen + datlen] == stream[3..3 + addrlen] + stream[3 + addrlen..3 + addrlen + datlen]
    ensures b[..addrlen] == stream[3..3 + addrlen] &&
      b[addrlen..addrlen + datlen] == stream[3 + addrlen..3 + addrlen + datlen]
  {
    assert b[..addrlen] == b[..addrlen + datlen][..addrlen];
    assert b[addrlen..addrlen + datlen] == b[..addrlen + datlen][addrlen..];
  }

  /** The read has got as far as `msgs`, and goes on with `stream`. */
  ghost predicate Goes(all: seq<byte>, num: nat, room: nat, quiet: nat, msgs: seq<Msg>, stream: seq<byte>) {
    |msgs| <= num && |msgs| <= quiet &&
    var r := Receive(stream, num, room, quiet - |msgs|, |msgs|);
    Receive(all, num, room, quiet, 0) == r.(msgs := msgs + r.msgs)
  }

  lemma GoesOn(all: seq<byte>, num: nat, room: nat, quiet: nat, msgs: seq<Msg>, stream: seq<byte>, step: Step, m: Msg,
      rest: seq<byte>)
    requires Goes(all, num, room, quiet, msgs, stream) &&
      Steps(stream, num, room, quiet - |msgs|, |msgs|, step, m, rest)
    ensures step.Took? ==> |msgs| < quiet && Goes(all, num, room, quiet, msgs + [m], rest)
    ensures step.Stopped? ==> Receive(all, num, room, quiet, 0) == Received(msgs, step.code, rest)
    ensures step.GoesPast? ==> Receive(all, num, room, quiet, 0) == Received(msgs, -1, rest, true)
  {
    hide Receive;
    if step.Took? {
      var next := Receive(rest, num, room, quiet - |msgs| - 1, |msgs| + 1);
      assert msgs + ([m] + next.msgs) == msgs + [m] + next.msgs;
    } else {
      assert msgs + [] == msgs;
    }
  }

  lemma GoesStart(all: seq<byte>, num: nat, room: nat, quiet: nat)
    ensures Goes(all, num, room, quiet, [], all)
  {
    hide Receive;
    assert [] + Receive(all, num, room, quiet, 0).msgs == Receive(all, num, room, quiet, 0).msgs;
  }

  lemma HoldMore(bufs: seq<array<byte>>, slots: seq<Slot>, msgs: seq<Msg>, slot: Slot, m: Msg)
    requires |slots| < |bufs| && AllHold(bufs[..|slots|], slots, msgs) && Holds(bufs[|slots|], slot, m)
    ensures AllHold(bufs[..|slots| + 1], slots + [slot], msgs + [m])
  {
  }

  lemma HoldAll(bufs: seq<array<byte>>, slots: seq<Slot>, msgs: seq<Msg>)
    requires |slots| <= |bufs| && AllHold(bufs[..|slots|], slots, msgs)
    ensures AllHold(bufs, slots, msgs)
  {
  }

  /** `hev_socks5_udp_recvmmsg_tcp`, at most one frame to a buffer of `room` bytes. `past` stands
      for what the source does when it has a read write past a buffer; the method stops there. */
  method RecvTcp(ch: Channel, bufs: seq<array<byte>>, room: nat, nonblock: bool)
    returns (code: int, slots: seq<Slot>, past: bool, ghost msgs: seq<Msg>)
    requires Distinct(bufs) && room < SIZES && forall i :: 0 <= i < |bufs| ==> bufs[i].Length == room
    modifies ch, bufs
    ensures AllHold(bufs, slots, msgs)
    ensures Receive(old(ch.stream), |bufs|, room, if nonblock then old(ch.patience) else |bufs|, 0) ==
      Received(msgs, code, ch.stream, past)
    ensures room >= 252 ==> !past
  {
    hide Receive, Goes, Steps, Holds;
    slots, msgs, past := [], [], false;
    ghost var quiet := if nonblock then ch.patience else |bufs|;
    GoesStart(ch.stream, |bufs|, room, quiet);
    for i := 0 to |bufs|
      invariant |slots| == |msgs| == i && AllHold(bufs[..i], slots, msgs)
      invariant i <= quiet && (if nonblock then ch.patience == quiet - i else quiet == |bufs|)
      invariant Goes(old(ch.stream), |bufs|, room, quiet, msgs, ch.stream)
    {
      ghost var stream := ch.stream;
      var step, m := RecvFrame(ch, bufs[i], nonblock, i, |bufs|, quiet - i);
      GoesOn(old(ch.stream), |bufs|, room, quiet, msgs, stream, step, m, ch.stream);
      if !step.Took? {
        HoldAll(bufs, slots, msgs);
        code, past := if step.Stopped? then step.code else -1, step.GoesPast?;
        Inside(old(ch.stream), |bufs|, room, quiet);
        return;
      }
      HoldMore(bufs, slots, msgs, step.slot, m);
      slots, msgs := slots + [step.slot], msgs + [m];
    }
    code := |bufs|;
    HoldAll(bufs, slots, msgs);
    AllRead(old(ch.stream), |bufs|, room, quiet, msgs, ch.stream);
  }

  lemma Inside(stream: seq<byte>, num: nat, room: nat, quiet: nat)
    requires room < SIZES
    ensures room >= 252 ==> !Receive(stream, num, room, quiet, 0).past
  {
    if room >= 252 {
      StaysInside(stream, num, room, quiet, 0);
    }
  }

  lemma AllRead(all: seq<byte>, num: nat, room: nat, quiet: nat, msgs: seq<Msg>, stream: seq<byte>)
    requires Goes(all, num, room, quiet, msgs, stream) && |msgs| == num
    ensures Receive(all, num, room, quiet, 0) == Received(msgs, num, stream)
  {
    assert Receive(stream, num, room, quiet - num, num) == Received([], num, stream);
    assert msgs + [] == msgs;
  }


  // ---------------------------------------------------------------- sending

  /** An address in memory: of a known type and as long as its type says, or of no known type. */
  predicate InMemory(m: Msg) {
    m.addr != [] && (AddrLen(m.addr, 0).Some? ==> AddrLen(m.addr, 0) == Some(|m.addr|))
  }

  predicate Known(m: Msg)
    requires InMemory(m)
  {
    AddrLen(m.addr, 0).Some?
  }

  lemma FrameIs(m: Msg, head: seq<byte>)
    requires head == Port(|m.data|) + [(3 + |m.addr|) % 256]
    ensures head + m.addr + m.data == Frame(m)
  {
  }

  /** `hev_socks5_udp_sendmmsg_tcp`: nothing is sent unless every address is of a known type. */
  method SendTcp(ch: Channel, msgs: seq<Msg>) returns (code: int)
    requires forall i :: 0 <= i < |msgs| ==> InMemory(msgs[i])
    modifies ch`stream
    ensures code == if msgs != [] && (forall i :: 0 <= i < |msgs| ==> Known(msgs[i])) then |msgs| else -1
    ensures code > 0 ==> ch.stream == old(ch.stream) + Frames(msgs)
    ensures code <= 0 ==> ch.stream == old(ch.stream)
  {
    hide Frame, AddrLen;
    var iov: seq<byte> := [];
    for i := 0 to |msgs|
      invariant ch.stream == old(ch.stream)
      invariant iov == Frames(msgs[..i]) && forall j :: 0 <= j < i ==> Known(msgs[j])
    {
      var m := msgs[i];
      var addrlen := AddrLen(m.addr, 0);
      if addrlen.None? {
        return -1;
      }
      FramesSnoc(msgs, i);
      var head: seq<byte> := Port(|m.data|) + [(3 + addrlen.value) % 256];
      iov := iov + (head + m.addr + m.data);
      FrameIs(m, head);
    }
    assert msgs[..|msgs|] == msgs;
    if msgs == [] {
      return -1;
    }
    ch.Send(iov);
    code := |msgs|;
  }

  lemma Unroll(ms: seq<Msg>)
    requires ms != []
    ensures Frames(ms) == Frame(ms[0]) + Frames(ms[1..])
  {
  }

  lemma Assoc(a: seq<byte>, b: seq<byte>, c: seq<byte>)
    ensures a + b + c == a + (b + c)
  {
  }

  lemma {:induction false} FramesConcat(a: seq<Msg>, b: seq<Msg>)
    ensures Frames(a + b) == Frames(a) + Frames(b)
  {
    if a == [] {
      assert a + b == b;
    } else {
      hide Frame, Frames;
      Unroll(a);
      Unroll(a + b);
      FramesConcat(a[1..], b);
      assert (a + b)[1..] == a[1..] + b;
      Assoc(Frame(a[0]), Frames(a[1..]), Frames(b));
    }
  }

  lemma FramesSnoc(ms: seq<Msg>, i: nat)
    requires i < |ms|
    ensures Frames(ms[..i + 1]) == Frames(ms[..i]) + Frame(ms[i])
  {
    FramesConcat(ms[..i], [ms[i]]);
    assert ms[..i + 1] == ms[..i] + [ms[i]] && [ms[i]][1..] == [];
    assert Frames([ms[i]]) == Frame(ms[i]) + [];
  }

  // ---------------------------------------------------------------- a datagram each

  /** What is sent in UDP mode: three zero bytes, the address, the data. */
  function Wrapped(m: Msg): seq<byte> {
    [0, 0, 0] + m.addr + m.data
  }

  /** What a received datagram is: too short to hold an address, malformed, or a message. */
  datatype Datagram = Short | Malformed | Carries(m: Msg)

  function Unwrap(d: seq<byte>): Datagram {
    if |d| < 4 then Short
    else
      var addrlen := AddrLen(d[3..], 0);
      if addrlen.None? || 3 + addrlen.value > |d| then Malformed
      else Carries(Msg(d[3..3 + addrlen.value], d[3 + addrlen.value..]))
  }

  /** A datagram carries a message just if it is that message wrapped, its first three bytes
      being free. */
  lemma UnwrapIffWrapped(d: seq<byte>, m: Msg)
    ensures Unwrap(d) == Carries(m) <==>
      |d| >= 3 && d == d[..3] + m.addr + m.data && m.addr != [] && AddrLen(m.addr, 0) == Some(|m.addr|)
  {
    if Unwrap(d) == Carries(m) {
      assert d == d[..3] + d[3..3 + |m.addr|] + d[3 + |m.addr|..];
    }
    if |d| >= 3 && d == d[..3] + m.addr + m.data && m.addr != [] && AddrLen(m.addr, 0) == Some(|m.addr|) {
      Parts(d[..3], m.addr, m.data);
      assert AddrLen(d[3..], 0) == AddrLen(m.addr, 0);
    }
  }

  lemma Parts(a: seq<byte>, b: seq<byte>, c: seq<byte>)
    ensures var d := a + b + c;
      d[|a|..] == b + c && d[|a|..|a| + |b|] == b && d[|a| + |b|..] == c
  {
  }

  /** The byte past the end of a four-byte datagram that the length of a name is read from does
      not matter. */
  lemma StaleDoesNotMatter(d: seq<byte>, stale: byte)
    requires |d| >= 4
    ensures var n := AddrLen(d[3..], stale);
      (n.None? || 3 + n.value > |d|) <==> Unwrap(d) == Malformed
    ensures Unwrap(d) != Malformed ==> AddrLen(d[3..], stale) == AddrLen(d[3..], 0)
  {
  }

  /** `hev_socks5_udp_sendmmsg_udp` */
  method SendUdp(msgs: seq<Msg>) returns (out: Option<seq<seq<byte>>>)
    requires forall i :: 0 <= i < |msgs| ==> InMemory(msgs[i])
    ensures out.Some? <==> forall i :: 0 <= i < |msgs| ==> Known(msgs[i])
    ensures out.Some? ==> |out.value| == |msgs| && forall i :: 0 <= i < |msgs| ==> out.value[i] == Wrapped(msgs[i])
  {
    var vec := [];
    for i := 0 to |msgs|
      invariant |vec| == i && forall j :: 0 <= j < i ==> Known(msgs[j]) && vec[j] == Wrapped(msgs[j])
    {
      var m := msgs[i];
      if AddrLen(m.addr, 0).None? {
        return None;
      }
      vec := vec + [[0, 0, 0] + m.addr + m.data];
    }
    out := Some(vec);
  }

  /** The kernel's part: a datagram copied into a buffer, cut to its length. */
  method Deliver(d: seq<byte>, buf: array<byte>) returns (len: nat)
    modifies buf
    ensures len == Min(|d|, buf.Length) && buf[..len] == d[..len]
    ensures buf[len..] == old(buf[len..])
  {
    len := Min(|d|, buf.Length);
    forall k | 0 <= k < len {
      buf[k] := d[k];
    }
  }

  /** Address at offset 3 of the buffer, data behind it; None for a message without address. */
  ghost predicate Unwrapped(buf: array<byte>, s: Option<Slot>, d: seq<byte>)
    reads buf
  {
    match s
    case None => Unwrap(d) == Short
    case Some(t) =>
      && 3 + t.addrLen + t.len <= buf.Length
      && Unwrap(d) == Carries(Msg(buf[3..3 + t.addrLen], buf[3 + t.addrLen..3 + t.addrLen + t.len]))
  }

  /** `hev_socks5_udp_recvmmsg_udp`, of the datagrams in `inbox`; -1 if one is malformed. */
  method RecvUdp(inbox: seq<seq<byte>>, bufs: seq<array<byte>>) returns (code: int, slots: seq<Option<Slot>>)
    requires Distinct(bufs) && 0 < |inbox| <= |bufs| && forall i :: 0 <= i < |bufs| ==> bufs[i].Length >= 5
    modifies bufs
    ensures code == |inbox| || code == -1
    ensures code == -1 <==> exists i ::
      0 <= i < |inbox| && Unwrap(inbox[i][..Min(|inbox[i]|, bufs[i].Length)]) == Malformed
    ensures code != -1 ==> |slots| == |inbox|
    ensures code != -1 ==> forall i :: 0 <= i < |inbox| ==>
      Unwrapped(bufs[i], slots[i], inbox[i][..Min(|inbox[i]|, bufs[i].Length)])
  {
    slots := [];
    for i := 0 to |inbox|
      invariant |slots| == i
      invariant forall j :: 0 <= j < i ==> Unwrap(inbox[j][..Min(|inbox[j]|, bufs[j].Length)]) != Malformed
      invariant forall j :: 0 <= j < i ==> Unwrapped(bufs[j], slots[j], inbox[j][..Min(|inbox[j]|, bufs[j].Length)])
    {
      var ok, slot := RecvOne(inbox[i], bufs[i]);
      if !ok {
        return -1, slots;
      }
      slots := slots + [slot];
    }
    code := |inbox|;
  }

  lemma Within(b: seq<byte>, i: nat, j: nat, n: nat)
    requires i <= j <= n <= |b|
    ensures b[..n][i..j] == b[i..j] && b[..n][j..] == b[j..n]
  {
    var c := b[..n];
    assert forall k :: 0 <= k < j - i ==> c[i..j][k] == c[i + k] == b[i..j][k];
    assert forall k :: 0 <= k < n - j ==> c[j..][k] == c[j + k] == b[j..n][k];
  }

  method RecvOne(d: seq<byte>, buf: array<byte>) returns (ok: bool, slot: Option<Slot>)
    requires buf.Length >= 5
    modifies buf
    ensures ok <==> Unwrap(d[..Min(|d|, buf.Length)]) != Malformed
    ensures ok ==> Unwrapped(buf, slot, d[..Min(|d|, buf.Length)])
  {
    var len := Deliver(d, buf);
    if len < 4 {
      return true, None;
    }
    ghost var stale := buf[4];
    var addrlen := AddrLen([buf[3]], buf[4]);
    assert addrlen == AddrLen(d[..len][3..], stale) by {
      assert d[..len][3..][0] == buf[..len][3] == buf[3];
      assert len > 4 ==> d[..len][3..][1] == buf[..len][4] == buf[4];
    }
    StaleDoesNotMatter(d[..len], stale);
    if addrlen.None? || 3 + addrlen.value > len {
      return false, None;
    }
    var doff := 3 + addrlen.value;
    slot := Some(Slot(addrlen.value, len - doff));
    Within(buf[..], 3, doff, len);
    ok := true;
  }
}
