/** The in-process outbox: sequence stamping, a capped replay buffer, cumulative acknowledgements.
    The daemon's `Outbox` and the hub core's `Outbox` have the same fields and the same shared
    operations; the class below carries the operations of both. Only the hub form validates
    acknowledgements. */
module Outbox {
  import opened Numbered

  /** An envelope as it is put on the wire; its encoding is taken to be faithful. */
  datatype Envelope = Envelope(num: nat, ack: nat, payload: string)

  type Frame = Entry<Envelope>

  datatype Box = Box(nextSeq: nat, peerAck: nat, localAck: nat, buffer: seq<Frame>, maxBuffer: nat)

  function Fresh(maxBuffer: nat): Box { Box(1, 0, 0, [], maxBuffer) }

  /** The frame that the next stamp-and-store produces. */
  function NextFrame(b: Box, payload: string): Frame {
    Entry(b.nextSeq, Envelope(b.nextSeq, b.localAck, payload))
  }

  function Prepared(b: Box, payload: string): Box {
    b.(nextSeq := b.nextSeq + 1, buffer := Newest(b.buffer + [NextFrame(b, payload)], b.maxBuffer))
  }

  function Received(b: Box, num: nat): Box { b.(localAck := Max(b.localAck, num)) }

  function Acked(b: Box, ack: nat): Box {
    var p := Max(b.peerAck, ack);
    b.(peerAck := p, buffer := Trim(b.buffer, p))
  }

  class Outbox {
    var nextSeq: nat
    var peerAck: nat
    var localAck: nat
    var buffer: seq<Frame>
    const maxBuffer: nat

    ghost function Model(): Box
      reads this
    {
      Box(nextSeq, peerAck, localAck, buffer, maxBuffer)
    }

    constructor (maxBuffer: nat)
      ensures Model() == Fresh(maxBuffer)
    {
      nextSeq, peerAck, localAck, buffer := 1, 0, 0, [];
      this.maxBuffer := maxBuffer;
    }

    method ReserveSeq() returns (num: nat)
      modifies this`nextSeq
      ensures num == old(nextSeq) && nextSeq == num + 1
    {
      num := nextSeq;
      nextSeq := nextSeq + 1;
    }

    method Stamp(payload: string) returns (envelope: Envelope)
      modifies this`nextSeq
      ensures envelope == NextFrame(old(Model()), payload).item == Envelope(old(nextSeq), localAck, payload)
      ensures nextSeq == old(nextSeq) + 1
    {
      var num := ReserveSeq();
      envelope := Envelope(num, localAck, payload);
    }

    method Store(num: nat, data: Envelope)
      modifies this`buffer
      ensures buffer == Newest(old(buffer) + [Entry(num, data)], maxBuffer)
    {
      buffer := buffer + [Entry(num, data)];
      ghost var full := buffer;
      while |buffer| > maxBuffer
        invariant |buffer| <= |full| && buffer == full[|full| - |buffer|..]
        invariant |buffer| >= maxBuffer || buffer == full
        decreases |buffer|
      {
        buffer := buffer[1..];
      }
    }

    method PrepareOutbound(payload: string) returns (data: Envelope)
      modifies this
      ensures Model() == Prepared(old(Model()), payload)
      ensures data == NextFrame(old(Model()), payload).item == Envelope(old(nextSeq), localAck, payload)
    {
      data := Stamp(payload);
      Store(data.num, data);
    }

    method OnRecv(num: nat)
      modifies this`localAck
      ensures Model() == Received(old(Model()), num)
      ensures localAck >= old(localAck) && localAck >= num && localAck in {old(localAck), num}
    {
      if num > localAck { localAck := num; }
    }

    method OnPeerAck(ack: nat)
      modifies this`peerAck, this`buffer
      ensures Model() == Acked(old(Model()), ack)
    {
      if ack > peerAck { peerAck := ack; }
      ghost var full := buffer;
      while buffer != [] && buffer[0].num <= peerAck
        invariant peerAck == Max(old(peerAck), ack)
        invariant Trim(buffer, peerAck) == Trim(full, peerAck)
        decreases |buffer|
      {
        buffer := buffer[1..];
      }
    }

    /** The hub form: an acknowledgement of something never issued is refused. */
    method TryOnPeerAck(ack: nat) returns (ok: bool)
      requires nextSeq >= 1
      modifies this`peerAck, this`buffer
      ensures ok == (ack <= old(nextSeq) - 1)
      ensures Model() == if ok then Acked(old(Model()), ack) else old(Model())
    {
      if ack > nextSeq - 1 { return false; }
      OnPeerAck(ack);
      ok := true;
    }

    method DrainUnacked() returns (frames: seq<Envelope>)
      ensures frames == Items(buffer)
    {
      frames := [];
      for i := 0 to |buffer|
        invariant frames == Items(buffer)[..i]
      {
        frames := frames + [buffer[i].item];
      }
    }

    method ReplayFrom(lastAck: nat) returns (frames: seq<Envelope>)
      ensures frames == Items(Above(buffer, lastAck))
    {
      frames := [];
      for i := 0 to |buffer|
        invariant frames == Items(Above(buffer[..i], lastAck))
      {
        assert buffer[..i + 1] == buffer[..i] + [buffer[i]];
        AboveConcat(buffer[..i], [buffer[i]], lastAck);
        if buffer[i].num > lastAck { frames := frames + [buffer[i].item]; }
      }
      assert buffer[..|buffer|] == buffer;
    }
  }

  // ---- Runs: the outbox beside the full history of everything ever stored ----

  datatype Op = Send(payload: string) | Recv(num: nat) | Ack(ack: nat)

  datatype History = History(box: Box, stored: seq<Frame>)

  function Apply(h: History, op: Op): History {
    match op
    case Send(payload) => History(Prepared(h.box, payload), h.stored + [NextFrame(h.box, payload)])
    case Recv(num) => h.(box := Received(h.box, num))
    case Ack(ack) => h.(box := Acked(h.box, ack))
  }

  function ApplyAll(h: History, ops: seq<Op>): History
    decreases |ops|
  {
    if ops == [] then h else ApplyAll(Apply(h, ops[0]), ops[1..])
  }

  /** The hub form of a run: acknowledgements go through the validating entry point. */
  function ApplyValidated(h: History, ops: seq<Op>): History
    decreases |ops|
  {
    if ops == [] then h
    else if ops[0].Ack? && ops[0].ack >= h.box.nextSeq then ApplyValidated(h, ops[1..])
    else ApplyValidated(Apply(h, ops[0]), ops[1..])
  }

  /** The largest number received in a run, and how many frames it sent. */
  function Largest(ops: seq<Op>): nat {
    if ops == [] then 0 else Max(if ops[0].Recv? then ops[0].num else 0, Largest(ops[1..]))
  }

  function Sends(ops: seq<Op>): nat {
    if ops == [] then 0 else (if ops[0].Send? then 1 else 0) + Sends(ops[1..])
  }

  lemma {:induction false} RunCounts(h: History, ops: seq<Op>)
    ensures var box := ApplyAll(h, ops).box;
            box.localAck == Max(h.box.localAck, Largest(ops)) && box.nextSeq == h.box.nextSeq + Sends(ops)
            && box.maxBuffer == h.box.maxBuffer
    decreases |ops|
  {
    if ops == [] {
    } else {
      RunCounts(Apply(h, ops[0]), ops[1..]);
    }
  }

  lemma {:induction false} ValidatedRunCounts(h: History, ops: seq<Op>)
    ensures var box := ApplyValidated(h, ops).box;
            box.localAck == Max(h.box.localAck, Largest(ops)) && box.nextSeq == h.box.nextSeq + Sends(ops)
            && box.maxBuffer == h.box.maxBuffer
    decreases |ops|
  {
    if ops == [] {
    } else if ops[0].Ack? && ops[0].ack >= h.box.nextSeq {
      ValidatedRunCounts(h, ops[1..]);
    } else {
      ValidatedRunCounts(Apply(h, ops[0]), ops[1..]);
    }
  }

  /** What is stored, and buffered last, is a frame numbered after the frames sent before it that carries the
      payload and acknowledges the largest number received so far. */
  ghost predicate Stamps(h: History, ops: seq<Op>, payload: string) {
    var num := Sends(ops) + 1;
    var frame := Entry(num, Envelope(num, Largest(ops), payload));
    var after := Apply(h, Send(payload));
    && after.stored == h.stored + [frame]
    && (h.box.maxBuffer > 0 ==> after.box.buffer != [] && after.box.buffer[|after.box.buffer| - 1] == frame)
  }

  /** Whatever was sent, received and acknowledged before, in either form of the outbox. */
  lemma SendAcknowledgesLargestReceived(maxBuffer: nat, ops: seq<Op>, payload: string)
    ensures Stamps(ApplyAll(History(Fresh(maxBuffer), []), ops), ops, payload)
    ensures Stamps(ApplyValidated(History(Fresh(maxBuffer), []), ops), ops, payload)
  {
    RunCounts(History(Fresh(maxBuffer), []), ops);
    ValidatedRunCounts(History(Fresh(maxBuffer), []), ops);
  }

  /** Every acknowledgement of the run names something already issued. */
  ghost predicate ValidAcks(h: History, ops: seq<Op>)
    decreases |ops|
  {
    ops == [] ||
    ((ops[0].Ack? ==> ops[0].ack < h.box.nextSeq) && ValidAcks(Apply(h, ops[0]), ops[1..]))
  }

  /** The reference meaning of the buffer, computed from the whole history. */
  ghost predicate BufferIsNewestUnacked(h: History) {
    h.box.buffer == Newest(Above(h.stored, h.box.peerAck), h.box.maxBuffer)
  }

  ghost predicate WellNumbered(h: History) {
    && Ascending(h.stored)
    && (forall f | f in h.stored :: f.num < h.box.nextSeq)
    && h.box.peerAck < h.box.nextSeq
  }

  lemma SendKeeps(h: History, payload: string)
    requires WellNumbered(h) && BufferIsNewestUnacked(h)
    ensures WellNumbered(Apply(h, Send(payload))) && BufferIsNewestUnacked(Apply(h, Send(payload)))
  {
    var f := NextFrame(h.box, payload);
    AboveConcat(h.stored, [f], h.box.peerAck);
    assert Above([f], h.box.peerAck) == [f];
  }

  lemma AckKeeps(h: History, ack: nat)
    requires WellNumbered(h) && BufferIsNewestUnacked(h)
    ensures BufferIsNewestUnacked(Apply(h, Ack(ack)))
  {
    var p := Max(h.box.peerAck, ack);
    var unacked := Above(h.stored, h.box.peerAck);
    AboveTwice(h.stored, h.box.peerAck, p);
    var k := AboveIsSuffix(h.stored, h.box.peerAck);
    TrimIsAbove(h.box.buffer, p);
    AboveNewest(unacked, p, h.box.maxBuffer);
  }

  /** Trimming the newest `k` is the newest `k` of the trimmed log. */
  lemma AboveNewest(es: seq<Frame>, p: nat, k: nat)
    requires Ascending(es)
    ensures Above(Newest(es, k), p) == Newest(Above(es, p), k)
  {
    var j := AboveIsSuffix(es, p);
    if |es| > k {
      var cut := |es| - k;
      assert es == es[..cut] + es[cut..];
      AboveConcat(es[..cut], es[cut..], p);
      if j < cut {
        AboveAll(es[cut..], p);
        assert es[j..][|es| - j - k..] == es[cut..];
      } else {
        AboveNone(es[..cut], p);
      }
    }
  }

  lemma {:induction false} RunKeeps(h: History, ops: seq<Op>)
    requires WellNumbered(h) && BufferIsNewestUnacked(h) && ValidAcks(h, ops)
    ensures WellNumbered(ApplyAll(h, ops)) == WellNumbered(h) && BufferIsNewestUnacked(ApplyAll(h, ops))
    decreases |ops|
  {
    if ops == [] {
    } else {
      match ops[0] {
        case Send(payload) => SendKeeps(h, payload);
        case Recv(_) =>
        case Ack(ack) => AckKeeps(h, ack);
      }
      RunKeeps(Apply(h, ops[0]), ops[1..]);
    }
  }

  /** After every run with valid acknowledgements the buffer is the newest `maxBuffer` unacknowledged
      frames of the whole history. */
  lemma BufferAgreesWithHistory(maxBuffer: nat, ops: seq<Op>)
    requires ValidAcks(History(Fresh(maxBuffer), []), ops)
    ensures BufferIsNewestUnacked(ApplyAll(History(Fresh(maxBuffer), []), ops))
  {
    RunKeeps(History(Fresh(maxBuffer), []), ops);
  }

  /** The hub form needs no hypothesis: validation makes every run valid. */
  lemma {:induction false} ValidatedRunKeeps(h: History, ops: seq<Op>)
    requires WellNumbered(h) && BufferIsNewestUnacked(h)
    ensures WellNumbered(ApplyValidated(h, ops)) == WellNumbered(h) && BufferIsNewestUnacked(ApplyValidated(h, ops))
    decreases |ops|
  {
    if ops == [] {
    } else {
      if ops[0].Ack? && ops[0].ack >= h.box.nextSeq {
        ValidatedRunKeeps(h, ops[1..]);
      } else {
        RunKeeps(h, [ops[0]]);
        assert ApplyAll(h, [ops[0]]) == Apply(h, ops[0]);
        ValidatedRunKeeps(Apply(h, ops[0]), ops[1..]);
      }
    }
  }

  lemma ValidatedBufferAgreesWithHistory(maxBuffer: nat, ops: seq<Op>)
    ensures BufferIsNewestUnacked(ApplyValidated(History(Fresh(maxBuffer), []), ops))
  {
    ValidatedRunKeeps(History(Fresh(maxBuffer), []), ops);
  }

  /** The daemon does not validate. An acknowledgement is harmless for the next frame exactly when it
      names something already issued; otherwise the next frame is buffered below the watermark. */
  lemma UnvalidatedAckExact(h: History, ack: nat, payload: string)
    requires WellNumbered(h) && BufferIsNewestUnacked(h) && h.box.maxBuffer > 0
    ensures BufferIsNewestUnacked(Apply(Apply(h, Ack(ack)), Send(payload))) <==> ack < h.box.nextSeq
  {
    var h1 := Apply(h, Ack(ack));
    var h2 := Apply(h1, Send(payload));
    AckKeeps(h, ack);
    if ack < h.box.nextSeq {
      SendKeeps(h1, payload);
    } else {
      AboveNone(h2.stored, h2.box.peerAck);
      assert |h2.box.buffer| > 0;
    }
  }

  /** After `n` operations of the run, the buffer agrees with the history once one more frame is sent. */
  ghost predicate AgreesAfter(h: History, ops: seq<Op>, n: nat)
    requires n <= |ops|
  {
    BufferIsNewestUnacked(Apply(ApplyAll(h, ops[..n]), Send("")))
  }

  lemma {:induction false} AgreesExactly(h: History, ops: seq<Op>)
    requires WellNumbered(h) && BufferIsNewestUnacked(h) && h.box.maxBuffer > 0
    ensures ValidAcks(h, ops) <==> forall n: nat | n <= |ops| :: AgreesAfter(h, ops, n)
    decreases |ops|
  {
    SendKeeps(h, "");
    assert ops[..0] == [];
    if ops == [] {
    } else {
      var h1, rest := Apply(h, ops[0]), ops[1..];
      forall n: nat | 0 < n <= |ops| ensures AgreesAfter(h, ops, n) == AgreesAfter(h1, rest, n - 1) {
        assert ops[..n][0] == ops[0] && ops[..n][1..] == rest[..n - 1];
      }
      if ops[0].Ack? && ops[0].ack >= h.box.nextSeq {
        UnvalidatedAckExact(h, ops[0].ack, "");
        assert rest[..0] == [];
        assert !AgreesAfter(h1, rest, 0);
        assert !AgreesAfter(h, ops, 1);
      } else {
        RunKeeps(h, [ops[0]]);
        assert ApplyAll(h, [ops[0]]) == h1;
        AgreesExactly(h1, rest);
        if m: nat :| m <= |rest| && !AgreesAfter(h1, rest, m) { assert !AgreesAfter(h, ops, m + 1); }
      }
    }
  }

  /** For the daemon, which takes any acknowledgement: all along a run the buffer keeps agreeing with the
      history if and only if every acknowledgement of the run names something issued by then. */
  lemma DaemonAgreesExactlyOnValidAcks(maxBuffer: nat, ops: seq<Op>)
    requires maxBuffer > 0
    ensures var h := History(Fresh(maxBuffer), []);
            ValidAcks(h, ops) <==> forall n: nat | n <= |ops| :: AgreesAfter(h, ops, n)
  {
    AgreesExactly(History(Fresh(maxBuffer), []), ops);
  }

  /** Such a frame is then dropped by the next acknowledgement, even one that says nothing. */
  lemma OverAckDropsNextFrame(h: History, ack: nat, payload: string)
    requires WellNumbered(h) && BufferIsNewestUnacked(h) && ack >= h.box.nextSeq
    ensures Apply(Apply(Apply(h, Ack(ack)), Send(payload)), Ack(0)).box.buffer == []
  {
    var h1 := Apply(h, Ack(ack));
    AckKeeps(h, ack);
    AboveNone(h.stored, h1.box.peerAck);
    var f := NextFrame(h1.box, payload);
    assert h1.box.buffer + [f] == [f] && [f][1..] == [];
    assert Trim([f], h1.box.peerAck) == Trim([f][1..], h1.box.peerAck);
  }

  /** Replay after reconnect is the newest `maxBuffer` of what filtering the full history gives. */
  lemma ReplayAgreesWithHistory(h: History, lastAck: nat)
    requires WellNumbered(h) && BufferIsNewestUnacked(h)
    ensures Above(h.box.buffer, lastAck) == Newest(Above(h.stored, Max(h.box.peerAck, lastAck)), h.box.maxBuffer)
  {
    var k := AboveIsSuffix(h.stored, h.box.peerAck);
    AboveNewest(Above(h.stored, h.box.peerAck), lastAck, h.box.maxBuffer);
    AboveTwice(h.stored, h.box.peerAck, lastAck);
  }
}
