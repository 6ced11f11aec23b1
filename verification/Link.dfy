/** The reliable-delivery protocol between the two outbox ends, over a link that can be cut at any
    moment. A frame is stamped and stored under the sender's lock, and pushed into the connection
    afterwards, outside the lock, by a sender handle that belongs to one connection. The receiver
    acknowledges cumulatively by the largest number it saw; the sender trims its buffer on that word.

    Both directions are covered. Daemon to hub: the hub remembers the largest number per connection,
    starts over at every connection and drops what is not above it; a receive loop that was superseded
    may still hold one frame, and handles it against the watermark of the connection then active. Hub
    to daemon: the daemon keeps the largest number for good, handles every frame, and announces it in
    its Hello, on which the hub trims before it replays. */
module Link {
  import opened Numbered

  datatype Direction = DeviceToHub | HubToDevice

  /** A frame is named by its sequence number; its content never changes once it is stamped. */
  type Frame = nat

  datatype State = State(
    dir: Direction,
    // sender
    nextSeq: nat, peerAck: nat, buffer: seq<Frame>,
    // frames that their sending thread has not pushed yet, with the connection of its handle
    inHand: map<Frame, nat>,
    // link: `conn` counts the connections opened, `up` says whether the last one still stands
    conn: nat, up: bool, wire: seq<Frame>, acks: seq<nat>,
    // receiver: the largest number seen, every value that watermark ever had, and what superseded
    // receive loops still hold
    lastIn: nat, seen: set<nat>, late: set<Frame>,
    // history: everything stored; entered into the current connection; handled by the receiver;
    // pushed out of the buffer by the length cap
    stored: set<Frame>, entered: set<Frame>, processed: set<Frame>, evicted: set<Frame>,
    // history: what the receiver handled since the last connect, in order
    handled: seq<Frame>)

  function Init(dir: Direction): State {
    State(dir, 1, 0, [], map[], 0, false, [], [], 0, {0}, {}, {}, {}, {}, {}, [])
  }

  datatype Event =
    | Stamp(handle: nat)                   // stamp and store, by a handle of connection `handle`
    | Skip                                 // a hub reservation that is never appended
    | Push(frame: Frame)                   // the thread holding the frame pushes it
    | Evict                                // the length cap drops the oldest buffered frame
    | Connect
    | Disconnect
    | Supersede                            // the link is cut while the hub's receive loop holds a frame
    | LateHandle(frame: Frame)             // that loop goes on with it
    | Deliver                              // the receiver takes the next frame off the wire
    | AckSend(ack: nat)                    // the receiver sends a current or a stale watermark
    | AckRecv                              // the sender takes the next acknowledgement

  /** What the acknowledgement loop leaves of a buffer. */
  function Unacked(es: seq<Frame>, n: nat): seq<Frame> {
    if es != [] && es[0] <= n then Unacked(es[1..], n) else es
  }

  ghost predicate Ascending(es: seq<Frame>) {
    forall i, j | 0 <= i < j < |es| :: es[i] < es[j]
  }

  lemma {:induction false} UnackedFacts(es: seq<Frame>, n: nat)
    requires Ascending(es)
    ensures Ascending(Unacked(es, n))
    ensures forall f :: f in Unacked(es, n) <==> f in es && f > n
  {
    if es != [] && es[0] <= n {
      UnackedFacts(es[1..], n);
      assert es == [es[0]] + es[1..];
    }
  }

  ghost function Elements(es: seq<Frame>): set<Frame> { set f | f in es }

  /** Hub sends are fenced: only the session of the last connection can append. */
  ghost predicate CanStamp(s: State, handle: nat) {
    1 <= handle <= s.conn && (s.dir.HubToDevice? ==> handle == s.conn)
  }

  ghost predicate Live(s: State, f: Frame) {
    f in s.inHand && s.up && s.inHand[f] == s.conn
  }

  ghost function Take(s: State, ack: nat): State {
    if s.dir.HubToDevice? && ack >= s.nextSeq then s
    else
      var p := Max(s.peerAck, ack);
      s.(peerAck := p, buffer := Unacked(s.buffer, p))
  }

  /** The hub's part of handling a frame: drop what is not above the watermark of the active connection. */
  ghost function Accept(s: State, f: Frame): State {
    var s1 := if f > s.lastIn then s.(processed := s.processed + {f}, lastIn := f, handled := s.handled + [f]) else s;
    s1.(seen := s.seen + {s1.lastIn})
  }

  ghost function Handle(s: State, f: Frame): State {
    match s.dir
    case DeviceToHub => Accept(s, f).(acks := s.acks + [f])
    case HubToDevice =>
      var m := Max(s.lastIn, f);
      s.(processed := s.processed + {f}, lastIn := m, seen := s.seen + {m}, handled := s.handled + [f])
  }

  ghost function Reconnect(s: State): State {
    var t := if s.dir.HubToDevice? then Take(s, s.lastIn) else s.(lastIn := 0);
    t.(conn := s.conn + 1, up := true, wire := t.buffer, acks := [], entered := Elements(t.buffer), handled := [])
  }

  /** One atomic step. An event that is not possible in a state leaves it unchanged. */
  ghost function Next(s: State, e: Event): State {
    match e
    case Stamp(handle) =>
      if !CanStamp(s, handle) then s else
      var f := s.nextSeq;
      s.(nextSeq := f + 1, buffer := s.buffer + [f], stored := s.stored + {f},
         inHand := s.inHand[f := handle])
    case Skip =>
      if s.dir.HubToDevice? then s.(nextSeq := s.nextSeq + 1) else s
    case Push(f) =>
      if f !in s.inHand then s else
      var t := s.(inHand := s.inHand - {f});
      if Live(s, f) then t.(wire := s.wire + [f], entered := s.entered + {f}) else t
    case Evict =>
      if s.buffer == [] then s
      else s.(buffer := s.buffer[1..], evicted := s.evicted + {s.buffer[0]})
    case Connect => if s.up then s else Reconnect(s)
    case Disconnect => s.(up := false, wire := [], acks := [])
    case Supersede =>
      if s.dir.HubToDevice? || s.wire == [] then s
      else s.(up := false, wire := [], acks := [], late := s.late + {s.wire[0]})
    case LateHandle(f) => if f in s.late then Accept(s, f).(late := s.late - {f}) else s
    case Deliver =>
      if !s.up || s.wire == [] then s else Handle(s, s.wire[0]).(wire := s.wire[1..])
    case AckSend(ack) =>
      if s.up && ack in s.seen then s.(acks := s.acks + [ack]) else s
    case AckRecv =>
      if !s.up || s.acks == [] then s else Take(s, s.acks[0]).(acks := s.acks[1..])
  }

  ghost function Run(s: State, es: seq<Event>): State
    decreases |es|
  {
    if es == [] then s else Run(Next(s, es[0]), es[1..])
  }

  lemma {:induction false} RunConcat(s: State, a: seq<Event>, b: seq<Event>)
    ensures Run(s, a + b) == Run(Run(s, a), b)
    decreases |a|
  {
    if a == [] {
      assert a + b == b;
    } else {
      assert (a + b)[0] == a[0] && (a + b)[1..] == a[1..] + b;
      RunConcat(Next(s, a[0]), a[1..], b);
    }
  }

  /** Frames enter the connection in order: when `f` is pushed into the live connection, everything
      still buffered below it is already there. */
  ghost predicate InOrder(s: State, f: Frame) {
    Live(s, f) ==> forall g | g in s.buffer && g < f :: g in s.entered
  }

  ghost predicate InOrderRun(s: State, es: seq<Event>)
    decreases |es|
  {
    es == [] || ((es[0].Push? ==> InOrder(s, es[0].frame)) && InOrderRun(Next(s, es[0]), es[1..]))
  }

  /** Every stored frame was handled by the receiver, is still buffered for replay, or fell to the cap. */
  ghost predicate NothingLost(s: State) {
    forall f | f in s.stored :: f in s.processed || f in s.buffer || f in s.evicted
  }

  // ---- What holds in every run, ordered or not ----

  ghost predicate Numbering(s: State) {
    && s.nextSeq >= 1 && s.peerAck < s.nextSeq && s.lastIn < s.nextSeq
    && (forall f | f in s.stored :: 1 <= f < s.nextSeq)
    && (forall a | a in s.acks :: a < s.nextSeq)
    && (forall a | a in s.seen :: a < s.nextSeq) && 0 in s.seen && s.lastIn in s.seen
  }

  ghost predicate Containment(s: State) {
    && Ascending(s.buffer)
    && (forall f | f in s.buffer :: f in s.stored && f > s.peerAck)
    && (forall f | f in s.stored :: f in s.buffer || f <= s.peerAck || f in s.evicted)
    && (forall f | f in s.wire :: f in s.entered)
    && s.processed <= s.stored && s.entered <= s.stored
    && (forall f | f in s.inHand :: f in s.stored && s.inHand[f] <= s.conn)
    && (!s.up ==> s.wire == [] && s.acks == [])
    && s.late <= s.stored
  }

  /** A buffered frame that never entered the current connection has never been handled at all. */
  ghost predicate FreshOutside(s: State) {
    && (s.up ==> forall f | f in s.buffer && (f in s.processed || f in s.late) :: f in s.entered)
    && (forall f | f in s.evicted :: f in s.stored && f !in s.buffer)
  }

  ghost predicate Base(s: State) { Numbering(s) && Containment(s) && FreshOutside(s) }

  lemma TakeKeeps(s: State, ack: nat)
    requires Base(s) && ack < s.nextSeq
    ensures Base(Take(s, ack)) == Base(s)
    ensures Take(s, ack) == s.(peerAck := Max(s.peerAck, ack), buffer := Take(s, ack).buffer)
    ensures forall f :: f in Take(s, ack).buffer <==> f in s.buffer && f > Max(s.peerAck, ack)
  {
    UnackedFacts(s.buffer, Max(s.peerAck, ack));
  }

  lemma BaseStamp(s: State, handle: nat)
    requires Base(s)
    ensures Base(Next(s, Stamp(handle)))
  {
    forall i | 0 <= i < |s.buffer| ensures s.buffer[i] < s.nextSeq {
      assert s.buffer[i] in s.buffer;
    }
  }

  lemma BaseEvict(s: State)
    requires Base(s)
    ensures Base(Next(s, Evict))
  {
    if s.buffer != [] {
      assert s.buffer == [s.buffer[0]] + s.buffer[1..];
    }
  }

  lemma BaseConnect(s: State)
    requires Base(s)
    ensures Base(Next(s, Connect)) == Base(s)
  {
    if !s.up && s.dir.HubToDevice? { TakeKeeps(s, s.lastIn); }
  }

  lemma BaseDeliver(s: State)
    requires Base(s)
    ensures Base(Next(s, Deliver))
  {
    if s.up && s.wire != [] {
      assert s.wire[0] in s.wire;
    }
  }

  lemma BaseLate(s: State, e: Event)
    requires Base(s) && (e.Supersede? || e.LateHandle?)
    ensures Base(Next(s, e))
  {
    if s.wire != [] { assert s.wire[0] in s.wire; }
  }

  lemma BaseAckRecv(s: State)
    requires Base(s)
    ensures Base(Next(s, AckRecv))
  {
    if s.up && s.acks != [] {
      assert s.acks[0] in s.acks && forall a | a in s.acks[1..] :: a in s.acks;
      TakeKeeps(s, s.acks[0]);
    }
  }

  lemma BaseQuiet(s: State, e: Event)
    requires Base(s) && (e.Skip? || e.Push? || e.Disconnect? || e.AckSend?)
    ensures Base(Next(s, e))
  {
  }

  lemma BaseStep(s: State, e: Event)
    requires Base(s)
    ensures Base(Next(s, e)) == Base(s)
  {
    match e
    case Stamp(handle) => BaseStamp(s, handle);
    case Evict => BaseEvict(s);
    case Connect => BaseConnect(s);
    case Supersede => BaseLate(s, e);
    case LateHandle(_) => BaseLate(s, e);
    case Deliver => BaseDeliver(s);
    case AckRecv => BaseAckRecv(s);
    case _ => BaseQuiet(s, e);
  }

  lemma {:induction false} BaseRun(s: State, es: seq<Event>)
    requires Base(s)
    ensures Base(Run(s, es)) == Base(s)
    decreases |es|
  {
    if es == [] {
    } else {
      BaseStep(s, es[0]);
      BaseRun(Next(s, es[0]), es[1..]);
    }
  }

  // ---- What in-order pushing adds ----

  ghost predicate Settled(s: State, f: Frame) { f in s.processed || f in s.evicted }

  /** Everything stored up to `a` was handled or evicted. */
  ghost predicate Covered(s: State, a: nat) {
    forall f | f in s.stored && f <= a :: Settled(s, f)
  }

  /** Nothing can reach the receiver before what lies below it. */
  ghost predicate WireOrdered(s: State) {
    forall i, f | 0 <= i < |s.wire| && f in s.stored && f <= s.wire[i] ::
      Settled(s, f) || f in s.wire[..i + 1]
  }

  ghost predicate Ordered(s: State) {
    && Covered(s, s.peerAck) && Covered(s, s.lastIn)
    && (forall a | a in s.acks :: Covered(s, a))
    && (forall a | a in s.seen :: Covered(s, a))
    && WireOrdered(s)
    && (forall q | q in s.late :: forall f | f in s.stored && f < q :: Settled(s, f))
    && (s.up ==> forall f | f in s.entered :: Settled(s, f) || f in s.wire)
  }

  lemma OrderedPush(s: State, q: Frame)
    requires Base(s) && Ordered(s) && Live(s, q) && InOrder(s, q)
    ensures Ordered(Next(s, Push(q)))
  {
    var t := Next(s, Push(q));
    forall i, f | 0 <= i < |t.wire| && f in t.stored && f <= t.wire[i]
      ensures Settled(t, f) || f in t.wire[..i + 1]
    {
      if i < |s.wire| {
        assert t.wire[i] == s.wire[i] && t.wire[..i + 1] == s.wire[..i + 1];
      } else {
        assert t.wire[..i + 1] == t.wire && t.wire[i] == q;
      }
    }
  }

  lemma OrderedConnect(s: State)
    requires Base(s) && Ordered(s) && !s.up
    ensures Ordered(Next(s, Connect))
  {
    var t := Next(s, Connect);
    BaseConnect(s);
    if s.dir.HubToDevice? { TakeKeeps(s, s.lastIn); }
    forall i, f | 0 <= i < |t.wire| && f in t.stored && f <= t.wire[i]
      ensures Settled(t, f) || f in t.wire[..i + 1]
    {
      if f in t.buffer {
        var j :| 0 <= j < |t.buffer| && t.buffer[j] == f;
        assert t.wire[..i + 1][j] == f;
      }
    }
  }

  /** Taking `q` off the wire settles it and everything below it. */
  lemma DeliverSettles(s: State)
    requires Base(s) && Ordered(s) && s.up && s.wire != []
    ensures Covered(Next(s, Deliver), s.wire[0]) && Settled(Next(s, Deliver), s.wire[0])
  {
    var t := Next(s, Deliver);
    var q := s.wire[0];
    assert q in s.wire;
    assert q <= s.lastIn ==> Settled(s, q);
    forall f | f in t.stored && f <= q ensures Settled(t, f) {
      assert Settled(s, f) || f in s.wire[..0 + 1];
    }
  }

  /** Taking a settled frame off the front keeps the wire in order. */
  lemma WireTail(s: State, t: State)
    requires WireOrdered(s) && s.wire != [] && t.wire == s.wire[1..] && t.stored == s.stored
    requires Settled(t, s.wire[0]) && forall f | Settled(s, f) :: Settled(t, f)
    ensures WireOrdered(t)
  {
    forall i, f | 0 <= i < |t.wire| && f in t.stored && f <= t.wire[i]
      ensures Settled(t, f) || f in t.wire[..i + 1]
    {
      assert t.wire[i] == s.wire[i + 1];
      assert s.wire[..i + 2] == [s.wire[0]] + t.wire[..i + 1];
    }
  }

  /** More settled frames keep what is covered covered. */
  lemma CoveredGrows(s: State, t: State, a: nat)
    requires t.stored == s.stored && s.processed <= t.processed && s.evicted <= t.evicted && Covered(s, a)
    ensures Covered(t, a)
  {
    forall f | f in t.stored && f <= a ensures Settled(t, f) { assert Settled(s, f); }
  }

  lemma OrderedDeliver(s: State)
    requires Base(s) && Ordered(s) && s.up && s.wire != []
    ensures Ordered(Next(s, Deliver))
  {
    var t := Next(s, Deliver);
    DeliverSettles(s);
    WireTail(s, t);
    assert s.wire == [s.wire[0]] + t.wire;
    CoveredGrows(s, t, s.peerAck);
    CoveredGrows(s, t, s.lastIn);
    forall a | Covered(s, a) ensures Covered(t, a) { CoveredGrows(s, t, a); }
  }

  lemma OrderedSupersede(s: State)
    requires Base(s) && Ordered(s)
    ensures Ordered(Next(s, Supersede))
  {
    if s.wire != [] {
      var q := s.wire[0];
      assert s.wire[..0 + 1] == [q];
      forall f | f in s.stored && f < q ensures Settled(s, f) {}
    }
  }

  lemma OrderedLate(s: State, q: Frame)
    requires Base(s) && Ordered(s) && q in s.late
    ensures Ordered(Next(s, LateHandle(q)))
  {
    var t := Next(s, LateHandle(q));
    assert q <= s.lastIn ==> Settled(s, q);
    forall f | f in t.stored && f <= q ensures Settled(t, f) { assert f < q ==> Settled(s, f); }
    forall a | Covered(s, a) ensures Covered(t, a) { CoveredGrows(s, t, a); }
  }

  lemma OrderedStamp(s: State, handle: nat)
    requires Base(s) && Ordered(s)
    ensures Ordered(Next(s, Stamp(handle)))
  {
    forall i | 0 <= i < |s.wire| ensures s.wire[i] < s.nextSeq {
      assert s.wire[i] in s.wire;
    }
  }

  lemma OrderedAckRecv(s: State)
    requires Base(s) && Ordered(s) && s.up && s.acks != []
    ensures Ordered(Next(s, AckRecv))
  {
    assert s.acks[0] in s.acks && forall a | a in s.acks[1..] :: a in s.acks;
    TakeKeeps(s, s.acks[0]);
  }

  lemma OrderedQuiet(s: State, e: Event)
    requires Base(s) && Ordered(s) && (e.Skip? || e.Evict? || e.Disconnect? || e.AckSend?)
    ensures Ordered(Next(s, e))
  {
    var t := Next(s, e);
    forall a | Covered(s, a) ensures Covered(t, a) { CoveredGrows(s, t, a); }
  }

  lemma OrderedStep(s: State, e: Event)
    requires Base(s) && Ordered(s) && (e.Push? ==> InOrder(s, e.frame))
    ensures Ordered(Next(s, e))
  {
    match e
    case Stamp(handle) => OrderedStamp(s, handle);
    case Push(f) => if Live(s, f) { OrderedPush(s, f); }
    case Connect => if !s.up { OrderedConnect(s); }
    case Supersede => OrderedSupersede(s);
    case LateHandle(q) => if q in s.late { OrderedLate(s, q); }
    case Deliver => if s.up && s.wire != [] { OrderedDeliver(s); }
    case AckRecv => if s.up && s.acks != [] { OrderedAckRecv(s); }
    case _ => OrderedQuiet(s, e);
  }

  lemma {:induction false} OrderedRun(s: State, es: seq<Event>)
    requires Base(s) && Ordered(s) && InOrderRun(s, es)
    ensures Base(Run(s, es)) == Base(s) && Ordered(Run(s, es)) == Ordered(s)
    decreases |es|
  {
    if es == [] {
    } else {
      BaseStep(s, es[0]);
      OrderedStep(s, es[0]);
      OrderedRun(Next(s, es[0]), es[1..]);
    }
  }

  /** Safety over whole runs: cuts, replays, stale acknowledgements and cap evictions included, an
      acknowledged frame really was handled, and no frame is ever lost. */
  lemma InOrderRunsLoseNothing(dir: Direction, es: seq<Event>)
    requires InOrderRun(Init(dir), es)
    ensures var s := Run(Init(dir), es);
            && NothingLost(s)
            && forall f | f in s.stored && f <= s.peerAck :: f in s.processed || f in s.evicted
  {
    OrderedRun(Init(dir), es);
  }

  // ---- Order of handling ----

  ghost predicate Watermark(s: State) {
    match s.dir
    case DeviceToHub =>
      Ascending(s.handled) && s.lastIn == (if s.handled == [] then 0 else s.handled[|s.handled| - 1])
    case HubToDevice =>
      (s.lastIn == 0 || s.lastIn in s.processed) && forall f | f in s.processed :: f <= s.lastIn
  }

  lemma OnlyReceiverMoves(s: State, e: Event)
    requires !e.Deliver? && !e.LateHandle? && !e.Connect?
    ensures var t := Next(s, e);
            t.dir == s.dir && t.handled == s.handled && t.lastIn == s.lastIn && t.processed == s.processed
  {
  }

  lemma WatermarkStep(s: State, e: Event)
    requires Watermark(s)
    ensures Watermark(Next(s, e)) && Next(s, e).dir == s.dir
  {
    match e
    case Deliver =>
    case LateHandle(_) =>
    case Connect =>
    case _ => OnlyReceiverMoves(s, e);
  }

  lemma {:induction false} WatermarkRun(s: State, es: seq<Event>)
    requires Watermark(s)
    ensures Watermark(Run(s, es)) == Watermark(s) && Run(s, es).dir == s.dir
    decreases |es|
  {
    if es == [] {
    } else {
      WatermarkStep(s, es[0]);
      WatermarkRun(Next(s, es[0]), es[1..]);
    }
  }

  /** In every run, lossy or not, the hub handles a frame only above everything it handled since the device
      connected, late loops included, so none twice in one connection. */
  lemma HubHandlesAscending(es: seq<Event>)
    ensures var s := Run(Init(DeviceToHub), es);
            && (forall i, j | 0 <= i < j < |s.handled| :: s.handled[i] < s.handled[j])
            && (forall f | f in s.handled :: f <= s.lastIn)
  {
    WatermarkRun(Init(DeviceToHub), es);
  }

  /** What the device announces and acknowledges is the largest number it ever handled. */
  lemma DeviceAnnouncesLargest(es: seq<Event>)
    ensures var s := Run(Init(HubToDevice), es);
            && (forall f | f in s.processed :: f <= s.lastIn)
            && (s.lastIn == 0 || s.lastIn in s.processed)
  {
    WatermarkRun(Init(HubToDevice), es);
  }

  // ---- Arrival ----

  ghost predicate NoPush(es: seq<Event>) { forall e | e in es :: !e.Push? }

  lemma {:induction false} NoPushIsInOrder(s: State, es: seq<Event>)
    requires NoPush(es)
    ensures InOrderRun(s, es)
    decreases |es|
  {
    if es == [] {
    } else {
      assert es[0] in es;
      NoPushIsInOrder(Next(s, es[0]), es[1..]);
    }
  }

  function Delivers(n: nat): seq<Event> { seq(n, i => Deliver) }

  /** `t` differs from `s` in no frame's favour, except for those in `fs`. */
  ghost predicate HandledOnly(s: State, t: State, fs: seq<Frame>) {
    && t.up && t.wire == [] && t.stored == s.stored && t.evicted == s.evicted && t.late == s.late
    && forall f | f in t.processed :: f in s.processed || f in fs
  }

  lemma DeliverOne(s: State)
    requires s.up && s.wire != []
    ensures var t := Next(s, Deliver);
            && t.up && t.wire == s.wire[1..] && t.stored == s.stored && t.evicted == s.evicted && t.late == s.late
            && t.buffer == s.buffer && t.entered == s.entered && t.lastIn >= s.lastIn && t.lastIn >= s.wire[0]
            && t.processed <= s.processed + {s.wire[0]}
            && t.dir == s.dir && (s.dir.DeviceToHub? ==> t.acks == s.acks + [s.wire[0]])
  {
  }

  /** The receiver takes everything off the wire. */
  lemma {:induction false} DrainWire(s: State)
    requires s.up
    ensures var t := Run(s, Delivers(|s.wire|));
            && HandledOnly(s, t, s.wire) && t.buffer == s.buffer && t.entered == s.entered
            && t.lastIn >= s.lastIn && forall f | f in s.wire :: t.lastIn >= f
    decreases |s.wire|
  {
    if s.wire == [] {
    } else {
      var s' := Next(s, Deliver);
      DeliverOne(s);
      DrainWire(s');
      assert Delivers(|s.wire|)[1..] == Delivers(|s'.wire|);
      assert s.wire == [s.wire[0]] + s'.wire;
    }
  }

  lemma Regroup(a: seq<nat>, b: seq<nat>)
    requires b != []
    ensures a + b == a + [b[0]] + b[1..]
  {
    assert b == [b[0]] + b[1..];
  }

  lemma {:induction false} DrainHandles(s: State)
    requires s.up && Ascending(s.wire) && (s.dir.DeviceToHub? && s.wire != [] ==> s.wire[0] > s.lastIn)
    ensures Run(s, Delivers(|s.wire|)).handled == s.handled + s.wire
    decreases |s.wire|
  {
    if s.wire == [] {
    } else {
      var s' := Next(s, Deliver);
      DrainHandles(s');
      assert Delivers(|s.wire|)[1..] == Delivers(|s'.wire|);
      Regroup(s.handled, s.wire);
    }
  }

  lemma {:induction false} DrainAcknowledges(s: State)
    requires s.up && s.dir.DeviceToHub?
    ensures Run(s, Delivers(|s.wire|)).acks == s.acks + s.wire
    decreases |s.wire|
  {
    if s.wire == [] {
    } else {
      var s' := Next(s, Deliver);
      DeliverOne(s);
      DrainAcknowledges(s');
      assert Delivers(|s.wire|)[1..] == Delivers(|s'.wire|);
      Regroup(s.acks, s.wire);
    }
  }

  /** After any run, a reconnect puts the whole buffer on the wire, and draining it makes the receiver handle
      exactly those frames in order. */
  lemma ReconnectReplaysBuffer(dir: Direction, es: seq<Event>)
    requires !Run(Init(dir), es).up
    ensures var t := Next(Run(Init(dir), es), Connect);
            t.wire == t.buffer && Run(t, Delivers(|t.wire|)).handled == t.buffer
  {
    BaseRun(Init(dir), es);
    var s := Run(Init(dir), es);
    BaseConnect(s);
    var t := Next(s, Connect);
    assert t.wire != [] ==> t.wire[0] in t.buffer;
    DrainHandles(t);
  }

  function AckRecvs(n: nat): seq<Event> { seq(n, i => AckRecv) }

  /** The sender takes every acknowledgement in flight. */
  lemma {:induction false} DrainAcks(s: State)
    requires Base(s) && s.up && s.wire == []
    ensures var t := Run(s, AckRecvs(|s.acks|));
            && HandledOnly(s, t, []) && t.peerAck >= s.peerAck && (forall a | a in s.acks :: t.peerAck >= a)
            && forall f | f in t.buffer :: f in s.buffer
    decreases |s.acks|
  {
    if s.acks == [] {
    } else {
      var s' := Next(s, AckRecv);
      BaseStep(s, AckRecv);
      assert s.acks[0] in s.acks;
      TakeKeeps(s, s.acks[0]);
      DrainAcks(s');
      assert AckRecvs(|s.acks|)[1..] == AckRecvs(|s'.acks|);
      assert s.acks == [s.acks[0]] + s'.acks;
    }
  }

  /** The hub acknowledges every frame, so after any run a reconnect, draining the wire and then taking the
      acknowledgements leave the daemon with nothing to replay. */
  lemma ReconnectEmptiesBuffer(es: seq<Event>)
    requires !Run(Init(DeviceToHub), es).up
    ensures var t := Next(Run(Init(DeviceToHub), es), Connect); var u := Run(t, Delivers(|t.wire|));
            Run(u, AckRecvs(|t.wire|)).buffer == []
  {
    BaseRun(Init(DeviceToHub), es);
    WatermarkRun(Init(DeviceToHub), es);
    var s := Run(Init(DeviceToHub), es);
    BaseConnect(s);
    DrainedIsForgotten(Next(s, Connect));
  }

  lemma DrainedIsForgotten(t: State)
    requires Base(t) && t.up && t.dir.DeviceToHub? && t.wire == t.buffer && t.acks == []
    ensures Run(Run(t, Delivers(|t.wire|)), AckRecvs(|t.wire|)).buffer == []
  {
    DrainAcknowledges(t);
    DrainWire(t);
    BaseRun(t, Delivers(|t.wire|));
    TakenAcksEmpty(Run(t, Delivers(|t.wire|)));
  }

  lemma HasElement(es: seq<Frame>)
    requires es != []
    ensures exists f :: f in es
  {
    assert es[0] in es;
  }

  lemma TakenAcksEmpty(u: State)
    requires Base(u) && u.up && u.wire == [] && u.acks == u.buffer
    ensures Run(u, AckRecvs(|u.acks|)).buffer == []
  {
    var v := Run(u, AckRecvs(|u.acks|));
    DrainAcks(u);
    BaseRun(u, AckRecvs(|u.acks|));
    if v.buffer != [] { HasElement(v.buffer); }
  }

  /** Frames arrive: when the link is down after any in-order run, one reconnect and draining the wire leave every
      stored frame handled by the receiver, unless it fell to the cap. */
  lemma ReconnectDelivers(dir: Direction, es: seq<Event>)
    requires InOrderRun(Init(dir), es) && !Run(Init(dir), es).up
    ensures var t := Next(Run(Init(dir), es), Connect); var u := Run(t, Delivers(|t.wire|));
            forall f | f in u.stored :: f in u.processed || f in u.evicted
  {
    OrderedRun(Init(dir), es);
    SettlesAfterReconnect(Run(Init(dir), es));
  }

  lemma SettlesAfterReconnect(s: State)
    requires Base(s) && Ordered(s) && !s.up
    ensures var t := Next(s, Connect); var u := Run(t, Delivers(|t.wire|)); forall f | f in u.stored :: Settled(u, f)
  {
    BaseConnect(s);
    OrderedConnect(s);
    DrainedIsSettled(Next(s, Connect));
  }

  lemma DrainedIsSettled(t: State)
    requires Base(t) && Ordered(t) && t.up && forall f | f in t.buffer :: f in t.entered
    ensures var u := Run(t, Delivers(|t.wire|)); forall f | f in u.stored :: Settled(u, f)
  {
    var ds := Delivers(|t.wire|);
    NoPushIsInOrder(t, ds);
    OrderedRun(t, ds);
    DrainWire(t);
  }
}
