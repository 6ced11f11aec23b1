/** The sender in the link protocol is the outbox: the daemon's class in one direction, the hub's stream in
    the other. Each sender step of the protocol is the matching operation, seen through the numbers of
    the buffered frames. */
module Endpoint {
  import opened Numbered
  import Outbox
  import HubStore
  import Link

  function Nums<T>(es: seq<Entry<T>>): seq<nat> {
    seq(|es|, i requires 0 <= i < |es| => es[i].num)
  }

  /** Both trim loops pop the same frames. */
  lemma {:induction false} TrimNums<T>(es: seq<Entry<T>>, n: nat)
    ensures Nums(Trim(es, n)) == Link.Unacked(Nums(es), n)
  {
    if es == [] {
    } else {
      assert Nums(es)[1..] == Nums(es[1..]);
      TrimNums(es[1..], n);
    }
  }

  // ---- Daemon to hub ----

  ghost predicate Represents(b: Outbox.Box, s: Link.State) {
    b.nextSeq == s.nextSeq && b.peerAck == s.peerAck && Nums(b.buffer) == s.buffer
  }

  /** Stamp and store is one stamp, followed by one eviction when the buffer was full. */
  lemma PrepareIsStamp(b: Outbox.Box, s: Link.State, payload: string, handle: nat)
    requires Represents(b, s) && Link.CanStamp(s, handle) && |b.buffer| <= b.maxBuffer
    ensures var t := Link.Next(s, Link.Stamp(handle));
            Represents(Outbox.Prepared(b, payload),
                       if |b.buffer| < b.maxBuffer then t else Link.Next(t, Link.Evict))
    ensures |Outbox.Prepared(b, payload).buffer| <= b.maxBuffer
  {
    var longer := b.buffer + [Outbox.NextFrame(b, payload)];
    assert Nums(longer) == s.buffer + [s.nextSeq];
    if |b.buffer| == b.maxBuffer { assert Nums(longer[1..]) == Nums(longer)[1..]; }
  }

  lemma AckIsAck(b: Outbox.Box, s: Link.State)
    requires Represents(b, s) && s.dir.DeviceToHub? && s.up && s.acks != []
    ensures Represents(Outbox.Acked(b, s.acks[0]), Link.Next(s, Link.AckRecv))
  {
    TrimNums(b.buffer, Max(b.peerAck, s.acks[0]));
  }

  /** Reconnecting leaves the outbox alone and puts exactly its buffer on the wire. */
  lemma ReconnectReplaysBuffer(b: Outbox.Box, s: Link.State)
    requires Represents(b, s) && s.dir.DeviceToHub? && !s.up
    ensures Represents(b, Link.Next(s, Link.Connect)) && Link.Next(s, Link.Connect).wire == Nums(b.buffer)
  {
  }

  /** What happens at the daemon's end: a send by a handle of some connection, or a step of the link. */
  datatype DeviceEvent = Send(payload: string, handle: nat) | Net(e: Link.Event)

  datatype Device = Device(box: Outbox.Box, link: Link.State)

  /** Stamping and evicting are the outbox's own doing. */
  predicate OfTheLink(e: Link.Event) { !e.Stamp? && !e.Skip? && !e.Evict? }

  ghost function BoxNext(d: Device, e: DeviceEvent): Outbox.Box {
    match e
    case Send(payload, handle) => if Link.CanStamp(d.link, handle) then Outbox.Prepared(d.box, payload) else d.box
    case Net(e) =>
      if e.AckRecv? && d.link.up && d.link.acks != [] then Outbox.Acked(d.box, d.link.acks[0]) else d.box
  }

  ghost function LinkSteps(d: Device, e: DeviceEvent): seq<Link.Event> {
    match e
    case Send(_, handle) =>
      if !Link.CanStamp(d.link, handle) then []
      else if |d.box.buffer| < d.box.maxBuffer then [Link.Stamp(handle)] else [Link.Stamp(handle), Link.Evict]
    case Net(e) => if OfTheLink(e) then [e] else []
  }

  ghost function DeviceNext(d: Device, e: DeviceEvent): Device {
    Device(BoxNext(d, e), Link.Run(d.link, LinkSteps(d, e)))
  }

  ghost function DeviceRun(d: Device, es: seq<DeviceEvent>): Device
    decreases |es|
  {
    if es == [] then d else DeviceRun(DeviceNext(d, es[0]), es[1..])
  }

  /** The link's view of a run of the device. */
  ghost function DeviceTrace(d: Device, es: seq<DeviceEvent>): seq<Link.Event>
    decreases |es|
  {
    if es == [] then [] else LinkSteps(d, es[0]) + DeviceTrace(DeviceNext(d, es[0]), es[1..])
  }

  ghost predicate InStep(d: Device) {
    Represents(d.box, d.link) && |d.box.buffer| <= d.box.maxBuffer && d.link.dir.DeviceToHub?
  }

  lemma RunOne(s: Link.State, e: Link.Event)
    ensures Link.Run(s, [e]) == Link.Next(s, e)
  {
    assert [e][1..] == [];
    assert Link.Run(s, [e]) == Link.Run(Link.Next(s, e), []);
  }

  lemma RunTwo(s: Link.State, e: Link.Event, f: Link.Event)
    ensures Link.Run(s, [e, f]) == Link.Next(Link.Next(s, e), f)
  {
    assert [e, f][1..] == [f];
    RunOne(Link.Next(s, e), f);
  }

  lemma DeviceStep(d: Device, e: DeviceEvent)
    requires InStep(d)
    ensures InStep(DeviceNext(d, e)) == InStep(d)
  {
    match e
    case Send(payload, handle) =>
      if Link.CanStamp(d.link, handle) {
        PrepareIsStamp(d.box, d.link, payload, handle);
        RunOne(d.link, Link.Stamp(handle));
        RunTwo(d.link, Link.Stamp(handle), Link.Evict);
      }
    case Net(e) =>
      RunOne(d.link, e);
      if e.AckRecv? && d.link.up && d.link.acks != [] {
        AckIsAck(d.box, d.link);
        TrimShrinks(d.box.buffer, Max(d.box.peerAck, d.link.acks[0]));
      } else if e.Connect? && !d.link.up {
        ReconnectReplaysBuffer(d.box, d.link);
      }
  }

  lemma {:induction false} TrimShrinks<T>(es: seq<Entry<T>>, n: nat)
    ensures |Trim(es, n)| <= |es|
  {
    if es == [] {
    } else {
      TrimShrinks(es[1..], n);
    }
  }

  lemma {:induction false} DeviceRunKeeps(d: Device, es: seq<DeviceEvent>)
    requires InStep(d)
    ensures InStep(DeviceRun(d, es)) == InStep(d) && DeviceRun(d, es).link == Link.Run(d.link, DeviceTrace(d, es))
    decreases |es|
  {
    if es == [] {
    } else {
      DeviceStep(d, es[0]);
      DeviceRunKeeps(DeviceNext(d, es[0]), es[1..]);
      Link.RunConcat(d.link, LinkSteps(d, es[0]), DeviceTrace(DeviceNext(d, es[0]), es[1..]));
    }
  }

  /** Every run of the daemon's outbox is a run of the link's sender, and if its frames are pushed in order then
      every stored frame was handled by the hub, is in the outbox buffer, or fell to its cap, and every frame at
      or below the outbox's acknowledgement was handled or fell to the cap. */
  lemma OutboxRunsLoseNothing(maxBuffer: nat, es: seq<DeviceEvent>)
    ensures var d := Device(Outbox.Fresh(maxBuffer), Link.Init(Link.DeviceToHub));
            var t := DeviceRun(d, es);
            && t.link == Link.Run(d.link, DeviceTrace(d, es)) && Represents(t.box, t.link)
            && (Link.InOrderRun(d.link, DeviceTrace(d, es)) ==>
                  forall f | f in t.link.stored ::
                    && (f in t.link.processed || f in Nums(t.box.buffer) || f in t.link.evicted)
                    && (f <= t.box.peerAck ==> f in t.link.processed || f in t.link.evicted))
  {
    var d := Device(Outbox.Fresh(maxBuffer), Link.Init(Link.DeviceToHub));
    DeviceRunKeeps(d, es);
    if Link.InOrderRun(d.link, DeviceTrace(d, es)) {
      Link.InOrderRunsLoseNothing(Link.DeviceToHub, DeviceTrace(d, es));
    }
  }

  // ---- Hub to daemon ----

  ghost predicate Streams(st: HubStore.Store, s: Link.State) {
    st.lastId + 1 == s.nextSeq && Nums(st.stream) == s.buffer
  }

  lemma AscendingNums<T>(es: seq<Entry<T>>)
    requires Link.Ascending(Nums(es))
    ensures Ascending(es)
  {
    forall i, j | 0 <= i < j < |es| ensures es[i].num < es[j].num {
      assert Nums(es)[i] < Nums(es)[j];
    }
  }

  /** Trimming by id at `ack` is what the sender does at the larger of its watermark and `ack`. */
  lemma TrimIsTake(st: HubStore.Store, s: Link.State, ack: nat)
    requires Streams(st, s) && Link.Base(s)
    ensures Nums(HubStore.Unacked(st.stream, ack)) == Link.Unacked(s.buffer, Max(s.peerAck, ack))
  {
    var p := Max(s.peerAck, ack);
    AscendingNums(st.stream);
    forall i | 0 <= i < |st.stream| ensures st.stream[i].num > s.peerAck { assert Nums(st.stream)[i] in s.buffer; }
    AboveAll(st.stream, s.peerAck);
    AboveTwice(st.stream, s.peerAck, ack);
    TrimIsAbove(st.stream, p);
    TrimNums(st.stream, p);
  }

  /** The reconcile script at Hello is the sender's part of a reconnect, and the stream it leaves is what
      the hub replays. The device never knows more than the store here, so no bootstrap happens. */
  lemma ReconcileIsConnect(st: HubStore.Store, s: Link.State, session: HubStore.Session)
    requires Streams(st, s) && Link.Base(s) && s.dir.HubToDevice? && !s.up && HubStore.Owns(st, session)
    requires st.lastId <= st.counter
    ensures var t := Link.Next(s, Link.Connect); var st' := HubStore.Reconciled(st, session, s.lastIn);
            Streams(st', t) && t.wire == Nums(st'.stream) && st'.counter == st.counter
  {
    TrimIsTake(st, s, s.lastIn);
  }

  lemma ObserveIsAck(st: HubStore.Store, s: Link.State)
    requires Streams(st, s) && Link.Base(s) && s.dir.HubToDevice? && s.up && s.acks != [] && st.lastId <= st.counter
    ensures Streams(HubStore.Observed(st, s.acks[0]), Link.Next(s, Link.AckRecv)) && s.acks[0] <= st.counter
  {
    assert s.acks[0] in s.acks;
    TrimIsTake(st, s, s.acks[0]);
  }

  function Skips(n: nat): seq<Link.Event> { seq(n, i => Link.Skip) }

  function Evicts(n: nat): seq<Link.Event> { seq(n, i => Link.Evict) }

  lemma {:induction false} SkipsRun(s: Link.State, n: nat)
    requires s.dir.HubToDevice?
    ensures Link.Run(s, Skips(n)) == s.(nextSeq := s.nextSeq + n)
    decreases n
  {
    if n == 0 {
    } else {
      assert Skips(n)[1..] == Skips(n - 1);
      SkipsRun(Link.Next(s, Link.Skip), n - 1);
    }
  }

  lemma {:induction false} EvictsRun(s: Link.State, n: nat)
    requires n <= |s.buffer|
    ensures var t := Link.Run(s, Evicts(n));
            t == s.(buffer := s.buffer[n..], evicted := t.evicted) && s.evicted <= t.evicted
    decreases n
  {
    if n == 0 {
      assert s.buffer[0..] == s.buffer;
    } else {
      assert Evicts(n)[1..] == Evicts(n - 1);
      EvictsRun(Link.Next(s, Link.Evict), n - 1);
      assert s.buffer[1..][n - 1..] == s.buffer[n..];
    }
  }

  /** The steps of a successful append of a reserved number: the numbers skipped before it, the stamp, and what
      the length cap drops. Earlier reservations may be outstanding; they can no longer be appended. */
  ghost function AppendSteps(s: Link.State, num: nat, drop: nat): seq<Link.Event>
    requires num >= s.nextSeq
  {
    Skips(num - s.nextSeq) + StampSteps(s.conn, drop)
  }

  function StampSteps(conn: nat, drop: nat): seq<Link.Event> { [Link.Stamp(conn)] + Evicts(drop) }

  /** What the cap drops when this append is asked to drop so many. */
  function Dropped(st: HubStore.Store, drop: nat): nat {
    if HubStore.DropAllowed(|st.stream| + 1, drop) then drop else 0
  }

  lemma StampEvicts(s: Link.State, drop: nat)
    requires Link.CanStamp(s, s.conn) && drop <= |s.buffer| + 1
    ensures var t := Link.Run(s, StampSteps(s.conn, drop));
            && t.buffer == (s.buffer + [s.nextSeq])[drop..] && t.nextSeq == s.nextSeq + 1
            && t.stored == s.stored + {s.nextSeq} && t.dir == s.dir && t.conn == s.conn
  {
    assert StampSteps(s.conn, drop)[1..] == Evicts(drop);
    EvictsRun(Link.Next(s, Link.Stamp(s.conn)), drop);
  }

  lemma SkipsThen(s: Link.State, k: nat, tail: seq<Link.Event>)
    requires s.dir.HubToDevice?
    ensures Link.Run(s, Skips(k) + tail) == Link.Run(s.(nextSeq := s.nextSeq + k), tail)
  {
    SkipsRun(s, k);
    Link.RunConcat(s, Skips(k), tail);
  }

  lemma AppendRuns(s: Link.State, num: nat, drop: nat)
    requires s.dir.HubToDevice? && Link.CanStamp(s, s.conn) && num >= s.nextSeq && drop <= |s.buffer| + 1
    ensures var t := Link.Run(s, AppendSteps(s, num, drop));
            && t.buffer == (s.buffer + [num])[drop..] && t.nextSeq == num + 1 && t.stored == s.stored + {num}
            && t.dir == s.dir && t.conn == s.conn
  {
    SkipsThen(s, num - s.nextSeq, StampSteps(s.conn, drop));
    StampEvicts(s.(nextSeq := num), drop);
  }

  lemma AppendIsStamp(st: HubStore.Store, s: Link.State, session: HubStore.Session, num: nat, data: string, drop: nat)
    requires Streams(st, s) && Link.CanStamp(s, s.conn) && s.dir.HubToDevice? && HubStore.Appendable(st, session, num)
    ensures var t := Link.Run(s, AppendSteps(s, num, Dropped(st, drop)));
            && Streams(HubStore.Appended(st, session, Entry(num, data), drop), t)
            && t.dir == s.dir && t.conn == s.conn && t.stored == s.stored + {num}
  {
    AppendRuns(s, num, Dropped(st, drop));
    assert (st.stream + [Entry(num, data)])[0..] == st.stream + [Entry(num, data)];
  }

  /** What happens at the hub's end: a script that leaves the stream alone, an offer of a reserved number to the
      stream, the Hello of a new session, an acknowledgement coming in, or a step of the link. */
  datatype HubEvent =
    | Script(script: HubStore.Event)
    | Offer(session: HubStore.Session, num: nat, data: string, drop: nat)
    | Hello(session: HubStore.Session)
    | AckIn
    | Wire(step: Link.Event)

  /** `last`: the session that reconciled last, which is the one behind the current connection. */
  datatype Hub = Hub(system: HubStore.System, link: Link.State, last: Option<HubStore.Session>)

  predicate LeavesStream(e: HubStore.Event) { e.Acquire? || e.Renew? || e.Release? || e.Expire? || e.Reserve? }

  predicate OfTheWire(e: Link.Event) { e.Push? || e.Disconnect? || e.Deliver? || e.AckSend? }

  ghost predicate Welcomes(h: Hub, session: HubStore.Session) {
    HubStore.Owns(h.system.store, session) && session !in h.system.ready
  }

  ghost predicate Takes(h: Hub, session: HubStore.Session, num: nat) {
    num in h.system.reserved && h.system.reserved[num] == session && HubStore.Appendable(h.system.store, session, num)
  }

  ghost function SystemNext(h: Hub, e: HubEvent): HubStore.System {
    match e
    case Script(e) => if LeavesStream(e) then HubStore.Next(h.system, e) else h.system
    case Offer(session, num, data, drop) => HubStore.Next(h.system, HubStore.Append(session, num, data, drop))
    case Hello(session) =>
      if Welcomes(h, session) then HubStore.Next(h.system, HubStore.Reconcile(session, h.link.lastIn)) else h.system
    case AckIn =>
      if h.link.up && h.link.acks != [] then HubStore.Next(h.system, HubStore.Observe(h.link.acks[0])) else h.system
    case Wire(_) => h.system
  }

  ghost function HubSteps(h: Hub, e: HubEvent): seq<Link.Event> {
    match e
    case Script(_) => []
    case Offer(session, num, _, drop) =>
      if Takes(h, session, num) && num >= h.link.nextSeq then AppendSteps(h.link, num, Dropped(h.system.store, drop)) else []
    case Hello(session) => if Welcomes(h, session) then [Link.Disconnect, Link.Connect] else []
    case AckIn => [Link.AckRecv]
    case Wire(e) => if OfTheWire(e) then [e] else []
  }

  ghost function HubNext(h: Hub, e: HubEvent): Hub {
    Hub(SystemNext(h, e), Link.Run(h.link, HubSteps(h, e)),
        if e.Hello? && Welcomes(h, e.session) then Some(e.session) else h.last)
  }

  ghost function HubRun(h: Hub, es: seq<HubEvent>): Hub
    decreases |es|
  {
    if es == [] then h else HubRun(HubNext(h, es[0]), es[1..])
  }

  ghost function HubTrace(h: Hub, es: seq<HubEvent>): seq<Link.Event>
    decreases |es|
  {
    if es == [] then [] else HubSteps(h, es[0]) + HubTrace(HubNext(h, es[0]), es[1..])
  }

  /** Who may append is the session of the current connection. */
  ghost predicate OwnerIsLast(h: Hub) {
    && (forall x | x in h.system.ready && HubStore.Owns(h.system.store, x) :: h.last == Some(x))
    && (h.system.ready != {} ==> h.link.conn >= 1)
  }

  ghost predicate Logged(h: Hub) { forall f | f in h.system.log :: f.num in h.link.stored }

  ghost predicate HubInStep(h: Hub) {
    && HubStore.Inv(h.system) && Link.Base(h.link) && h.link.dir.HubToDevice?
    && Streams(h.system.store, h.link) && OwnerIsLast(h) && Logged(h)
  }

  lemma HubScript(h: Hub, e: HubStore.Event)
    requires HubInStep(h) && LeavesStream(e)
    ensures HubInStep(HubNext(h, Script(e)))
  {
    HubStore.StepKeeps(h.system, e);
  }

  lemma HubOffer(h: Hub, e: HubEvent)
    requires HubInStep(h) && e.Offer?
    ensures HubInStep(HubNext(h, e))
  {
    HubStore.StepKeeps(h.system, HubStore.Append(e.session, e.num, e.data, e.drop));
    if Takes(h, e.session, e.num) {
      AppendIsStamp(h.system.store, h.link, e.session, e.num, e.data, e.drop);
      Link.BaseRun(h.link, AppendSteps(h.link, e.num, Dropped(h.system.store, e.drop)));
    }
  }

  lemma HubHello(h: Hub, session: HubStore.Session)
    requires HubInStep(h) && Welcomes(h, session)
    ensures HubInStep(HubNext(h, Hello(session)))
  {
    HubStore.StepKeeps(h.system, HubStore.Reconcile(session, h.link.lastIn));
    var cut := Link.Next(h.link, Link.Disconnect);
    RunTwo(h.link, Link.Disconnect, Link.Connect);
    Link.BaseStep(h.link, Link.Disconnect);
    Link.BaseStep(cut, Link.Connect);
    ReconcileIsConnect(h.system.store, cut, session);
  }

  lemma HubAck(h: Hub)
    requires HubInStep(h)
    ensures HubInStep(HubNext(h, AckIn))
  {
    RunOne(h.link, Link.AckRecv);
    if !h.link.up || h.link.acks == [] {
      assert HubNext(h, AckIn).link == h.link;
    } else {
      Link.BaseStep(h.link, Link.AckRecv);
      HubStore.StepKeeps(h.system, HubStore.Observe(h.link.acks[0]));
      ObserveIsAck(h.system.store, h.link);
    }
  }

  lemma HubStep(h: Hub, e: HubEvent)
    requires HubInStep(h)
    ensures HubInStep(HubNext(h, e))
  {
    match e
    case Script(e) => if LeavesStream(e) { HubScript(h, e); }
    case Offer(_, _, _, _) => HubOffer(h, e);
    case Hello(session) => if Welcomes(h, session) { HubHello(h, session); }
    case AckIn => HubAck(h);
    case Wire(e) =>
      if OfTheWire(e) {
        RunOne(h.link, e);
        Link.BaseStep(h.link, e);
      }
  }

  lemma {:induction false} HubRunKeeps(h: Hub, es: seq<HubEvent>)
    requires HubInStep(h)
    ensures HubInStep(HubRun(h, es)) && HubRun(h, es).link == Link.Run(h.link, HubTrace(h, es))
    decreases |es|
  {
    if es == [] {
    } else {
      HubStep(h, es[0]);
      HubRunKeeps(HubNext(h, es[0]), es[1..]);
      Link.RunConcat(h.link, HubSteps(h, es[0]), HubTrace(HubNext(h, es[0]), es[1..]));
    }
  }

  function HubInit(): Hub { Hub(HubStore.Init(), Link.Init(Link.HubToDevice), None) }

  /** Every run of the hub's scripts, with any number of sessions and outstanding reservations, is a run of the
      link's sender; and if frames are pushed in order, every frame ever appended was handled by the device, is
      still in the stream, or fell to its cap. */
  lemma HubRunsLoseNothing(es: seq<HubEvent>)
    ensures var t := HubRun(HubInit(), es);
            && t.link == Link.Run(HubInit().link, HubTrace(HubInit(), es)) && Nums(t.system.store.stream) == t.link.buffer
            && (Link.InOrderRun(HubInit().link, HubTrace(HubInit(), es)) ==>
                  forall f | f in t.system.log ::
                    f.num in t.link.processed || f in t.system.store.stream || f.num in t.link.evicted)
  {
    var t := HubRun(HubInit(), es);
    HubRunKeeps(HubInit(), es);
    if Link.InOrderRun(HubInit().link, HubTrace(HubInit(), es)) {
      Link.InOrderRunsLoseNothing(Link.HubToDevice, HubTrace(HubInit(), es));
      forall f | f in t.system.log && f.num in t.link.buffer ensures f in t.system.store.stream {
        NumberNamesFrame(t.system.log, t.system.store.stream, f);
      }
    }
  }

  /** The number names the frame: the log ascends, and the stream is its end. */
  lemma NumberNamesFrame(log: seq<HubStore.Frame>, stream: seq<HubStore.Frame>, f: HubStore.Frame)
    requires Ascending(log) && HubStore.EndsWith(log, stream) && f in log && f.num in Nums(stream)
    ensures f in stream
  {
    var i :| 0 <= i < |stream| && Nums(stream)[i] == f.num;
    var j :| 0 <= j < |log| && log[j] == f;
    assert log[|log| - |stream| + i] == stream[i];
  }
}
