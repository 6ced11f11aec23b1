/** The hub's durable outbox of one device: a lease lock that fences, a sequence counter and a stream,
    changed only by atomic scripts. Sessions of several hub replicas interleave their scripts; the
    lease can expire at any moment. */
module HubStore {
  import opened Numbered

  type Session = string
  type Frame = Entry<string>

  const STREAM_MAXLEN: nat := 10_000

  /** `lastId` is the stream's own memory of its largest id; it survives trimming, not deletion. */
  datatype Store = Store(lock: Option<Session>, counter: nat, stream: seq<Frame>, lastId: nat)

  datatype Reply<+T> = Done(value: T) | NotOwner | IdTooSmall

  predicate Owns(st: Store, s: Session) { st.lock == Some(s) }

  /** An acknowledgement of zero says nothing and trims nothing. */
  function Unacked(es: seq<Frame>, ack: nat): seq<Frame> {
    if ack == 0 then es else Above(es, ack)
  }

  // ---- The scripts, each one atomic step on the store ----

  function Acquired(st: Store, s: Session): Store {
    if st.lock.None? then st.(lock := Some(s)) else st
  }

  function Released(st: Store, s: Session): Store {
    if Owns(st, s) then st.(lock := None) else st
  }

  /** Both branches: a device that knows more than the store makes the store start over above it. */
  function Reconciled(st: Store, s: Session, lastAck: nat): Store {
    if !Owns(st, s) then st
    else if lastAck > st.counter then st.(counter := lastAck, stream := [], lastId := 0)
    else st.(stream := Unacked(st.stream, lastAck))
  }

  function Incremented(st: Store, s: Session): Store {
    if Owns(st, s) then st.(counter := st.counter + 1) else st
  }

  /** The approximate cap may drop some oldest entries, but never goes below the maximum length. */
  predicate DropAllowed(len: nat, drop: nat) { drop == 0 || drop + STREAM_MAXLEN <= len }

  function Capped(st: Store, drop: nat): Store {
    if DropAllowed(|st.stream|, drop) then st.(stream := st.stream[drop..]) else st
  }

  /** Stream ids only grow: an id at most the last one is refused. */
  predicate Appendable(st: Store, s: Session, num: nat) { Owns(st, s) && num > st.lastId }

  function Appended(st: Store, s: Session, f: Frame, drop: nat): Store {
    if Appendable(st, s, f.num) then Capped(st.(stream := st.stream + [f], lastId := f.num), drop) else st
  }

  function Observed(st: Store, ack: nat): Store {
    if ack <= st.counter then st.(stream := Unacked(st.stream, ack)) else st
  }

  class RedisOutbox {
    var lock: Option<Session>
    var counter: nat
    var stream: seq<Frame>
    var lastId: nat

    ghost function Model(): Store
      reads this
    {
      Store(lock, counter, stream, lastId)
    }

    constructor ()
      ensures Model() == Store(None, 0, [], 0)
    {
      lock, counter, stream, lastId := None, 0, [], 0;
    }

    method TryAcquireLock(s: Session) returns (ok: bool)
      modifies this`lock
      ensures Model() == Acquired(old(Model()), s) && ok == old(lock).None?
      ensures (ok ==> Owns(Model(), s)) && (!ok ==> lock == old(lock))
    {
      ok := lock.None?;
      if ok { lock := Some(s); }
    }

    method RenewLock(s: Session) returns (ok: bool)
      ensures ok == Owns(Model(), s)
    {
      ok := lock == Some(s);
    }

    method ReleaseLock(s: Session)
      modifies this`lock
      ensures Model() == Released(old(Model()), s)
    {
      if lock == Some(s) { lock := None; }
    }

    /** XTRIM MINID on the key. */
    method TrimStream(ack: nat)
      modifies this`stream
      ensures stream == Above(old(stream), ack)
    {
      var kept := [];
      for i := 0 to |stream|
        invariant stream == old(stream) && kept == Above(stream[..i], ack)
      {
        assert stream[..i + 1] == stream[..i] + [stream[i]];
        AboveConcat(stream[..i], [stream[i]], ack);
        if stream[i].num > ack { kept := kept + [stream[i]]; }
      }
      assert stream[..|stream|] == stream;
      stream := kept;
    }

    method ReconcileOnHello(s: Session, lastAck: nat) returns (r: Reply<nat>)
      modifies this`counter, this`stream, this`lastId
      ensures Model() == Reconciled(old(Model()), s, lastAck)
      ensures r == if Owns(old(Model()), s) then Done(Max(old(counter), lastAck)) else NotOwner
    {
      if lock != Some(s) { return NotOwner; }
      if lastAck > counter {
        counter, stream, lastId := lastAck, [], 0;
        return Done(lastAck);
      }
      if lastAck > 0 {
        TrimStream(lastAck);
      }
      r := Done(counter);
    }

    method FencedIncrSeq(s: Session) returns (r: Reply<nat>)
      modifies this`counter
      ensures Model() == Incremented(old(Model()), s)
      ensures r == if Owns(old(Model()), s) then Done(old(counter) + 1) else NotOwner
    {
      if lock != Some(s) { return NotOwner; }
      counter := counter + 1;
      r := Done(counter);
    }

    method FencedXadd(s: Session, num: nat, data: string, drop: nat) returns (r: Reply<()>)
      modifies this`stream, this`lastId
      ensures Model() == Appended(old(Model()), s, Entry(num, data), drop)
      ensures r == if !Owns(old(Model()), s) then NotOwner
                   else if num <= old(lastId) then IdTooSmall else Done(())
    {
      if lock != Some(s) { return NotOwner; }
      if num <= lastId { return IdTooSmall; }
      stream, lastId := stream + [Entry(num, data)], num;
      if DropAllowed(|stream|, drop) { stream := stream[drop..]; }
      r := Done(());
    }

    method BoundedObserveAck(ack: nat)
      modifies this`stream
      ensures Model() == Observed(old(Model()), ack)
    {
      if ack > counter { return; }
      if ack > 0 {
        TrimStream(ack);
      }
    }

    method UnackedFrames(lastAck: nat) returns (frames: seq<string>)
      ensures frames == Items(Unacked(stream, lastAck))
    {
      frames := [];
      for i := 0 to |stream|
        invariant frames == Items(Unacked(stream[..i], lastAck))
      {
        assert stream[..i + 1] == stream[..i] + [stream[i]];
        AboveConcat(stream[..i], [stream[i]], lastAck);
        if lastAck == 0 || stream[i].num > lastAck { frames := frames + [stream[i].item]; }
      }
      assert stream[..|stream|] == stream;
    }
  }

  // ---- Runs: any number of sessions, their scripts interleaved ----

  /** `used`: sessions that got the lock once (a session id is fresh and acquires once); `ready`: those
      that reconciled, and may send; `reserved`: numbers handed out and not yet offered to the stream;
      `issued`, `log`: everything handed out and everything appended, in order; `floor`: the last
      bootstrap floor; `acked`, `capped`: the largest number trimmed as acknowledged, by the cap. */
  datatype System = System(
    store: Store, used: set<Session>, ready: set<Session>, reserved: map<nat, Session>,
    issued: seq<nat>, log: seq<Frame>, floor: nat, acked: nat, capped: nat)

  datatype Event =
    | Acquire(s: Session) | Renew(s: Session) | Release(s: Session) | Expire
    | Reconcile(s: Session, lastAck: nat)
    | Reserve(s: Session)
    | Append(s: Session, num: nat, data: string, drop: nat)
    | Observe(ack: nat)

  function Init(): System { System(Store(None, 0, [], 0), {}, {}, map[], [], [], 0, 0, 0) }

  // The store of the next state is always what the script makes of it; the rest is history.

  function Acquiring(y: System, s: Session): System {
    var st := Acquired(y.store, s);
    y.(store := st, used := if Owns(st, s) then y.used + {s} else y.used)
  }

  function Reconciling(y: System, s: Session, lastAck: nat): System {
    var z := y.(store := Reconciled(y.store, s, lastAck));
    if !Owns(y.store, s) then z
    else z.(ready := y.ready + {s}, acked := Max(y.acked, lastAck),
            floor := if lastAck > y.store.counter then lastAck else y.floor)
  }

  function Reserving(y: System, s: Session): System {
    var z := y.(store := Incremented(y.store, s));
    if !Owns(y.store, s) then z
    else
      var n := y.store.counter + 1;
      z.(reserved := y.reserved[n := s], issued := y.issued + [n])
  }

  function Appending(y: System, s: Session, f: Frame, drop: nat): System {
    var z := y.(store := Appended(y.store, s, f, drop), reserved := y.reserved - {f.num});
    if !Appendable(y.store, s, f.num) then z
    else z.(log := y.log + [f], capped := Capping(Pushing(y, f), drop).capped)
  }

  function Observing(y: System, ack: nat): System {
    var z := y.(store := Observed(y.store, ack));
    if ack > y.store.counter then z else z.(acked := Max(y.acked, ack))
  }

  /** The two halves of a successful append. */
  function Pushing(y: System, f: Frame): System {
    y.(store := y.store.(stream := y.store.stream + [f], lastId := f.num),
       reserved := y.reserved - {f.num}, log := y.log + [f])
  }

  function Capping(y: System, drop: nat): System {
    y.(store := Capped(y.store, drop),
       capped := if 0 < drop && DropAllowed(|y.store.stream|, drop)
                 then Max(y.capped, y.store.stream[drop - 1].num) else y.capped)
  }

  /** One script, one atomic step. A script its caller would not send leaves the state unchanged. */
  function Next(y: System, e: Event): System {
    match e
    case Acquire(s) => if s in y.used then y else Acquiring(y, s)
    case Renew(_) => y
    case Release(s) => y.(store := Released(y.store, s))
    case Expire => y.(store := y.store.(lock := None))
    case Reconcile(s, lastAck) => if s in y.ready then y else Reconciling(y, s, lastAck)
    case Reserve(s) => if s !in y.ready then y else Reserving(y, s)
    case Append(s, num, data, drop) =>
      if num in y.reserved && y.reserved[num] == s then Appending(y, s, Entry(num, data), drop) else y
    case Observe(ack) => Observing(y, ack)
  }

  function Run(y: System, es: seq<Event>): System
    decreases |es|
  {
    if es == [] then y else Run(Next(y, es[0]), es[1..])
  }

  ghost predicate StrictlyIncreasing(ns: seq<nat>) {
    forall i, j | 0 <= i < j < |ns| :: ns[i] < ns[j]
  }

  ghost predicate Sessions(y: System) {
    && (y.store.lock.Some? ==> y.store.lock.value in y.used)
    && y.ready <= y.used
    && (forall n | n in y.reserved :: n <= y.store.counter && y.reserved[n] in y.ready)
    && (forall n | n in y.reserved && y.store.lock == Some(y.reserved[n]) :: n > y.floor)
    && (forall n | n in y.reserved :: forall f | f in y.log :: f.num != n)
    && StrictlyIncreasing(y.issued)
    && (forall n | n in y.issued :: n <= y.store.counter)
    && (y.store.counter == y.floor || (y.issued != [] && y.issued[|y.issued| - 1] == y.store.counter))
  }

  ghost predicate Bounds(y: System) {
    && y.floor <= y.store.counter && y.store.lastId <= y.store.counter
    && (forall f | f in y.log :: 0 < f.num <= Max(y.store.lastId, y.floor))
    && (forall f | f in y.store.stream :: y.floor < f.num)
    && (forall n | n in y.reserved :: 0 < n)
  }

  ghost predicate EndsWith(log: seq<Frame>, stream: seq<Frame>) {
    |stream| <= |log| && forall i | 0 <= i < |stream| :: stream[i] == log[|log| - |stream| + i]
  }

  /** What `stream` lacks of `log` was acknowledged, or was capped when enough newer frames were there. */
  ghost predicate FrontGone(log: seq<Frame>, stream: seq<Frame>, acked: nat, capped: nat) {
    forall i | 0 <= i < |log| - |stream| ::
      log[i].num <= acked || (log[i].num <= capped && i + STREAM_MAXLEN < |log|)
  }

  /** The stream is the log without a front, and that front was acknowledged or capped. */
  ghost predicate Suffix(y: System) {
    && Ascending(y.log)
    && EndsWith(y.log, y.store.stream)
    && FrontGone(y.log, y.store.stream, y.acked, y.capped)
  }

  ghost predicate Inv(y: System) { Sessions(y) && Bounds(y) && Suffix(y) }

  lemma PushEnds(log: seq<Frame>, stream: seq<Frame>, f: Frame, acked: nat, capped: nat)
    requires EndsWith(log, stream) && FrontGone(log, stream, acked, capped)
    ensures EndsWith(log + [f], stream + [f]) && FrontGone(log + [f], stream + [f], acked, capped)
  {
  }

  lemma DropEnds(log: seq<Frame>, stream: seq<Frame>, k: nat, y: System, z: System)
    requires EndsWith(log, stream) && FrontGone(log, stream, y.acked, y.capped)
    requires y.acked <= z.acked && y.capped <= z.capped && k <= |stream|
    requires forall i | 0 <= i < k ::
               stream[i].num <= z.acked || (stream[i].num <= z.capped && k + STREAM_MAXLEN <= |stream|)
    ensures EndsWith(log, stream[k..]) && FrontGone(log, stream[k..], z.acked, z.capped)
  {
    var cut := |log| - |stream|;
    forall i | 0 <= i < cut + k
      ensures log[i].num <= z.acked || (log[i].num <= z.capped && i + STREAM_MAXLEN < |log|)
    {
      if i >= cut { assert stream[i - cut] == log[i]; }
    }
  }

  lemma TrimKeepsSuffix(y: System, z: System, n: nat)
    requires Suffix(y) && z.log == y.log && z.store.stream == Unacked(y.store.stream, n)
    requires z.acked == Max(y.acked, n) && z.capped == y.capped
    ensures Suffix(z)
    ensures forall f | f in z.store.stream :: f in y.store.stream
  {
    var k := AboveIsSuffix(y.store.stream, n);
    if n == 0 { k := 0; }
    DropEnds(y.log, y.store.stream, k, y, z);
  }

  lemma ReconcileKeeps(y: System, s: Session, lastAck: nat)
    requires Inv(y) && s !in y.ready
    ensures Inv(Reconciling(y, s, lastAck)) == Inv(y)
  {
    var z := Reconciling(y, s, lastAck);
    if Owns(y.store, s) {
      if lastAck > y.store.counter {
        forall i | 0 <= i < |z.log| ensures z.log[i].num <= z.acked { assert z.log[i] in y.log; }
      } else {
        TrimKeepsSuffix(y, z, lastAck);
      }
    }
  }

  ghost predicate Ours(y: System, s: Session, f: Frame) {
    f.num in y.reserved && y.reserved[f.num] == s && Appendable(y.store, s, f.num)
  }

  lemma PushSessions(y: System, s: Session, f: Frame)
    requires Inv(y) && Ours(y, s, f)
    ensures Sessions(Pushing(y, f))
  {
  }

  lemma PushBounds(y: System, s: Session, f: Frame)
    requires Inv(y) && Ours(y, s, f)
    ensures Bounds(Pushing(y, f))
  {
  }

  lemma PushSuffix(y: System, s: Session, f: Frame)
    requires Inv(y) && Ours(y, s, f)
    ensures Suffix(Pushing(y, f))
  {
    forall i | 0 <= i < |y.log| ensures y.log[i].num < f.num { assert y.log[i] in y.log; }
    PushEnds(y.log, y.store.stream, f, y.acked, y.capped);
  }

  lemma PushKeeps(y: System, s: Session, f: Frame)
    requires Inv(y) && Ours(y, s, f)
    ensures Inv(Pushing(y, f))
  {
    PushSessions(y, s, f);
    PushBounds(y, s, f);
    PushSuffix(y, s, f);
  }

  lemma CapKeeps(y: System, drop: nat)
    requires Inv(y)
    ensures Inv(Capping(y, drop))
  {
    var z := Capping(y, drop);
    if 0 < drop && DropAllowed(|y.store.stream|, drop) {
      DropEnds(y.log, y.store.stream, drop, y, z);
    }
  }

  lemma AppendIsPushAndCap(y: System, s: Session, f: Frame, drop: nat)
    requires Appendable(y.store, s, f.num)
    ensures Appending(y, s, f, drop) == Capping(Pushing(y, f), drop)
  {
  }

  lemma AppendKeeps(y: System, s: Session, f: Frame, drop: nat)
    requires Inv(y) && f.num in y.reserved && y.reserved[f.num] == s
    ensures Inv(Appending(y, s, f, drop))
  {
    if Appendable(y.store, s, f.num) {
      PushKeeps(y, s, f);
      CapKeeps(Pushing(y, f), drop);
      AppendIsPushAndCap(y, s, f, drop);
    }
  }

  lemma StepKeeps(y: System, e: Event)
    requires Inv(y)
    ensures Inv(Next(y, e)) == Inv(y)
  {
    match e
    case Reconcile(s, lastAck) => if s !in y.ready { ReconcileKeeps(y, s, lastAck); }
    case Append(s, num, data, drop) =>
      if num in y.reserved && y.reserved[num] == s { AppendKeeps(y, s, Entry(num, data), drop); }
    case Observe(ack) => if ack <= y.store.counter { TrimKeepsSuffix(y, Next(y, e), ack); }
    case Reserve(s) => ReserveKeeps(y, s);
    case _ =>
  }

  lemma ReserveKeeps(y: System, s: Session)
    requires Inv(y)
    ensures Inv(Next(y, Reserve(s)))
  {
    forall i | 0 <= i < |y.issued| ensures y.issued[i] <= y.store.counter { assert y.issued[i] in y.issued; }
  }

  lemma {:induction false} RunKeeps(y: System, es: seq<Event>)
    requires Inv(y)
    ensures Inv(Run(y, es)) == Inv(y)
    decreases |es|
  {
    if es == [] {
    } else {
      StepKeeps(y, es[0]);
      RunKeeps(Next(y, es[0]), es[1..]);
    }
  }

  /** Over every interleaving, the numbers handed out strictly increase, across all sessions, and the next
      one follows the last one handed out or the last bootstrap floor: none is skipped. */
  lemma IssuedNumbersIncrease(es: seq<Event>)
    ensures var y := Run(Init(), es);
            && StrictlyIncreasing(y.issued)
            && y.store.counter == Max(y.floor, if y.issued == [] then 0 else y.issued[|y.issued| - 1])
  {
    RunKeeps(Init(), es);
    var y := Run(Init(), es);
    assert y.issued != [] ==> y.issued[|y.issued| - 1] in y.issued;
  }

  /** In every reachable state the stream is ascending, at most the counter, above the last bootstrap
      floor, and a suffix of everything ever appended that misses nothing above the largest
      acknowledgement and the cap. What the cap took had STREAM_MAXLEN newer frames behind it. */
  lemma StreamIsUnackedSuffix(es: seq<Event>)
    ensures var y := Run(Init(), es);
            && Ascending(y.store.stream)
            && (forall f | f in y.store.stream :: y.floor < f.num <= y.store.counter)
            && (exists k: nat :: k <= |y.log| && y.store.stream == y.log[k..])
            && (forall f | f in y.log && f.num > Max(y.acked, y.capped) :: f in y.store.stream)
            && (forall i | 0 <= i < |y.log| && y.log[i].num > y.acked && i + STREAM_MAXLEN >= |y.log| ::
                  y.log[i] in y.store.stream)
  {
    RunKeeps(Init(), es);
    var y := Run(Init(), es);
    SuffixHolds(y);
    CapTakesOnlyOldFrames(y.log, y.store.stream, y.acked, y.capped);
  }

  lemma SuffixHolds(y: System)
    requires Inv(y)
    ensures Ascending(y.store.stream)
    ensures forall f | f in y.store.stream :: y.floor < f.num <= y.store.counter
    ensures exists k: nat :: k <= |y.log| && y.store.stream == y.log[k..]
    ensures forall f | f in y.log && f.num > Max(y.acked, y.capped) :: f in y.store.stream
  {
    var cut := |y.log| - |y.store.stream|;
    assert cut <= |y.log| && y.store.stream == y.log[cut..];
    forall f | f in y.store.stream ensures f.num <= y.store.counter { assert f in y.log; }
    forall f | f in y.log && f.num > Max(y.acked, y.capped) ensures f in y.store.stream {
      var i :| 0 <= i < |y.log| && y.log[i] == f;
      assert i >= cut;
      assert y.store.stream[i - cut] == f;
    }
  }

  lemma CapTakesOnlyOldFrames(log: seq<Frame>, stream: seq<Frame>, acked: nat, capped: nat)
    requires EndsWith(log, stream) && FrontGone(log, stream, acked, capped)
    ensures forall i | 0 <= i < |log| && log[i].num > acked && i + STREAM_MAXLEN >= |log| :: log[i] in stream
  {
    var cut := |log| - |stream|;
    forall i | 0 <= i < |log| && log[i].num > acked && i + STREAM_MAXLEN >= |log| ensures log[i] in stream {
      assert stream[i - cut] == log[i];
    }
  }

  // ---- Exclusion and fencing ----

  /** Nobody takes the lease from its holder: until it expires or the holder releases it, whatever the other
      sessions try, the holder owns it and no one else does. */
  lemma {:induction false} HolderKeepsLease(y: System, s: Session, es: seq<Event>)
    requires Owns(y.store, s) && Expire !in es && Release(s) !in es
    ensures Owns(Run(y, es).store, s) && forall other | Owns(Run(y, es).store, other) :: other == s
    decreases |es|
  {
    if es == [] {
    } else {
      HolderKeepsLease(Next(y, es[0]), s, es[1..]);
    }
  }

  /** A free lease goes to the first session that asks, and stays with it. */
  lemma FirstComerHoldsLease(y: System, s: Session, es: seq<Event>)
    requires y.store.lock.None? && s !in y.used && Expire !in es && Release(s) !in es
    ensures Owns(Run(Next(y, Acquire(s)), es).store, s)
  {
    HolderKeepsLease(Next(y, Acquire(s)), s, es);
  }

  /** Nobody can append `n` any more: it is not waiting, or waits with a session that lost its lease,
      or a larger number of the same session overtook it. */
  ghost predicate Dead(y: System, n: nat) {
    && n <= y.store.counter
    && (n in y.reserved ==> y.reserved[n] in y.used && y.reserved[n] in y.ready
                            && !Appendable(y.store, y.reserved[n], n))
  }

  ghost predicate NotLogged(y: System, n: nat) { forall f | f in y.log :: f.num != n }

  lemma {:induction false} DeadForever(y: System, n: nat, es: seq<Event>)
    requires Dead(y, n) && NotLogged(y, n)
    ensures Dead(Run(y, es), n) == Dead(y, n) && NotLogged(Run(y, es), n) == NotLogged(y, n)
    decreases |es|
  {
    if es == [] {
    } else {
      DeadForever(Next(y, es[0]), n, es[1..]);
    }
  }

  /** A number reserved by a session that has lost the lease since, to expiry, release or another
      session, never becomes a stream entry, whatever happens afterwards. Neither does one that a later
      reservation of the same session overtook. */
  lemma StaleReservationNeverAppended(es: seq<Event>, n: nat, more: seq<Event>)
    requires var y := Run(Init(), es);
             n in y.reserved && (!Owns(y.store, y.reserved[n]) || n <= y.store.lastId)
    ensures NotLogged(Run(Run(Init(), es), more), n)
    ensures forall f | f in Run(Run(Init(), es), more).store.stream :: f.num != n
  {
    var y := Run(Init(), es);
    RunKeeps(Init(), es);
    DeadForever(y, n, more);
    RunKeeps(y, more);
    var z := Run(y, more);
    forall f | f in z.store.stream ensures f in z.log {}
  }

  // ---- Replay after Hello ----

  /** What the lease holder may still append is above `ack`. */
  ghost predicate WaitingAbove(y: System, ack: nat) {
    forall n | n in y.reserved && Appendable(y.store, y.reserved[n], n) :: n > ack
  }

  /** Every acknowledgement that is taken lies below what the lease holder has yet to append. */
  ghost predicate SafeAcks(y: System, es: seq<Event>)
    decreases |es|
  {
    es == [] || (SafeAck(y, es[0]) && SafeAcks(Next(y, es[0]), es[1..]))
  }

  ghost predicate SafeAck(y: System, e: Event) {
    e.Observe? && e.ack <= y.store.counter ==> WaitingAbove(y, e.ack)
  }

  /** Nothing waiting with the owner is below the trimmed part, so no append lands below it. */
  ghost predicate Clean(y: System) {
    && y.capped <= Max(y.store.lastId, y.floor)
    && y.acked <= y.store.counter
    && (forall n | n in y.reserved && y.store.lock == Some(y.reserved[n]) ::
          n > y.acked || n <= y.store.lastId)
    && y.store.stream == Above(y.log, Max(y.acked, y.capped))
  }

  lemma CleanPush(y: System, s: Session, f: Frame)
    requires Inv(y) && Clean(y) && Ours(y, s, f)
    ensures Clean(Pushing(y, f))
  {
    var m := Max(y.acked, y.capped);
    AboveConcat(y.log, [f], m);
    assert f.num > m;
    assert Above([f], m) == [f] + Above([f][1..], m);
  }

  lemma CapAbove(log: seq<Frame>, stream: seq<Frame>, m: nat, drop: nat)
    requires stream == Above(log, m) && Ascending(stream) && 0 < drop <= |stream|
    ensures stream[drop - 1] in log
    ensures stream[drop..] == Above(log, Max(m, stream[drop - 1].num))
  {
    AboveMember(log, m, stream[drop - 1]);
    AboveTwice(log, m, stream[drop - 1].num);
    AboveAt(stream, drop);
  }

  lemma CleanCap(y: System, drop: nat)
    requires Clean(y) && Ascending(y.store.stream)
    requires forall f | f in y.log :: f.num <= Max(y.store.lastId, y.floor)
    ensures Clean(Capping(y, drop))
  {
    var st := y.store.stream;
    if 0 < drop && DropAllowed(|st|, drop) {
      CapAbove(y.log, st, Max(y.acked, y.capped), drop);
    }
  }

  lemma CleanAppend(y: System, s: Session, f: Frame, drop: nat)
    requires Inv(y) && Clean(y) && f.num in y.reserved && y.reserved[f.num] == s
    ensures Clean(Appending(y, s, f, drop))
  {
    if Appendable(y.store, s, f.num) {
      PushKeeps(y, s, f);
      CleanPush(y, s, f);
      SuffixHolds(Pushing(y, f));
      CleanCap(Pushing(y, f), drop);
      AppendIsPushAndCap(y, s, f, drop);
    }
  }

  lemma CleanTrim(y: System, n: nat)
    requires Clean(y)
    ensures Unacked(y.store.stream, n) == Above(y.log, Max(Max(y.acked, n), y.capped))
  {
    AboveTwice(y.log, Max(y.acked, y.capped), n);
  }

  lemma CleanReconcile(y: System, s: Session, lastAck: nat)
    requires Inv(y) && Clean(y) && s !in y.ready
    ensures Clean(Reconciling(y, s, lastAck))
  {
    var z := Reconciling(y, s, lastAck);
    if Owns(y.store, s) {
      CleanTrim(y, lastAck);
      if lastAck > y.store.counter { AboveNone(y.log, Max(z.acked, z.capped)); }
    }
  }

  lemma CleanStep(y: System, e: Event)
    requires Inv(y) && Clean(y) && SafeAck(y, e)
    ensures Clean(Next(y, e))
  {
    match e
    case Reconcile(s, lastAck) => if s !in y.ready { CleanReconcile(y, s, lastAck); }
    case Append(s, num, data, drop) =>
      if num in y.reserved && y.reserved[num] == s { CleanAppend(y, s, Entry(num, data), drop); }
    case Observe(ack) => if ack <= y.store.counter { CleanTrim(y, ack); }
    case _ =>
  }

  lemma {:induction false} CleanRun(y: System, es: seq<Event>)
    requires Inv(y) && Clean(y) && SafeAcks(y, es)
    ensures Inv(Run(y, es)) == Inv(y) && Clean(Run(y, es)) == Clean(y)
    decreases |es|
  {
    if es == [] {
    } else {
      StepKeeps(y, es[0]);
      CleanStep(y, es[0]);
      CleanRun(Next(y, es[0]), es[1..]);
    }
  }

  /** What a new session replays after its reconcile is exactly the appended frames above the device's
      acknowledgement, all earlier ones and the cap: in order, none missing, none twice. */
  lemma ReplayAfterReconcileIsExact(es: seq<Event>, s: Session, lastAck: nat)
    requires SafeAcks(Init(), es)
    requires s !in Run(Init(), es).ready && Owns(Run(Init(), es).store, s)
    ensures var y := Next(Run(Init(), es), Reconcile(s, lastAck));
            && Unacked(y.store.stream, lastAck) == Above(y.log, Max(y.acked, y.capped))
            && lastAck <= y.acked
  {
    CleanRun(Init(), es);
    ReplayAll(Run(Init(), es), s, lastAck);
  }

  lemma ReplayAll(y: System, s: Session, lastAck: nat)
    requires Inv(y) && Clean(y) && s !in y.ready && Owns(y.store, s)
    ensures var z := Next(y, Reconcile(s, lastAck));
            && Unacked(z.store.stream, lastAck) == Above(z.log, Max(z.acked, z.capped))
            && lastAck <= z.acked
  {
    CleanReconcile(y, s, lastAck);
    var z := Reconciling(y, s, lastAck);
    UnackedAgain(z.log, Max(z.acked, z.capped), lastAck);
  }

  lemma UnackedAgain(log: seq<Frame>, m: nat, n: nat)
    requires n <= m
    ensures Unacked(Above(log, m), n) == Above(log, m)
  {
    AboveTwice(log, m, n);
  }

  /** No stream entry is one that was acknowledged already. */
  ghost predicate NothingAcked(y: System) { forall f | f in y.store.stream :: f.num > y.acked }

  lemma CleanMeans(y: System)
    requires Clean(y)
    ensures NothingAcked(y) && WaitingAbove(y, y.acked)
  {
    var m := Max(y.acked, y.capped);
    forall f | f in y.store.stream ensures f.num > m { AboveMember(y.log, m, f); }
  }

  lemma ObserveTrims(y: System, ack: nat)
    requires Clean(y) && ack <= y.store.counter
    ensures NothingAcked(Next(y, Observe(ack)))
  {
    CleanTrim(y, ack);
    var m := Max(Max(y.acked, ack), y.capped);
    forall f | f in Unacked(y.store.stream, ack) ensures f.num > m { AboveMember(y.log, m, f); }
  }

  lemma AppendIsSafe(z: System, s: Session, num: nat, data: string, drop: nat)
    requires NothingAcked(z)
    requires num in z.reserved && Appendable(z.store, z.reserved[num], num) ==> num > z.acked
    ensures NothingAcked(Next(z, Append(s, num, data, drop)))
  {
  }

  lemma AppendIsUnsafe(z: System, num: nat)
    requires num in z.reserved && Appendable(z.store, z.reserved[num], num) && num <= z.acked
    ensures !NothingAcked(Next(z, Append(z.reserved[num], num, "", 0)))
  {
    var t := Next(z, Append(z.reserved[num], num, "", 0));
    assert t.store.stream[|t.store.stream| - 1].num == num;
  }

  ghost predicate AppendsStaySafe(z: System) {
    forall s, num, data, drop :: NothingAcked(Next(z, Append(s, num, data, drop)))
  }

  lemma SafeExactly(z: System)
    requires NothingAcked(z)
    ensures AppendsStaySafe(z) <==> WaitingAbove(z, z.acked)
  {
    if WaitingAbove(z, z.acked) {
      forall s, num, data, drop ensures NothingAcked(Next(z, Append(s, num, data, drop))) {
        AppendIsSafe(z, s, num, data, drop);
      }
    } else {
      var n: nat :| n in z.reserved && Appendable(z.store, z.reserved[n], n) && n <= z.acked;
      AppendIsUnsafe(z, n);
    }
  }

  lemma SafeContinues(y: System, ack: nat, more: seq<Event>)
    requires Inv(y) && Clean(y) && ack <= y.store.counter && WaitingAbove(y, ack)
    requires SafeAcks(Next(y, Observe(ack)), more)
    ensures NothingAcked(Run(Next(y, Observe(ack)), more))
  {
    StepKeeps(y, Observe(ack));
    CleanStep(y, Observe(ack));
    CleanRun(Next(y, Observe(ack)), more);
    CleanMeans(Run(Next(y, Observe(ack)), more));
  }

  /** An acknowledgement moves only the watermark and the stream. */
  lemma ObserveWaits(y: System, ack: nat)
    requires Clean(y) && ack <= y.store.counter
    ensures var z := Next(y, Observe(ack)); WaitingAbove(z, z.acked) <==> WaitingAbove(y, ack)
  {
    var z := Next(y, Observe(ack));
    assert z.reserved == y.reserved && z.store.lock == y.store.lock && z.store.lastId == y.store.lastId;
    assert forall n | n in y.reserved :: Appendable(z.store, z.reserved[n], n) == Appendable(y.store, y.reserved[n], n);
  }

  lemma UnsafeAckContinues(y: System, ack: nat)
    requires Clean(y) && ack <= y.store.counter && !WaitingAbove(y, ack)
    ensures var z := Next(y, Observe(ack)); exists more :: SafeAcks(z, more) && !NothingAcked(Run(z, more))
  {
    var z := Next(y, Observe(ack));
    ObserveTrims(y, ack);
    ObserveWaits(y, ack);
    SafeExactly(z);
    UnsafeContinues(z);
  }

  /** Exactly when an acknowledgement is safe: no continuation ever has an acknowledged frame in the stream,
      if and only if every number the lease holder still has to append lies above it. */
  lemma AckIsSafeExactly(es: seq<Event>, ack: nat)
    requires SafeAcks(Init(), es) && ack <= Run(Init(), es).store.counter
    ensures var y := Run(Init(), es); var z := Next(y, Observe(ack));
            WaitingAbove(y, ack) <==> forall more | SafeAcks(z, more) :: NothingAcked(Run(z, more))
  {
    CleanRun(Init(), es);
    AckExactly(Run(Init(), es), ack);
  }

  lemma AckExactly(y: System, ack: nat)
    requires Inv(y) && Clean(y) && ack <= y.store.counter
    ensures var z := Next(y, Observe(ack));
            WaitingAbove(y, ack) <==> forall more | SafeAcks(z, more) :: NothingAcked(Run(z, more))
  {
    if WaitingAbove(y, ack) {
      var z := Next(y, Observe(ack));
      forall more | SafeAcks(z, more) ensures NothingAcked(Run(z, more)) { SafeContinues(y, ack, more); }
    } else {
      UnsafeAckContinues(y, ack);
    }
  }

  lemma UnsafeContinues(z: System)
    requires !AppendsStaySafe(z)
    ensures exists more :: SafeAcks(z, more) && !NothingAcked(Run(z, more))
  {
    var s, num, data, drop :| !NothingAcked(Next(z, Append(s, num, data, drop)));
    var e := Append(s, num, data, drop);
    assert [e][1..] == [];
    assert Run(z, [e]) == Run(Next(z, e), []) && SafeAcks(z, [e]);
  }

  /** At no moment of the run can the next append put an acknowledged frame into the stream. */
  ghost predicate SafeThroughout(y: System, es: seq<Event>) {
    forall n: nat | n <= |es| :: AppendsStaySafe(Run(y, es[..n]))
  }

  lemma {:induction false} SafeRunExactly(y: System, es: seq<Event>)
    requires Inv(y) && Clean(y)
    ensures SafeAcks(y, es) <==> SafeThroughout(y, es)
    decreases |es|
  {
    CleanMeans(y);
    SafeExactly(y);
    assert es[..0] == [];
    if es == [] {
    } else {
      var z, rest := Next(y, es[0]), es[1..];
      forall n: nat | 0 < n <= |es| ensures Run(y, es[..n]) == Run(z, rest[..n - 1]) {
        assert es[..n][0] == es[0] && es[..n][1..] == rest[..n - 1];
      }
      if SafeAck(y, es[0]) {
        StepKeeps(y, es[0]);
        CleanStep(y, es[0]);
        SafeRunExactly(z, rest);
        if m: nat :| m <= |rest| && !AppendsStaySafe(Run(z, rest[..m])) {
          assert !AppendsStaySafe(Run(y, es[..m + 1]));
        }
      } else {
        ObserveTrims(y, es[0].ack);
        ObserveWaits(y, es[0].ack);
        SafeExactly(z);
        assert rest[..0] == [];
        assert !AppendsStaySafe(Run(y, es[..1]));
      }
    }
  }

  /** The runs on which replay is exact are the runs that never let an append below an acknowledgement. */
  lemma AcksAreSafeExactly(es: seq<Event>)
    ensures SafeAcks(Init(), es) <==> SafeThroughout(Init(), es)
  {
    SafeRunExactly(Init(), es);
  }

  /** Without that condition the exact form can fail: a number that is reserved but not yet
      appended can be acknowledged, and its frame then enters the stream below the acknowledgement. */
  lemma PrematureAckLeavesAckedFrame(s: Session, data: string)
    ensures var y := Next(Next(Next(Init(), Acquire(s)), Reconcile(s, 0)), Reserve(s));
            var z := Next(Next(y, Observe(1)), Append(s, 1, data, 0));
            z.store.stream == [Entry(1, data)] && z.acked == 1
  {
    var y := Next(Next(Next(Init(), Acquire(s)), Reconcile(s, 0)), Reserve(s));
    var z := Next(y, Observe(1));
    assert 1 in z.reserved && z.store.stream == [];
  }
}
