/** The process-local outbox store of the hub, which is meant to mirror the Redis scripts. It has no check on
    the ids it appends, and it trims by popping the front. */
module LocalStore {
  import opened Numbered
  import opened HubStore

  /** The in-process form of an append: no id check, an exact cap. Its store has no last id; the model keeps
      one to compare with. */
  function Pushed(st: Store, s: Session, f: Frame): Store {
    if !Owns(st, s) then st
    else st.(stream := Newest(st.stream + [f], STREAM_MAXLEN), lastId := Max(st.lastId, f.num))
  }

  function Reset(st: Store, s: Session, lastAck: nat): Store {
    if !Owns(st, s) then st
    else if lastAck > st.counter then st.(counter := lastAck, stream := [], lastId := 0)
    else st.(stream := Trim(st.stream, lastAck))
  }

  function Popped(st: Store, ack: nat): Store {
    if ack <= st.counter then st.(stream := Trim(st.stream, ack)) else st
  }

  function Excess(len: nat): nat { if len > STREAM_MAXLEN then len - STREAM_MAXLEN else 0 }

  class InMemoryOutbox {
    var lock: Option<Session>
    var counter: nat
    var buffer: seq<Frame>
    ghost var lastId: nat

    ghost function Model(): Store
      reads this
    {
      Store(lock, counter, buffer, lastId)
    }

    constructor ()
      ensures Model() == LocalInit().store
    {
      lock, counter, buffer, lastId := None, 0, [], 0;
    }

    /** Both trim loops. */
    method PopFront(ack: nat)
      modifies this`buffer
      ensures buffer == Trim(old(buffer), ack)
    {
      while buffer != [] && buffer[0].num <= ack
        invariant Trim(buffer, ack) == Trim(old(buffer), ack)
        decreases |buffer|
      {
        buffer := buffer[1..];
      }
    }

    method ReconcileOnHello(s: Session, lastAck: nat) returns (r: Reply<nat>)
      modifies this`counter, this`buffer, this`lastId
      ensures Model() == Reset(old(Model()), s, lastAck)
      ensures r == if Owns(old(Model()), s) then Done(Max(old(counter), lastAck)) else NotOwner
    {
      if lock != Some(s) { return NotOwner; }
      if lastAck > counter {
        counter, buffer, lastId := lastAck, [], 0;
        return Done(lastAck);
      }
      PopFront(lastAck);
      r := Done(counter);
    }

    method XaddFrame(s: Session, num: nat, data: string) returns (r: Reply<()>)
      modifies this`buffer, this`lastId
      ensures Model() == Pushed(old(Model()), s, Entry(num, data))
      ensures r == if Owns(old(Model()), s) then Done(()) else NotOwner
    {
      if lock != Some(s) { return NotOwner; }
      buffer, lastId := buffer + [Entry(num, data)], Max(lastId, num);
      ghost var full := buffer;
      while |buffer| > STREAM_MAXLEN
        invariant |buffer| <= |full| && buffer == full[|full| - |buffer|..]
        invariant |buffer| >= STREAM_MAXLEN || buffer == full
        invariant lastId == Max(old(lastId), num)
        decreases |buffer|
      {
        buffer := buffer[1..];
      }
      r := Done(());
    }

    method ObserveAck(ack: nat)
      modifies this`buffer
      ensures Model() == Popped(old(Model()), ack)
    {
      if ack > counter { return; }
      PopFront(ack);
    }
  }

  /** The process-local store keeps the same frames as the Redis stream with an exact cap, exactly when
      the owner's append of a new number comes in order. */
  lemma AppendMirrorsRedis(st: Store, s: Session, f: Frame)
    requires Owns(st, s) && forall g | g in st.stream :: g.num != f.num
    ensures Pushed(st, s, f) == Appended(st, s, f, Excess(|st.stream| + 1))
            <==> f.num > st.lastId
  {
    var kept := Newest(st.stream + [f], STREAM_MAXLEN);
    assert kept[|kept| - 1] == f && f in kept;
  }

  datatype Local = Local(store: Store, used: set<Session>, ready: set<Session>, reserved: map<nat, Session>)

  function LocalInit(): Local { Local(Store(None, 0, [], 0), {}, {}, map[]) }

  function LocalNext(l: Local, e: Event): Local {
    match e
    case Acquire(s) =>
      var st := Acquired(l.store, s);
      if s in l.used then l else l.(store := st, used := if Owns(st, s) then l.used + {s} else l.used)
    case Renew(_) => l
    case Release(s) => l.(store := Released(l.store, s))
    case Expire => l.(store := l.store.(lock := None))
    case Reconcile(s, lastAck) =>
      if s in l.ready then l
      else l.(store := Reset(l.store, s, lastAck), ready := if Owns(l.store, s) then l.ready + {s} else l.ready)
    case Reserve(s) =>
      if s !in l.ready then l
      else l.(store := Incremented(l.store, s),
              reserved := if Owns(l.store, s) then l.reserved[l.store.counter + 1 := s] else l.reserved)
    case Append(s, num, data, _) =>
      if num in l.reserved && l.reserved[num] == s
      then l.(store := Pushed(l.store, s, Entry(num, data)), reserved := l.reserved - {num}) else l
    case Observe(ack) => l.(store := Popped(l.store, ack))
  }

  function LocalRun(l: Local, es: seq<Event>): Local
    decreases |es|
  {
    if es == [] then l else LocalRun(LocalNext(l, es[0]), es[1..])
  }

  ghost predicate HasNum(stream: seq<Frame>, n: nat) { exists i | 0 <= i < |stream| :: stream[i].num == n }

  ghost predicate Distinct(stream: seq<Frame>) {
    forall i, j | 0 <= i < j < |stream| :: stream[i].num != stream[j].num
  }

  ghost predicate Issued(stream: seq<Frame>, counter: nat) {
    forall i | 0 <= i < |stream| :: 0 < stream[i].num <= counter
  }

  ghost predicate Waiting(reserved: map<nat, Session>, stream: seq<Frame>, counter: nat) {
    forall n | n in reserved :: 0 < n <= counter && !HasNum(stream, n)
  }

  /** Numbers are positive, at most the counter and all different, also from those not appended yet. */
  ghost predicate LocalInv(l: Local) {
    && Issued(l.store.stream, l.store.counter) && Distinct(l.store.stream)
    && Waiting(l.reserved, l.store.stream, l.store.counter)
  }

  /** Popping the acknowledged front is the same as filtering by id, whatever the acknowledgement. */
  ghost predicate TrimsRight(stream: seq<Frame>) {
    forall ack: nat :: Trim(stream, ack) == Unacked(stream, ack)
  }

  /** Where the trimmed buffer begins. */
  function Cut(es: seq<Frame>, n: nat): int { |es| - |Trim(es, n)| }

  lemma {:induction false} TrimIsSuffix(es: seq<Frame>, n: nat)
    ensures 0 <= Cut(es, n) <= |es| && Trim(es, n) == es[Cut(es, n)..]
    ensures forall i | 0 <= i < Cut(es, n) :: es[i].num <= n
  {
    if es == [] || es[0].num > n {
    } else {
      TrimIsSuffix(es[1..], n);
    }
  }

  /** The two ways of trimming agree for every acknowledgement if and only if the buffer ascends. */
  lemma TrimsRightExactly(stream: seq<Frame>)
    requires Distinct(stream) && forall i | 0 <= i < |stream| :: 0 < stream[i].num
    ensures TrimsRight(stream) <==> Ascending(stream)
  {
    if Ascending(stream) {
      forall ack: nat ensures Trim(stream, ack) == Unacked(stream, ack) {
        TrimIsAbove(stream, ack);
        AboveAll(stream, 0);
      }
    } else {
      var i, j :| 0 <= i < j < |stream| && stream[i].num >= stream[j].num;
      var ack := stream[j].num;
      TrimIsSuffix(stream, ack);
      var k := Cut(stream, ack);
      assert stream[k..][j - k] == stream[j];
      AboveMember(stream, ack, stream[j]);
      assert Trim(stream, ack) != Unacked(stream, ack);
    }
  }

  /** What is appended is above everything still buffered. */
  ghost predicate AboveBuffer(l: Local, e: Event) {
    e.Append? && e.num in l.reserved && l.reserved[e.num] == e.s && Owns(l.store, e.s)
    ==> forall i | 0 <= i < |l.store.stream| :: l.store.stream[i].num < e.num
  }

  ghost predicate InOrderAppends(l: Local, es: seq<Event>)
    decreases |es|
  {
    es == [] || (AboveBuffer(l, es[0]) && InOrderAppends(LocalNext(l, es[0]), es[1..]))
  }

  lemma PushKeepsNumbers(stream: seq<Frame>, f: Frame, counter: nat, reserved: map<nat, Session>)
    requires Issued(stream, counter) && Distinct(stream) && Waiting(reserved, stream, counter) && f.num in reserved
    ensures Issued(stream + [f], counter) && Distinct(stream + [f])
    ensures Waiting(reserved - {f.num}, stream + [f], counter)
  {
    assert forall i | 0 <= i < |stream| :: HasNum(stream, stream[i].num);
    forall n | n in reserved && n != f.num ensures !HasNum(stream + [f], n) {
      forall i | 0 <= i < |stream| + 1 ensures (stream + [f])[i].num != n {
        assert i < |stream| ==> (stream + [f])[i] == stream[i];
      }
    }
  }

  /** Capping at two frames or more leaves the last two, so it hides no descent at the end. */
  lemma PushAscends(stream: seq<Frame>, f: Frame, max: nat)
    requires max >= 2 && Ascending(stream) && !HasNum(stream, f.num)
    ensures Ascending(Newest(stream + [f], max)) <==> forall i | 0 <= i < |stream| :: stream[i].num < f.num
  {
    var kept := Newest(stream + [f], max);
    if stream != [] {
      assert kept[|kept| - 1] == f && kept[|kept| - 2] == stream[|stream| - 1];
      assert HasNum(stream, stream[|stream| - 1].num);
    }
  }

  lemma LocalTrimKeeps(l: Local, n: nat)
    requires LocalInv(l)
    ensures LocalInv(l.(store := l.store.(stream := Trim(l.store.stream, n)))) == LocalInv(l)
    ensures Ascending(l.store.stream) ==> Ascending(Trim(l.store.stream, n))
  {
    TrimIsSuffix(l.store.stream, n);
  }

  lemma LocalAppendKeeps(l: Local, s: Session, f: Frame)
    requires LocalInv(l) && f.num in l.reserved && Owns(l.store, s)
    ensures var st := Pushed(l.store, s, f);
            && LocalInv(l.(store := st, reserved := l.reserved - {f.num}))
            && (Ascending(l.store.stream) ==>
                  (Ascending(st.stream) <==> forall i | 0 <= i < |l.store.stream| :: l.store.stream[i].num < f.num))
  {
    var longer := l.store.stream + [f];
    PushKeepsNumbers(l.store.stream, f, l.store.counter, l.reserved);
    var k := if |longer| <= STREAM_MAXLEN then 0 else |longer| - STREAM_MAXLEN;
    assert Newest(longer, STREAM_MAXLEN) == longer[k..];
    if Ascending(l.store.stream) { PushAscends(l.store.stream, f, STREAM_MAXLEN); }
  }

  lemma LocalResetKeeps(l: Local, s: Session, lastAck: nat)
    requires LocalInv(l)
    ensures LocalInv(l.(store := Reset(l.store, s, lastAck))) == LocalInv(l)
    ensures Ascending(l.store.stream) ==> Ascending(Reset(l.store, s, lastAck).stream)
  {
    LocalTrimKeeps(l, lastAck);
  }

  lemma LocalReserveKeeps(l: Local, s: Session)
    requires LocalInv(l)
    ensures LocalInv(LocalNext(l, Reserve(s)))
  {
    assert forall i | 0 <= i < |l.store.stream| :: l.store.stream[i].num <= l.store.counter;
  }

  lemma LocalQuietKeeps(l: Local, e: Event)
    requires LocalInv(l) && !e.Append?
    ensures LocalInv(LocalNext(l, e)) == LocalInv(l)
    ensures Ascending(l.store.stream) ==> Ascending(LocalNext(l, e).store.stream)
  {
    match e
    case Observe(ack) => LocalTrimKeeps(l, ack);
    case Reconcile(s, lastAck) => LocalResetKeeps(l, s, lastAck);
    case Reserve(s) => LocalReserveKeeps(l, s);
    case _ =>
  }

  lemma LocalStepKeeps(l: Local, e: Event)
    requires LocalInv(l)
    ensures LocalInv(LocalNext(l, e)) == LocalInv(l)
    ensures Ascending(l.store.stream) ==> (Ascending(LocalNext(l, e).store.stream) <==> AboveBuffer(l, e))
  {
    if !e.Append? {
      LocalQuietKeeps(l, e);
    } else if e.num in l.reserved && l.reserved[e.num] == e.s && Owns(l.store, e.s) {
      LocalAppendKeeps(l, e.s, Entry(e.num, e.data));
    }
  }

  ghost predicate TrimsRightThroughout(l: Local, es: seq<Event>) {
    forall n: nat | n <= |es| :: TrimsRight(LocalRun(l, es[..n]).store.stream)
  }

  lemma {:induction false} LocalTrimsExactly(l: Local, es: seq<Event>)
    requires LocalInv(l) && Ascending(l.store.stream)
    ensures TrimsRightThroughout(l, es) <==> InOrderAppends(l, es)
    decreases |es|
  {
    TrimsRightExactly(l.store.stream);
    assert es[..0] == [];
    if es == [] {
    } else {
      var t, rest := LocalNext(l, es[0]), es[1..];
      LocalStepKeeps(l, es[0]);
      TrimsRightExactly(t.store.stream);
      forall n: nat | 0 < n <= |es| ensures LocalRun(l, es[..n]) == LocalRun(t, rest[..n - 1]) {
        assert es[..n][0] == es[0] && es[..n][1..] == rest[..n - 1];
      }
      assert rest[..0] == [];
      if AboveBuffer(l, es[0]) {
        LocalTrimsExactly(t, rest);
        if m: nat :| m <= |rest| && !TrimsRight(LocalRun(t, rest[..m]).store.stream) {
          assert !TrimsRight(LocalRun(l, es[..m + 1]).store.stream);
        }
      } else {
        assert !TrimsRight(LocalRun(l, es[..1]).store.stream);
      }
    }
  }

  /** Its trim loop, which only looks at the front, agrees with trimming by id throughout a run if and only if
      every append of the run was above what was still buffered. */
  lemma TrimIsRightExactly(es: seq<Event>)
    ensures TrimsRightThroughout(LocalInit(), es) <==> InOrderAppends(LocalInit(), es)
  {
    LocalTrimsExactly(LocalInit(), es);
  }

  /** Two sends that overtake each other between reserving and appending: the process-local buffer becomes
      2, 1, and an acknowledgement of 1 leaves frame 1 in it. Redis refuses the second append. */
  lemma OvertakingAppendsDiffer(s: Session, data: string)
    ensures var l := LocalNext(LocalNext(LocalNext(LocalNext(LocalInit(), Acquire(s)), Reconcile(s, 0)), Reserve(s)), Reserve(s));
            var local := LocalNext(LocalNext(l, Append(s, 2, data, 0)), Append(s, 1, data, 0)).store;
            var y := Next(Next(Next(Next(Init(), Acquire(s)), Reconcile(s, 0)), Reserve(s)), Reserve(s));
            && local.stream == [Entry(2, data), Entry(1, data)]
            && Entry(1, data) in Popped(local, 1).stream && Entry(1, data) !in Observed(local, 1).stream
            && Next(Next(y, Append(s, 2, data, 0)), Append(s, 1, data, 0)).store.stream == [Entry(2, data)]
  {
    var l := LocalNext(LocalNext(LocalNext(LocalNext(LocalInit(), Acquire(s)), Reconcile(s, 0)), Reserve(s)), Reserve(s));
    assert l.store == Store(Some(s), 2, [], 0) && l.reserved == map[1 := s, 2 := s];
    var y := Next(Next(Next(Next(Init(), Acquire(s)), Reconcile(s, 0)), Reserve(s)), Reserve(s));
    assert y.store == Store(Some(s), 2, [], 0) && y.reserved == map[1 := s, 2 := s];
    var local := LocalNext(LocalNext(l, Append(s, 2, data, 0)), Append(s, 1, data, 0)).store;
    assert [] + [Entry(2, data)] == [Entry(2, data)];
    assert [Entry(2, data)] + [Entry(1, data)] == [Entry(2, data), Entry(1, data)] == local.stream;
    AboveMember(local.stream, 1, Entry(1, data));
  }

  // ---- Whole runs of the two stores ----

  ghost predicate SameStores(l: Local, y: System) {
    l.store == y.store && l.used == y.used && l.ready == y.ready && l.reserved == y.reserved
  }

  /** The owner appends a number it reserved. */
  ghost predicate OwnAppend(y: System, e: Event) {
    e.Append? && e.num in y.reserved && y.reserved[e.num] == e.s && Owns(y.store, e.s)
  }

  /** The cap of the Redis stream is exact, as the process-local one is. */
  ghost predicate ExactCap(y: System, es: seq<Event>)
    decreases |es|
  {
    es == [] || ((OwnAppend(y, es[0]) ==> es[0].drop == Excess(|y.store.stream| + 1)) && ExactCap(Next(y, es[0]), es[1..]))
  }

  /** Every number the owner appends is above the last one appended. */
  ghost predicate NumbersInOrder(y: System, es: seq<Event>)
    decreases |es|
  {
    es == [] || ((OwnAppend(y, es[0]) ==> es[0].num > y.store.lastId) && NumbersInOrder(Next(y, es[0]), es[1..]))
  }

  lemma TrimsAgree(y: System, ack: nat)
    requires Inv(y)
    ensures Trim(y.store.stream, ack) == Unacked(y.store.stream, ack)
  {
    SuffixHolds(y);
    forall i | 0 <= i < |y.store.stream| ensures y.store.stream[i].num > 0 {
      assert y.store.stream[i] in y.store.stream;
    }
    TrimsRightExactly(y.store.stream);
    assert TrimsRight(y.store.stream);
  }

  lemma MirroredStep(l: Local, y: System, e: Event)
    requires Inv(y) && SameStores(l, y)
    requires OwnAppend(y, e) ==> e.drop == Excess(|y.store.stream| + 1)
    ensures (OwnAppend(y, e) ==> e.num > y.store.lastId) ==> SameStores(LocalNext(l, e), Next(y, e))
    ensures OwnAppend(y, e) && e.num <= y.store.lastId ==> LocalNext(l, e).store != Next(y, e).store
  {
    match e
    case Append(s, num, data, drop) =>
      if OwnAppend(y, e) {
        forall g | g in y.store.stream ensures g.num != num { assert g in y.log; }
        AppendMirrorsRedis(y.store, s, Entry(num, data));
      }
    case Observe(ack) => TrimsAgree(y, ack);
    case Reconcile(s, lastAck) => TrimsAgree(y, lastAck);
    case _ =>
  }

  ghost predicate EqualThroughout(l: Local, y: System, es: seq<Event>) {
    forall n: nat | n <= |es| :: LocalRun(l, es[..n]).store == Run(y, es[..n]).store
  }

  lemma {:induction false} MirroredExactly(l: Local, y: System, es: seq<Event>)
    requires Inv(y) && SameStores(l, y) && ExactCap(y, es)
    ensures EqualThroughout(l, y, es) <==> NumbersInOrder(y, es)
    decreases |es|
  {
    assert es[..0] == [];
    if es == [] {
    } else {
      var l', y', rest := LocalNext(l, es[0]), Next(y, es[0]), es[1..];
      MirroredStep(l, y, es[0]);
      StepKeeps(y, es[0]);
      forall n: nat | 0 < n <= |es|
        ensures LocalRun(l, es[..n]) == LocalRun(l', rest[..n - 1]) && Run(y, es[..n]) == Run(y', rest[..n - 1])
      {
        assert es[..n][0] == es[0] && es[..n][1..] == rest[..n - 1];
      }
      assert rest[..0] == [];
      if SameStores(l', y') {
        MirroredExactly(l', y', rest);
        if m: nat :| m <= |rest| && LocalRun(l', rest[..m]).store != Run(y', rest[..m]).store {
          assert LocalRun(l, es[..m + 1]).store != Run(y, es[..m + 1]).store;
        }
      } else {
        assert LocalRun(l, es[..1]).store != Run(y, es[..1]).store;
      }
    }
  }

  /** Under an exact cap, the process-local store equals the Redis store all along a run if and only if the owners
      append their numbers in order. */
  lemma RunsMirrorRedis(es: seq<Event>)
    requires ExactCap(Init(), es)
    ensures EqualThroughout(LocalInit(), Init(), es) <==> NumbersInOrder(Init(), es)
  {
    MirroredExactly(LocalInit(), Init(), es);
  }
}
