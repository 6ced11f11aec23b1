/** The buffered audit store: callers put entries into a bounded queue, one writer task batches them into
    the store, and what neither takes goes to a fallback file. Store appends are all-or-nothing; whether
    each append or file write succeeds is up to the environment. */
module AuditWriter {

  type Entry = string

  const BATCH_SIZE: nat := 100
  const QUEUE_CAPACITY: nat := 1024

  /** Where a batch of the writer ended. */
  datatype Where = InStore | InFallback | Nowhere

  datatype Batch = Batch(entries: seq<Entry>, at: Where)

  /** The writer: collecting a batch, flushing it (with the store attempts made so far), or gone. */
  datatype Writer = Collecting | Flushing(attempts: nat) | Gone

  /** One successful append to the store; `queued` when it came through the queue. */
  datatype Stored = Stored(entries: seq<Entry>, queued: bool)

  /** The queue, the batch being collected, the batches so far, the store, and all that entered the queue. */
  datatype Flow = Flow(queue: seq<Entry>, buffer: seq<Entry>, batches: seq<Batch>, store: seq<Stored>, sent: seq<Entry>)

  /** Everything taken over from callers, and what of it is in the fallback file, in fallback writes under
      way, and lost to failed ones. */
  datatype Ledger = Ledger(accepted: multiset<Entry>, fallback: multiset<Entry>, spawned: multiset<Entry>,
                           lost: multiset<Entry>)

  /** `taken`: shutdown took the sender away; `holders`: append calls that still hold a clone of it. */
  datatype State = State(flow: Flow, ledger: Ledger, writer: Writer, taken: bool, holders: nat)

  datatype Step =
    | Begin                                       // append clones the sender
    | TrySend(e: Entry) | End
    | Direct(es: seq<Entry>, stored: bool, written: bool)  // append after shutdown
    | SpawnedWrite(e: Entry, written: bool)
    | Receive | StartFlush                        // the timer fires, the batch is full, or the queue closed
    | StoreBatch(stored: bool) | WriteBatch(written: bool)
    | Shutdown | Exit

  function Init(): State {
    State(Flow([], [], [], [], []), Ledger(multiset{}, multiset{}, multiset{}, multiset{}), Collecting, false, 0)
  }

  function Pushed(f: Flow, x: Entry): Flow { f.(queue := f.queue + [x], sent := f.sent + [x]) }

  function Pulled(f: Flow): Flow
    requires f.queue != []
  {
    f.(queue := f.queue[1..], buffer := f.buffer + [f.queue[0]])
  }

  /** The batch is over; it went to `at`. */
  function Cut(f: Flow, at: Where): Flow {
    f.(buffer := [], batches := f.batches + [Batch(f.buffer, at)],
       store := if at.InStore? then f.store + [Stored(f.buffer, true)] else f.store)
  }

  function Added(f: Flow, es: seq<Entry>): Flow { f.(store := f.store + [Stored(es, false)]) }

  function Flushed(s: State, at: Where): State {
    var b := multiset(s.flow.buffer);
    s.(flow := Cut(s.flow, at), writer := Collecting,
       ledger := match at
                 case InStore => s.ledger
                 case InFallback => s.ledger.(fallback := s.ledger.fallback + b)
                 case Nowhere => s.ledger.(lost := s.ledger.lost + b))
  }

  function Accepted(l: Ledger, es: multiset<Entry>): Ledger { l.(accepted := l.accepted + es) }

  function CallerStep(s: State, e: Step): State {
    match e
    case Begin => if s.taken then s else s.(holders := s.holders + 1)
    case TrySend(x) =>
      if s.holders == 0 then s
      else if |s.flow.queue| < QUEUE_CAPACITY
      then s.(flow := Pushed(s.flow, x), ledger := Accepted(s.ledger, multiset{x}))
      else s.(ledger := Accepted(s.ledger.(spawned := s.ledger.spawned + multiset{x}), multiset{x}))
    case End => if s.holders > 0 then s.(holders := s.holders - 1) else s
    case Direct(es, stored, written) =>
      if !s.taken then s
      else if stored then s.(flow := Added(s.flow, es), ledger := Accepted(s.ledger, multiset(es)))
      else if written
      then s.(ledger := Accepted(s.ledger.(fallback := s.ledger.fallback + multiset(es)), multiset(es)))
      else s  // the caller gets the error
    case SpawnedWrite(x, written) =>
      if x !in s.ledger.spawned then s
      else
        var l := s.ledger.(spawned := s.ledger.spawned - multiset{x});
        s.(ledger := if written then l.(fallback := l.fallback + multiset{x}) else l.(lost := l.lost + multiset{x}))
    case _ => s.(taken := true)
  }

  function WriterStep(s: State, e: Step): State {
    match e
    case Receive =>
      if s.writer.Collecting? && s.flow.queue != [] && |s.flow.buffer| < BATCH_SIZE
      then s.(flow := Pulled(s.flow)) else s
    case StartFlush => if s.writer.Collecting? && s.flow.buffer != [] then s.(writer := Flushing(0)) else s
    case StoreBatch(stored) =>
      if !s.writer.Flushing? || s.writer.attempts >= 2 then s
      else if stored then Flushed(s, InStore)
      else s.(writer := Flushing(s.writer.attempts + 1))
    case WriteBatch(written) =>
      if !s.writer.Flushing? || s.writer.attempts < 2 then s else Flushed(s, if written then InFallback else Nowhere)
    case _ =>
      if s.writer.Collecting? && s.taken && s.holders == 0 && s.flow.queue == [] && s.flow.buffer == []
      then s.(writer := Gone) else s
  }

  predicate ByCaller(e: Step) {
    e.Begin? || e.TrySend? || e.End? || e.Direct? || e.SpawnedWrite? || e.Shutdown?
  }

  function Next(s: State, e: Step): State {
    if ByCaller(e) then CallerStep(s, e) else WriterStep(s, e)
  }

  function Run(s: State, es: seq<Step>): State
    decreases |es|
  {
    if es == [] then s else Run(Next(s, es[0]), es[1..])
  }

  function Contents(store: seq<Stored>): multiset<Entry> {
    if store == [] then multiset{} else Contents(store[..|store| - 1]) + multiset(store[|store| - 1].entries)
  }

  /** What came through the queue, in the order of the store. */
  function Queued(store: seq<Stored>): seq<Entry> {
    if store == [] then []
    else Queued(store[..|store| - 1]) + (if store[|store| - 1].queued then store[|store| - 1].entries else [])
  }

  function Flat(batches: seq<Batch>): seq<Entry> {
    if batches == [] then [] else Flat(batches[..|batches| - 1]) + batches[|batches| - 1].entries
  }

  function FlatStored(batches: seq<Batch>): seq<Entry> {
    if batches == [] then []
    else FlatStored(batches[..|batches| - 1])
         + (if batches[|batches| - 1].at.InStore? then batches[|batches| - 1].entries else [])
  }

  // ---- The queue ----

  /** What callers hand to `try_send`, in order. */
  function Offered(s: State, es: seq<Step>): seq<Entry>
    decreases |es|
  {
    if es == [] then []
    else (if es[0].TrySend? && s.holders > 0 then [es[0].e] else []) + Offered(Next(s, es[0]), es[1..])
  }

  /** The queue has room whenever an entry is handed over. */
  ghost predicate RoomThroughout(s: State, es: seq<Step>)
    decreases |es|
  {
    es == [] || ((es[0].TrySend? && s.holders > 0 ==> |s.flow.queue| < QUEUE_CAPACITY)
                 && RoomThroughout(Next(s, es[0]), es[1..]))
  }

  ghost predicate Offers(s: State, e: Step) { e.TrySend? && s.holders > 0 }

  lemma SentGrows(s: State, e: Step)
    ensures Offers(s, e) && |s.flow.queue| < QUEUE_CAPACITY ==> Next(s, e).flow.sent == s.flow.sent + [e.e]
    ensures !(Offers(s, e) && |s.flow.queue| < QUEUE_CAPACITY) ==> Next(s, e).flow.sent == s.flow.sent
  {
  }

  lemma {:induction false} SentAtMostOffered(s: State, es: seq<Step>)
    ensures |Run(s, es).flow.sent| <= |s.flow.sent| + |Offered(s, es)|
    decreases |es|
  {
    if es == [] {
    } else {
      SentGrows(s, es[0]);
      SentAtMostOffered(Next(s, es[0]), es[1..]);
    }
  }

  /** Everything handed over goes through the queue, in order, if and only if the queue had room each time;
      only what finds it full takes the fallback. */
  lemma {:induction false} AllOfferedAreQueuedExactly(s: State, es: seq<Step>)
    ensures Run(s, es).flow.sent == s.flow.sent + Offered(s, es) <==> RoomThroughout(s, es)
    decreases |es|
  {
    if es == [] {
    } else {
      var t, rest := Next(s, es[0]), es[1..];
      SentGrows(s, es[0]);
      SentAtMostOffered(t, rest);
      AllOfferedAreQueuedExactly(t, rest);
      if Offers(s, es[0]) { Regroup(s.flow.sent, es[0].e, Offered(t, rest)); }
    }
  }

  lemma Regroup(a: seq<Entry>, x: Entry, b: seq<Entry>)
    ensures a + ([x] + b) == (a + [x]) + b
  {
  }

  /** While the writer is open, nothing gets into the store past the queue. */
  lemma {:induction false} OpenStoreIsFedByTheQueue(s: State, es: seq<Step>)
    requires !s.taken && Shutdown !in es && forall i | 0 <= i < |s.flow.store| :: s.flow.store[i].queued
    ensures var t := Run(s, es); !t.taken && forall i | 0 <= i < |t.flow.store| :: t.flow.store[i].queued
    decreases |es|
  {
    if es == [] {
    } else {
      OpenStoreIsFedByTheQueue(Next(s, es[0]), es[1..]);
    }
  }

  // ---- Attempts ----

  /** The batches that did not get into the store. */
  function Spilled(batches: seq<Batch>): nat {
    if batches == [] then 0
    else Spilled(batches[..|batches| - 1]) + if batches[|batches| - 1].at.InStore? then 0 else 1
  }

  function Failures(es: seq<Step>): nat {
    if es == [] then 0 else (if es[0] == StoreBatch(false) then 1 else 0) + Failures(es[1..])
  }

  function Attempts(w: Writer): nat { if w.Flushing? then w.attempts else 0 }

  lemma SpilledAppend(batches: seq<Batch>, b: Batch)
    ensures Spilled(batches + [b]) == Spilled(batches) + if b.at.InStore? then 0 else 1
  {
    assert (batches + [b])[..|batches|] == batches;
  }

  lemma QuietAttempts(s: State, e: Step)
    requires !e.StoreBatch? && !e.WriteBatch?
    ensures Next(s, e).flow.batches == s.flow.batches && Attempts(Next(s, e).writer) <= Attempts(s.writer)
  {
  }

  lemma AttemptStep(s: State, e: Step)
    requires Attempts(s.writer) <= 2
    ensures var t := Next(s, e);
            && Attempts(t.writer) <= 2
            && 2 * Spilled(t.flow.batches) + Attempts(t.writer)
               <= 2 * Spilled(s.flow.batches) + Attempts(s.writer) + if e == StoreBatch(false) then 1 else 0
  {
    if e.StoreBatch? {
      SpilledAppend(s.flow.batches, Batch(s.flow.buffer, InStore));
    } else if e.WriteBatch? {
      SpilledAppend(s.flow.batches, Batch(s.flow.buffer, if e.written then InFallback else Nowhere));
    } else {
      QuietAttempts(s, e);
    }
  }

  /** A batch is tried at most twice at the store, and every batch that goes elsewhere has had two failures. */
  lemma {:induction false} SpillNeedsTwoFailures(s: State, es: seq<Step>)
    requires Attempts(s.writer) <= 2
    ensures var t := Run(s, es);
            && Attempts(t.writer) <= 2
            && 2 * Spilled(t.flow.batches) + Attempts(t.writer)
               <= 2 * Spilled(s.flow.batches) + Attempts(s.writer) + Failures(es)
    decreases |es|
  {
    if es == [] {
    } else {
      AttemptStep(s, es[0]);
      SpillNeedsTwoFailures(Next(s, es[0]), es[1..]);
    }
  }

  // ---- Conservation ----

  ghost function Held(f: Flow): multiset<Entry> {
    Contents(f.store) + multiset(f.queue) + multiset(f.buffer)
  }

  ghost predicate Balanced(held: multiset<Entry>, l: Ledger) {
    l.accepted == held + l.fallback + l.spawned + l.lost
  }

  ghost predicate Conserved(f: Flow, l: Ledger) { Balanced(Held(f), l) }

  lemma ContentsAppend(store: seq<Stored>, x: Stored)
    ensures Contents(store + [x]) == Contents(store) + multiset(x.entries)
    ensures Queued(store + [x]) == Queued(store) + (if x.queued then x.entries else [])
  {
    assert (store + [x])[..|store|] == store;
  }

  lemma HeldPushed(f: Flow, x: Entry)
    ensures Held(Pushed(f, x)) == Held(f) + multiset{x}
  {
    assert multiset(f.queue + [x]) == multiset(f.queue) + multiset{x};
  }

  lemma HeldPulled(f: Flow)
    requires f.queue != []
    ensures Held(Pulled(f)) == Held(f)
  {
    var x, rest := f.queue[0], f.queue[1..];
    assert f.queue == [x] + rest;
    assert multiset(f.queue) == multiset{x} + multiset(rest);
    assert multiset(f.buffer + [x]) == multiset(f.buffer) + multiset{x};
  }

  lemma HeldCut(f: Flow, at: Where)
    ensures at.InStore? ==> Held(Cut(f, at)) == Held(f)
    ensures !at.InStore? ==> Held(f) == Held(Cut(f, at)) + multiset(f.buffer)
  {
    ContentsAppend(f.store, Stored(f.buffer, true));
  }

  lemma HeldAdded(f: Flow, es: seq<Entry>)
    ensures Held(Added(f, es)) == Held(f) + multiset(es)
  {
    ContentsAppend(f.store, Stored(es, false));
  }

  lemma BalanceAccepted(held: multiset<Entry>, l: Ledger, m: multiset<Entry>)
    requires Balanced(held, l)
    ensures Balanced(held + m, Accepted(l, m))
    ensures Balanced(held, Accepted(l.(spawned := l.spawned + m), m))
    ensures Balanced(held, Accepted(l.(fallback := l.fallback + m), m))
  {
  }

  lemma BalanceSpawned(held: multiset<Entry>, l: Ledger, x: Entry)
    requires Balanced(held, l) && x in l.spawned
    ensures var rest := l.spawned - multiset{x};
            && Balanced(held, l.(spawned := rest, fallback := l.fallback + multiset{x}))
            && Balanced(held, l.(spawned := rest, lost := l.lost + multiset{x}))
  {
    assert l.spawned == (l.spawned - multiset{x}) + multiset{x};
  }

  lemma BalanceCut(held: multiset<Entry>, l: Ledger, m: multiset<Entry>)
    requires Balanced(held + m, l)
    ensures Balanced(held, l.(fallback := l.fallback + m)) && Balanced(held, l.(lost := l.lost + m))
  {
  }

  lemma ConservedFlush(s: State, at: Where)
    requires Conserved(s.flow, s.ledger)
    ensures Conserved(Flushed(s, at).flow, Flushed(s, at).ledger)
  {
    HeldCut(s.flow, at);
    if !at.InStore? { BalanceCut(Held(Cut(s.flow, at)), s.ledger, multiset(s.flow.buffer)); }
  }

  lemma ConservedCaller(s: State, e: Step)
    requires Conserved(s.flow, s.ledger) && ByCaller(e)
    ensures var t := CallerStep(s, e); Conserved(t.flow, t.ledger)
  {
    match e
    case TrySend(x) =>
      HeldPushed(s.flow, x);
      BalanceAccepted(Held(s.flow), s.ledger, multiset{x});
    case Direct(es, _, _) =>
      HeldAdded(s.flow, es);
      BalanceAccepted(Held(s.flow), s.ledger, multiset(es));
    case SpawnedWrite(x, _) => if x in s.ledger.spawned { BalanceSpawned(Held(s.flow), s.ledger, x); }
    case _ =>
  }

  /** What a step of the writer does to the flow and the ledger. */
  lemma WriterMoves(s: State, e: Step)
    requires !ByCaller(e)
    ensures var t := WriterStep(s, e);
            || (t.flow == s.flow && t.ledger == s.ledger)
            || (s.flow.queue != [] && |s.flow.buffer| < BATCH_SIZE && t.flow == Pulled(s.flow) && t.ledger == s.ledger)
            || (exists at :: t.flow == Flushed(s, at).flow && t.ledger == Flushed(s, at).ledger)
  {
    var at := if e.StoreBatch? then InStore else if e.WriteBatch? && e.written then InFallback else Nowhere;
    assert WriterStep(s, e) == Flushed(s, at) || !(e.StoreBatch? || e.WriteBatch?) || WriterStep(s, e).flow == s.flow;
  }

  lemma ConservedWriter(s: State, e: Step)
    requires Conserved(s.flow, s.ledger) && !ByCaller(e)
    ensures var t := WriterStep(s, e); Conserved(t.flow, t.ledger)
  {
    WriterMoves(s, e);
    var t := WriterStep(s, e);
    if s.flow.queue != [] { HeldPulled(s.flow); }
    if at :| t.flow == Flushed(s, at).flow && t.ledger == Flushed(s, at).ledger { ConservedFlush(s, at); }
  }

  lemma {:induction false} ConservedRun(s: State, es: seq<Step>)
    requires Conserved(s.flow, s.ledger)
    ensures Conserved(Run(s, es).flow, Run(s, es).ledger)
    decreases |es|
  {
    if es == [] {
    } else {
      if ByCaller(es[0]) { ConservedCaller(s, es[0]); } else { ConservedWriter(s, es[0]); }
      ConservedRun(Next(s, es[0]), es[1..]);
    }
  }

  /** Every fallback write of the run succeeds. */
  ghost predicate FallbackWorks(es: seq<Step>) {
    forall i | 0 <= i < |es| :: (es[i].SpawnedWrite? ==> es[i].written) && (es[i].WriteBatch? ==> es[i].written)
  }

  lemma {:induction false} NothingLost(s: State, es: seq<Step>)
    requires s.ledger.lost == multiset{} && FallbackWorks(es)
    ensures Run(s, es).ledger.lost == multiset{}
    decreases |es|
  {
    if es == [] {
    } else {
      NothingLost(Next(s, es[0]), es[1..]);
    }
  }

  /** At every moment each accepted entry is, counted with multiplicity, in exactly one place; it is lost
      only if a fallback write failed. */
  lemma EveryEntryIsSomewhere(es: seq<Step>)
    ensures var s := Run(Init(), es);
            && s.ledger.accepted == Contents(s.flow.store) + multiset(s.flow.queue) + multiset(s.flow.buffer)
                                    + s.ledger.fallback + s.ledger.spawned + s.ledger.lost
            && (FallbackWorks(es) ==> s.ledger.lost == multiset{})
  {
    ConservedRun(Init(), es);
    if FallbackWorks(es) { NothingLost(Init(), es); }
  }

  // ---- Batches and order ----

  ghost predicate Partition(f: Flow) { f.sent == Flat(f.batches) + f.buffer + f.queue }

  ghost predicate SameOrder(f: Flow) { Queued(f.store) == FlatStored(f.batches) }

  ghost predicate Small(f: Flow) {
    && |f.buffer| <= BATCH_SIZE && |f.queue| <= QUEUE_CAPACITY
    && (forall i | 0 <= i < |f.batches| :: |f.batches[i].entries| <= BATCH_SIZE)
  }

  ghost predicate Orderly(f: Flow) { Partition(f) && SameOrder(f) && Small(f) }

  ghost predicate Drained(s: State) {
    s.writer.Gone? ==> s.taken && s.holders == 0 && s.flow.queue == [] && s.flow.buffer == []
  }

  lemma FlatAppend(batches: seq<Batch>, b: Batch)
    ensures Flat(batches + [b]) == Flat(batches) + b.entries
    ensures FlatStored(batches + [b]) == FlatStored(batches) + (if b.at.InStore? then b.entries else [])
  {
    assert (batches + [b])[..|batches|] == batches;
  }

  lemma PartitionCut(f: Flow, at: Where)
    requires Partition(f)
    ensures Partition(Cut(f, at))
  {
    FlatAppend(f.batches, Batch(f.buffer, at));
    assert Flat(f.batches) + f.buffer + [] == Flat(f.batches) + f.buffer;
  }

  lemma SameOrderCut(f: Flow, at: Where)
    requires SameOrder(f)
    ensures SameOrder(Cut(f, at))
  {
    FlatAppend(f.batches, Batch(f.buffer, at));
    ContentsAppend(f.store, Stored(f.buffer, true));
    assert FlatStored(f.batches) + [] == FlatStored(f.batches);
  }

  lemma OrderlyCut(f: Flow, at: Where)
    requires Orderly(f)
    ensures Orderly(Cut(f, at))
  {
    PartitionCut(f, at);
    SameOrderCut(f, at);
  }

  lemma OrderlyCaller(s: State, e: Step)
    requires Orderly(s.flow) && ByCaller(e)
    ensures Orderly(CallerStep(s, e).flow)
  {
    var f := s.flow;
    if e.Direct? { ContentsAppend(f.store, Stored(e.es, false)); }
    if e.TrySend? { assert Flat(f.batches) + f.buffer + (f.queue + [e.e]) == f.sent + [e.e]; }
  }

  lemma OrderlyWriter(s: State, e: Step)
    requires Orderly(s.flow) && !ByCaller(e)
    ensures Orderly(WriterStep(s, e).flow)
  {
    WriterMoves(s, e);
    if e.Receive? {
      if WriterStep(s, e) != s { OrderlyPulled(s.flow); }
    } else if at :| WriterStep(s, e).flow == Flushed(s, at).flow {
      OrderlyCut(s.flow, at);
    }
  }

  lemma OrderlyPulled(f: Flow)
    requires Orderly(f) && f.queue != [] && |f.buffer| < BATCH_SIZE
    ensures Orderly(Pulled(f))
  {
    assert f.queue == [f.queue[0]] + f.queue[1..];
    assert Flat(f.batches) + f.buffer + f.queue == Flat(f.batches) + (f.buffer + [f.queue[0]]) + f.queue[1..];
  }

  lemma {:induction false} OrderlyRun(s: State, es: seq<Step>)
    requires Orderly(s.flow)
    ensures Orderly(Run(s, es).flow) == Orderly(s.flow)
    decreases |es|
  {
    if es == [] {
    } else {
      if ByCaller(es[0]) { OrderlyCaller(s, es[0]); } else { OrderlyWriter(s, es[0]); }
      OrderlyRun(Next(s, es[0]), es[1..]);
    }
  }

  lemma {:induction false} DrainedRun(s: State, es: seq<Step>)
    requires Drained(s)
    ensures Drained(Run(s, es)) == Drained(s)
    decreases |es|
  {
    if es == [] {
    } else {
      DrainedRun(Next(s, es[0]), es[1..]);
    }
  }

  lemma {:induction false} AllStored(batches: seq<Batch>)
    requires forall i | 0 <= i < |batches| :: batches[i].at.InStore?
    ensures FlatStored(batches) == Flat(batches)
  {
    if batches == [] {
    } else {
      AllStored(batches[..|batches| - 1]);
    }
  }

  /** Batches never exceed the batch size, and partition the queued entries in order; the store receives
      its batches in that order. So while the store takes every batch, what it holds from the queue, then
      the buffer, then the queue, is exactly what was sent, in order. */
  lemma QueuedEntriesReachTheStoreInOrder(es: seq<Step>)
    ensures var f := Run(Init(), es).flow;
            && f.sent == Flat(f.batches) + f.buffer + f.queue
            && Queued(f.store) == FlatStored(f.batches)
            && (forall i | 0 <= i < |f.batches| :: |f.batches[i].entries| <= BATCH_SIZE)
            && ((forall i | 0 <= i < |f.batches| :: f.batches[i].at.InStore?) ==>
                  f.sent == Queued(f.store) + f.buffer + f.queue)
  {
    OrderlyRun(Init(), es);
    var f := Run(Init(), es).flow;
    if forall i | 0 <= i < |f.batches| :: f.batches[i].at.InStore? { AllStored(f.batches); }
  }

  /** Once the writer has gone, which is when shutdown returns, queue and buffer are empty: every queued
      entry has been flushed. No caller can still hold a sender then, so none is told the queue is closed. */
  lemma ShutdownDrains(es: seq<Step>)
    requires Run(Init(), es).writer.Gone?
    ensures var s := Run(Init(), es);
            && s.flow.queue == [] && s.flow.buffer == [] && s.holders == 0 && s.flow.sent == Flat(s.flow.batches)
            && s.ledger.accepted == Contents(s.flow.store) + s.ledger.fallback + s.ledger.spawned + s.ledger.lost
  {
    OrderlyRun(Init(), es);
    ConservedRun(Init(), es);
    DrainedRun(Init(), es);
    var f := Run(Init(), es).flow;
    assert Flat(f.batches) + [] + [] == Flat(f.batches);
  }

  // ---- The writer's methods as runs of its steps ----

  lemma {:induction false} RunConcat(s: State, a: seq<Step>, b: seq<Step>)
    ensures Run(s, a + b) == Run(Run(s, a), b)
    decreases |a|
  {
    if a == [] {
      assert a + b == b;
    } else {
      assert (a + b)[0] == a[0] && (a + b)[1..] == a[1..] + b;
      RunConcat(Next(s, a[0]), a[1..], b);
    }
  }

  /** What the environment answers to the flush of one batch: first store attempt, second, file. */
  datatype Answer = Answer(first: bool, second: bool, file: bool)

  /** The steps of a flush under these answers. */
  function FlushSteps(a: Answer): seq<Step> {
    if a.first then [StoreBatch(true)]
    else if a.second then [StoreBatch(false), StoreBatch(true)]
    else [StoreBatch(false), StoreBatch(false), WriteBatch(a.file)]
  }

  function Receives(n: nat): seq<Step> { seq(n, i => Receive) }

  lemma FlushRuns(s: State, a: Answer, at: Where)
    requires s.writer == Flushing(0)
    requires at == if a.first || a.second then InStore else if a.file then InFallback else Nowhere
    ensures Run(s, FlushSteps(a)) == Flushed(s, at)
  {
    var s1 := s.(writer := Flushing(1));
    var s2 := s.(writer := Flushing(2));
    assert Next(s, StoreBatch(false)) == s1 && Next(s1, StoreBatch(false)) == s2;
    assert [StoreBatch(false), StoreBatch(true)][1..] == [StoreBatch(true)];
    var long := [StoreBatch(false), StoreBatch(false), WriteBatch(a.file)];
    assert long[1..] == [StoreBatch(false), WriteBatch(a.file)] && long[1..][1..] == [WriteBatch(a.file)];
    assert [WriteBatch(a.file)][1..] == [] && [StoreBatch(true)][1..] == [];
    assert Run(s2, [WriteBatch(a.file)]) == Run(Next(s2, WriteBatch(a.file)), []);
    assert Flushed(s1, InStore) == Flushed(s, InStore) && Flushed(s2, at) == Flushed(s, at);
  }

  lemma {:induction false} ReceivesRun(s: State, n: nat)
    requires s.writer.Collecting? && n <= |s.flow.queue| && |s.flow.buffer| + n <= BATCH_SIZE
    ensures Run(s, Receives(n))
            == s.(flow := s.flow.(queue := s.flow.queue[n..], buffer := s.flow.buffer + s.flow.queue[..n]))
    decreases n
  {
    if n == 0 {
      assert s.flow.queue[0..] == s.flow.queue && s.flow.buffer + s.flow.queue[..0] == s.flow.buffer;
    } else {
      var t := Next(s, Receive);
      var q := s.flow.queue;
      assert Receives(n)[1..] == Receives(n - 1);
      ReceivesRun(t, n - 1);
      assert t.flow.queue[n - 1..] == q[n..];
      assert s.flow.buffer + [q[0]] + q[1..][..n - 1] == s.flow.buffer + q[..n];
    }
  }

  /** Flushing a batch is the run of the writer's store and file steps under the same answers: afterwards the
      whole batch is where `at` says, and in no other place. An empty batch takes no step. */
  method FlushBatch(batch: seq<Entry>, a: Answer, ghost s: State) returns (at: Where)
    requires s.writer == Flushing(0) && s.flow.buffer == batch
    ensures batch != [] ==> Run(s, FlushSteps(a)) == Flushed(s, at)
    ensures batch == [] ==> at.InStore?
  {
    if batch == [] { return InStore; }
    FlushRuns(s, a, if a.first || a.second then InStore else if a.file then InFallback else Nowhere);
    if a.first { return InStore; }
    if a.second { return InStore; }
    if a.file { return InFallback; }
    at := Nowhere;
  }

  /** The inner loop: fill a batch until it is full, the queue is empty, or the timer fires, which it does after
      `ticks` further entries. */
  method Collect(queue: seq<Entry>, ticks: nat) returns (buffer: seq<Entry>, rest: seq<Entry>)
    requires queue != []
    ensures buffer + rest == queue && 1 <= |buffer| <= BATCH_SIZE && |buffer| <= 1 + ticks
    ensures rest != [] ==> |buffer| == BATCH_SIZE || |buffer| == 1 + ticks
  {
    buffer, rest := [queue[0]], queue[1..];
    while |buffer| < BATCH_SIZE && rest != [] && |buffer| < 1 + ticks
      invariant buffer + rest == queue && 1 <= |buffer| <= BATCH_SIZE && |buffer| <= 1 + ticks
      decreases |rest|
    {
      buffer, rest := buffer + [rest[0]], rest[1..];
    }
  }

  /** The writer waits for work and nobody can send any more. */
  ghost predicate Closing(s: State, queue: seq<Entry>) {
    s.writer.Collecting? && s.taken && s.holders == 0 && s.flow.buffer == [] && s.flow.queue == queue
  }

  /** The steps of one round of the loop. */
  function RoundSteps(n: nat, a: Answer): seq<Step> { Receives(n) + ([StartFlush] + FlushSteps(a)) }

  /** The steps of the rounds that cut these batches, under the environment's answers in turn. */
  function LoopSteps(batches: seq<Batch>, answers: nat -> Answer): seq<Step> {
    if batches == [] then []
    else
      var n := |batches| - 1;
      LoopSteps(batches[..n], answers) + RoundSteps(|batches[n].entries|, answers(n))
  }

  lemma RoundRuns(s: State, buffer: seq<Entry>, rest: seq<Entry>, a: Answer, at: Where)
    requires Closing(s, buffer + rest) && 1 <= |buffer| <= BATCH_SIZE
    requires var u := s.(flow := s.flow.(queue := rest, buffer := buffer), writer := Flushing(0));
             Run(u, FlushSteps(a)) == Flushed(u, at)
    ensures var t := Run(s, RoundSteps(|buffer|, a));
            Closing(t, rest) && t.flow.batches == s.flow.batches + [Batch(buffer, at)]
  {
    var n := |buffer|;
    ReceivesRun(s, n);
    assert (buffer + rest)[..n] == buffer && (buffer + rest)[n..] == rest && [] + buffer == buffer;
    var c := s.(flow := s.flow.(queue := rest, buffer := buffer));
    assert Run(s, Receives(n)) == c;
    RunConcat(s, Receives(n), [StartFlush] + FlushSteps(a));
    assert ([StartFlush] + FlushSteps(a))[1..] == FlushSteps(a);
  }

  ghost predicate Sized(batches: seq<Batch>) {
    forall i | 0 <= i < |batches| :: 1 <= |batches[i].entries| <= BATCH_SIZE
  }

  /** Each of the first `n` batches was full, or cut by its timer. */
  ghost predicate CutByNeed(batches: seq<Batch>, n: int, ticks: nat -> nat) {
    forall i | 0 <= i < n && i < |batches| ::
      |batches[i].entries| == BATCH_SIZE || |batches[i].entries| == 1 + ticks(i)
  }

  /** How far the loop is: these batches cut, `rest` still queued. */
  ghost predicate Reached(s: State, batches: seq<Batch>, rest: seq<Entry>, answers: nat -> Answer) {
    var t := Run(s, LoopSteps(batches, answers));
    Closing(t, rest) && t.flow.batches == s.flow.batches + batches
  }

  ghost predicate CutSoFar(queue: seq<Entry>, batches: seq<Batch>, rest: seq<Entry>, ticks: nat -> nat) {
    && Flat(batches) + rest == queue && Sized(batches)
    && CutByNeed(batches, |batches| - 1, ticks) && (rest != [] ==> CutByNeed(batches, |batches|, ticks))
  }

  lemma ReachedNext(s: State, batches: seq<Batch>, b: Batch, rest: seq<Entry>, answers: nat -> Answer)
    requires Reached(s, batches, b.entries + rest, answers) && 1 <= |b.entries| <= BATCH_SIZE
    requires var t := Run(s, LoopSteps(batches, answers));
             var u := t.(flow := t.flow.(queue := rest, buffer := b.entries), writer := Flushing(0));
             Run(u, FlushSteps(answers(|batches|))) == Flushed(u, b.at)
    ensures Reached(s, batches + [b], rest, answers) == Reached(s, batches, b.entries + rest, answers)
  {
    var t := Run(s, LoopSteps(batches, answers));
    RoundRuns(t, b.entries, rest, answers(|batches|), b.at);
    RunConcat(s, LoopSteps(batches, answers), RoundSteps(|b.entries|, answers(|batches|)));
    assert s.flow.batches + batches + [b] == s.flow.batches + (batches + [b]);
  }

  lemma CutNext(queue: seq<Entry>, batches: seq<Batch>, b: Batch, rest: seq<Entry>, ticks: nat -> nat)
    requires CutSoFar(queue, batches, b.entries + rest, ticks) && 1 <= |b.entries| <= BATCH_SIZE
    requires rest != [] ==> |b.entries| == BATCH_SIZE || |b.entries| == 1 + ticks(|batches|)
    ensures CutSoFar(queue, batches + [b], rest, ticks)
  {
  }

  lemma LoopEnds(s: State, batches: seq<Batch>, answers: nat -> Answer)
    requires Reached(s, batches, [], answers)
    ensures var t := Run(s, LoopSteps(batches, answers) + [Exit]);
            t.writer.Gone? && t.flow.batches == s.flow.batches + batches
  {
    RunConcat(s, LoopSteps(batches, answers), [Exit]);
  }

  /** The loop of the writer task, on a queue that is already closed, whatever the timers and the environment do:
      it is a run of the writer's steps that ends with the writer gone; its batches are the queue, in order, each
      of them full or cut by its timer except the last. */
  method RunAuditWriter(queue: seq<Entry>, answers: nat -> Answer, ticks: nat -> nat, ghost s: State)
    returns (batches: seq<Batch>)
    requires Closing(s, queue)
    ensures var t := Run(s, LoopSteps(batches, answers) + [Exit]);
            t.writer.Gone? && t.flow.batches == s.flow.batches + batches
    ensures Flat(batches) == queue && Sized(batches) && CutByNeed(batches, |batches| - 1, ticks)
  {
    batches := [];
    var rest := queue;
    while rest != []
      invariant Reached(s, batches, rest, answers) && CutSoFar(queue, batches, rest, ticks)
      decreases |rest|
    {
      ghost var t := Run(s, LoopSteps(batches, answers));
      var buffer;
      buffer, rest := Collect(rest, ticks(|batches|));
      var at := FlushBatch(buffer, answers(|batches|),
                           t.(flow := t.flow.(queue := rest, buffer := buffer), writer := Flushing(0)));
      ReachedNext(s, batches, Batch(buffer, at), rest, answers);
      CutNext(queue, batches, Batch(buffer, at), rest, ticks);
      batches := batches + [Batch(buffer, at)];
    }
    LoopEnds(s, batches, answers);
  }
}
