/** The in-flight file-request table: an atomic admission counter beside a concurrent map. Any number of
    threads each make one call of `register`, `resolve` or `cancel`; their atomic steps interleave. */
module PendingRequests {

  type Key = (string, string)  // device id, request id

  datatype Call = Register(key: Key) | Take(key: Key)  // `resolve` and `cancel` take alike

  /** `Released(reg)`: this call took out what thread `reg` had registered. */
  datatype Outcome = Registered | AtCapacity | Duplicate | Released(reg: nat) | NotFound

  /** Where a call stands: not begun; counted and about to use the map; owing the counter a decrement
      before it returns; returned. */
  datatype Pc = Ready | Admitted | Owing(outcome: Outcome) | Returned(outcome: Outcome)

  datatype Thread = Thread(call: Call, pc: Pc)

  /** The counter is an integer, so that an underflow would show. A slot remembers who registered it. */
  datatype Table = Table(capacity: nat, counter: int, slots: map<Key, nat>, threads: seq<Thread>)

  function Init(capacity: nat, calls: seq<Call>): Table {
    Table(capacity, 0, map[], seq(|calls|, i requires 0 <= i < |calls| => Thread(calls[i], Ready)))
  }

  function Moved(s: Table, i: nat, pc: Pc): seq<Thread>
    requires i < |s.threads|
  {
    s.threads[i := s.threads[i].(pc := pc)]
  }

  /** Thread `i` takes its next atomic step. */
  function Next(s: Table, i: nat): Table {
    if i >= |s.threads| then s
    else
      var key := s.threads[i].call.key;
      match s.threads[i].pc
      case Ready =>
        (match s.threads[i].call
         case Register(_) =>
           s.(counter := s.counter + 1,
              threads := Moved(s, i, if s.counter + 1 > s.capacity then Owing(AtCapacity) else Admitted))
         case Take(_) =>
           if key in s.slots
           then s.(slots := s.slots - {key}, threads := Moved(s, i, Owing(Released(s.slots[key]))))
           else s.(threads := Moved(s, i, Returned(NotFound))))
      case Admitted =>
        if key in s.slots then s.(threads := Moved(s, i, Owing(Duplicate)))
        else s.(slots := s.slots[key := i], threads := Moved(s, i, Returned(Registered)))
      case Owing(outcome) => s.(counter := s.counter - 1, threads := Moved(s, i, Returned(outcome)))
      case Returned(_) => s
  }

  function Run(s: Table, schedule: seq<nat>): Table
    decreases |schedule|
  {
    if schedule == [] then s else Run(Next(s, schedule[0]), schedule[1..])
  }

  // ---- One call at a time ----

  function RegisterOutcome(slots: map<Key, nat>, capacity: nat, key: Key): Outcome {
    if |slots| >= capacity then AtCapacity else if key in slots then Duplicate else Registered
  }

  /** The table as the source has it; `reg` names the caller that waits on the slot. */
  class PendingFileRequests {
    const capacity: nat
    var inFlight: nat
    var pending: map<Key, nat>

    /** At rest the counter is the number of slots. */
    ghost predicate Valid()
      reads this
    {
      inFlight == |pending| <= capacity
    }

    constructor (capacity: nat)
      ensures Valid() && pending == map[] && this.capacity == capacity
    {
      this.capacity, inFlight, pending := capacity, 0, map[];
    }

    method Register(key: Key, reg: nat) returns (r: Outcome)
      requires Valid()
      modifies this
      ensures Valid() && r == RegisterOutcome(old(pending), capacity, key)
      ensures pending == if r.Registered? then old(pending)[key := reg] else old(pending)
    {
      inFlight := inFlight + 1;
      if inFlight > capacity {
        inFlight := inFlight - 1;
        return AtCapacity;
      }
      if key in pending {
        inFlight := inFlight - 1;
        return Duplicate;
      }
      pending := pending[key := reg];
      r := Registered;
    }

    /** `resolve` and `cancel`. */
    method TakeSlot(key: Key) returns (r: Outcome)
      requires Valid()
      modifies this
      ensures Valid() && pending == old(pending) - {key}
      ensures r == if key in old(pending) then Released(old(pending)[key]) else NotFound
    {
      if key !in pending {
        assert pending - {key} == pending;
        return NotFound;
      }
      r := Released(pending[key]);
      pending := pending - {key};
      inFlight := inFlight - 1;
    }
  }

  lemma ThreeSteps(s: Table, i: nat)
    ensures Run(s, [i, i, i]) == Next(Next(Next(s, i), i), i)
  {
    var a := Next(s, i);
    var b := Next(a, i);
    assert [i, i, i][1..] == [i, i] && [i, i][1..] == [i] && [i][1..] == [];
    assert Run(b, [i]) == Run(Next(b, i), []) && Run(a, [i, i]) == Run(b, [i]);
  }

  /** A registration that nobody interrupts does what the method does. */
  lemma UninterruptedRegister(s: Table, i: nat)
    requires i < |s.threads| && s.threads[i].pc.Ready? && s.threads[i].call.Register?
    requires s.counter == |s.slots| <= s.capacity
    ensures var key := s.threads[i].call.key; var r := RegisterOutcome(s.slots, s.capacity, key);
            Run(s, [i, i, i]) == s.(counter := if r.Registered? then s.counter + 1 else s.counter,
                                    slots := if r.Registered? then s.slots[key := i] else s.slots,
                                    threads := Moved(s, i, Returned(r)))
  {
    ThreeSteps(s, i);
    var a := Next(s, i);
    var b := Next(a, i);
    assert a.threads == Moved(s, i, a.threads[i].pc) && b.threads == Moved(s, i, b.threads[i].pc);
  }

  lemma UninterruptedTake(s: Table, i: nat)
    requires i < |s.threads| && s.threads[i].pc.Ready? && s.threads[i].call.Take?
    ensures var key := s.threads[i].call.key;
            Run(s, [i, i, i]) ==
              if key in s.slots
              then s.(counter := s.counter - 1, slots := s.slots - {key},
                      threads := Moved(s, i, Returned(Released(s.slots[key]))))
              else s.(threads := Moved(s, i, Returned(NotFound)))
  {
    ThreeSteps(s, i);
    var a := Next(s, i);
    var b := Next(a, i);
    assert a.threads == Moved(s, i, a.threads[i].pc) && b.threads == Moved(s, i, b.threads[i].pc);
  }

  // ---- Counting ----

  function Count(ts: seq<Thread>, p: Thread -> bool): nat {
    if ts == [] then 0 else (if p(ts[0]) then 1 else 0) + Count(ts[1..], p)
  }

  lemma {:induction false} CountUpdate(ts: seq<Thread>, i: nat, t: Thread, p: Thread -> bool)
    requires i < |ts|
    ensures Count(ts[i := t], p) == Count(ts, p) - (if p(ts[i]) then 1 else 0) + (if p(t) then 1 else 0)
  {
    if i == 0 {
      assert ts[i := t][1..] == ts[1..];
    } else {
      assert ts[i := t][1..] == ts[1..][i - 1 := t];
      CountUpdate(ts[1..], i - 1, t, p);
    }
  }

  predicate IsAdmitted(t: Thread) { t.pc.Admitted? }
  predicate IsOwing(t: Thread) { t.pc.Owing? }
  predicate Won(t: Thread) { t.pc == Returned(Registered) }

  function InFlight(s: Table): nat { Count(s.threads, IsAdmitted) + Count(s.threads, IsOwing) }

  lemma MovedCounts(s: Table, i: nat, pc: Pc)
    requires i < |s.threads|
    ensures var ts := Moved(s, i, pc); var t := s.threads[i];
            && Count(ts, IsAdmitted) == Count(s.threads, IsAdmitted) - (if t.pc.Admitted? then 1 else 0)
                                        + (if pc.Admitted? then 1 else 0)
            && Count(ts, IsOwing) == Count(s.threads, IsOwing) - (if t.pc.Owing? then 1 else 0)
                                     + (if pc.Owing? then 1 else 0)
            && Count(ts, Won) == Count(s.threads, Won) - (if t.pc == Returned(Registered) then 1 else 0)
                                 + (if pc == Returned(Registered) then 1 else 0)
  {
    var t := s.threads[i].(pc := pc);
    CountUpdate(s.threads, i, t, IsAdmitted);
    CountUpdate(s.threads, i, t, IsOwing);
    CountUpdate(s.threads, i, t, Won);
  }

  lemma {:induction false} CountNone(ts: seq<Thread>, p: Thread -> bool)
    requires forall t | t in ts :: !p(t)
    ensures Count(ts, p) == 0
  {
    if ts == [] {
    } else {
      CountNone(ts[1..], p);
    }
  }

  ghost predicate Counting(s: Table) {
    && s.counter == |s.slots| + InFlight(s)
    && |s.slots| + Count(s.threads, IsAdmitted) <= s.capacity
  }

  lemma CountingStep(s: Table, i: nat)
    requires Counting(s)
    ensures Counting(Next(s, i))
  {
    if i < |s.threads| && !s.threads[i].pc.Returned? {
      var t := Next(s, i);
      MovedCounts(s, i, t.threads[i].pc);
    }
  }

  lemma {:induction false} CountingRun(s: Table, schedule: seq<nat>)
    requires Counting(s)
    ensures Counting(Run(s, schedule))
    decreases |schedule|
  {
    if schedule == [] {
    } else {
      CountingStep(s, schedule[0]);
      CountingRun(Next(s, schedule[0]), schedule[1..]);
    }
  }

  lemma InitCounts(capacity: nat, calls: seq<Call>)
    ensures Counting(Init(capacity, calls)) && Count(Init(capacity, calls).threads, Won) == 0
    ensures Count(Init(capacity, calls).threads, IsAdmitted) == 0
  {
    var ts := Init(capacity, calls).threads;
    CountNone(ts, IsAdmitted);
    CountNone(ts, IsOwing);
    CountNone(ts, Won);
  }

  lemma {:induction false} Constants(s: Table, schedule: seq<nat>)
    ensures var t := Run(s, schedule);
            && t.capacity == s.capacity && |t.threads| == |s.threads|
            && forall i | 0 <= i < |s.threads| :: t.threads[i].call == s.threads[i].call
    decreases |schedule|
  {
    if schedule == [] {
    } else {
      Constants(Next(s, schedule[0]), schedule[1..]);
    }
  }

  /** In every reachable state the counter is the live slots plus the calls caught between their counter
      step and their map step. So it never underflows, the slots never exceed the capacity, and at rest the
      counter is the number of slots. */
  lemma CounterIsExact(capacity: nat, calls: seq<Call>, schedule: seq<nat>)
    ensures var s := Run(Init(capacity, calls), schedule);
            && s.counter == |s.slots| + InFlight(s)
            && s.counter >= 0 && |s.slots| <= capacity
            && ((forall t | t in s.threads :: t.pc.Returned?) ==> s.counter == |s.slots|)
  {
    InitCounts(capacity, calls);
    CountingRun(Init(capacity, calls), schedule);
    Constants(Init(capacity, calls), schedule);
    var s := Run(Init(capacity, calls), schedule);
    if forall t | t in s.threads :: t.pc.Returned? {
      CountNone(s.threads, IsAdmitted);
      CountNone(s.threads, IsOwing);
    }
  }

  // ---- Every registration is given back once ----

  /** Thread `i` took what thread `reg` had registered, and decrements the counter for it. */
  ghost predicate Took(s: Table, i: nat, reg: nat) {
    i < |s.threads| && (s.threads[i].pc == Owing(Released(reg)) || s.threads[i].pc == Returned(Released(reg)))
  }

  ghost predicate Live(s: Table, reg: nat) {
    reg < |s.threads| && s.threads[reg].call.key in s.slots && s.slots[s.threads[reg].call.key] == reg
  }

  ghost predicate OnePlace(s: Table) {
    && (forall k | k in s.slots :: s.slots[k] < |s.threads| && s.threads[s.slots[k]].call.key == k
                                   && Won(s.threads[s.slots[k]]))
    && (forall i, reg: nat | Took(s, i, reg) :: reg < |s.threads| && Won(s.threads[reg]) && !Live(s, reg))
    && (forall i, j, reg: nat | Took(s, i, reg) && Took(s, j, reg) :: i == j)
    && (forall reg: nat | reg < |s.threads| && Won(s.threads[reg]) :: Live(s, reg) || exists i :: Took(s, i, reg))
    && (forall i | 0 <= i < |s.threads| :: s.threads[i].pc != Owing(Registered))
  }

  lemma OnePlaceTake(s: Table, i: nat)
    requires OnePlace(s) && i < |s.threads| && s.threads[i].pc.Ready? && s.threads[i].call.Take?
    ensures OnePlace(Next(s, i))
  {
    var t := Next(s, i);
    var key := s.threads[i].call.key;
    forall j, reg: nat | Took(t, j, reg)
      ensures Took(s, j, reg) || (j == i && key in s.slots && reg == s.slots[key]) {}
    forall reg: nat | reg < |t.threads| && Won(t.threads[reg]) ensures Live(t, reg) || exists j :: Took(t, j, reg) {
      if key in s.slots && reg == s.slots[key] {
        assert Took(t, i, reg);
      } else if !Live(s, reg) {
        var j :| Took(s, j, reg);
        assert Took(t, j, reg);
      }
    }
  }

  /** Any other step leaves who took what, except that a winner gains its slot. */
  lemma OtherLeaves(s: Table, i: nat)
    requires OnePlace(s) && i < |s.threads| && !(s.threads[i].pc.Ready? && s.threads[i].call.Take?)
    ensures var t := Next(s, i);
            && |t.threads| == |s.threads|
            && (forall j, reg: nat :: Took(t, j, reg) <==> Took(s, j, reg))
            && (forall reg: nat | reg < |t.threads| ::
                  && t.threads[reg].call == s.threads[reg].call && t.threads[reg].pc != Owing(Registered)
                  && (Won(t.threads[reg]) <==> Won(s.threads[reg]) || (reg == i && Live(t, i))))
            && (t.slots == s.slots
                || (s.threads[i].call.key !in s.slots && t.slots == s.slots[s.threads[i].call.key := i]
                    && s.threads[i].pc.Admitted? && Won(t.threads[i])))
  {
    var t := Next(s, i);
    assert t.threads == Moved(s, i, t.threads[i].pc);
    if Live(t, i) && t.slots == s.slots { assert Won(s.threads[i]); }
  }

  lemma OnePlaceOther(s: Table, i: nat)
    requires OnePlace(s) && i < |s.threads| && !(s.threads[i].pc.Ready? && s.threads[i].call.Take?)
    ensures OnePlace(Next(s, i))
  {
    var t := Next(s, i);
    OtherLeaves(s, i);
    forall reg: nat | reg < |t.threads| && Won(t.threads[reg]) ensures Live(t, reg) || exists j :: Took(t, j, reg) {
      if Won(s.threads[reg]) && !Live(s, reg) {
        var j :| Took(s, j, reg);
        assert Took(t, j, reg);
      }
    }
  }

  lemma {:induction false} OnePlaceRun(s: Table, schedule: seq<nat>)
    requires OnePlace(s)
    ensures OnePlace(Run(s, schedule)) == OnePlace(s)
    decreases |schedule|
  {
    if schedule == [] {
    } else {
      var i := schedule[0];
      if i < |s.threads| {
        if s.threads[i].pc.Ready? && s.threads[i].call.Take? { OnePlaceTake(s, i); } else { OnePlaceOther(s, i); }
      }
      OnePlaceRun(Next(s, i), schedule[1..]);
    }
  }

  /** Whichever of resolve and cancel wins a slot, the counter is given back for it exactly once: a
      successful registration is either still live, or was taken by exactly one call. */
  lemma EveryRegistrationGivenBackOnce(capacity: nat, calls: seq<Call>, schedule: seq<nat>, reg: nat)
    requires var s := Run(Init(capacity, calls), schedule); reg < |s.threads| && Won(s.threads[reg])
    ensures var s := Run(Init(capacity, calls), schedule);
            && (Live(s, reg) <==> !exists i :: Took(s, i, reg))
            && (forall i, j | Took(s, i, reg) && Took(s, j, reg) :: i == j)
  {
    OnePlaceRun(Init(capacity, calls), schedule);
  }

  // ---- Concurrent registration only ----

  ghost predicate DistinctRegistrations(ts: seq<Thread>) {
    && (forall i | 0 <= i < |ts| :: ts[i].call.Register?)
    && (forall i, j | 0 <= i < j < |ts| :: ts[i].call.key != ts[j].call.key)
  }

  predicate Refused(t: Thread) { t.pc == Owing(AtCapacity) || t.pc == Returned(AtCapacity) }

  ghost predicate SlotsWon(s: Table) {
    forall k | k in s.slots :: s.slots[k] < |s.threads| && s.threads[s.slots[k]].call.key == k
                               && Won(s.threads[s.slots[k]])
  }

  ghost predicate SomeRefused(ts: seq<Thread>) { exists i | 0 <= i < |ts| :: Refused(ts[i]) }

  ghost predicate Orderly(ts: seq<Thread>) {
    forall i | 0 <= i < |ts| :: ts[i].pc.Ready? || ts[i].pc.Admitted? || Won(ts[i]) || Refused(ts[i])
  }

  /** While nothing is released and keys differ, a refusal happens only with the table full. */
  ghost predicate Filling(s: Table) {
    && DistinctRegistrations(s.threads) && SlotsWon(s) && Orderly(s.threads)
    && Count(s.threads, Won) == |s.slots|
    && (SomeRefused(s.threads) ==> |s.slots| + Count(s.threads, IsAdmitted) == s.capacity)
  }

  lemma FillingEnter(s: Table, i: nat)
    requires Counting(s) && Filling(s) && i < |s.threads| && s.threads[i].pc.Ready?
    ensures Filling(Next(s, i))
  {
    var t := Next(s, i);
    MovedCounts(s, i, t.threads[i].pc);
    if Count(s.threads, IsOwing) > 0 { SomeOwing(s.threads); }
    if SomeRefused(t.threads) && !SomeRefused(s.threads) {
      assert Refused(t.threads[i]);
    }
  }

  lemma FillingPlace(s: Table, i: nat)
    requires Counting(s) && Filling(s) && i < |s.threads| && s.threads[i].pc.Admitted?
    ensures Filling(Next(s, i))
  {
    var t := Next(s, i);
    var key := s.threads[i].call.key;
    assert key !in s.slots;
    MovedCounts(s, i, t.threads[i].pc);
    if j :| 0 <= j < |t.threads| && Refused(t.threads[j]) { assert Refused(s.threads[j]); }
  }

  lemma FillingReturn(s: Table, i: nat)
    requires Counting(s) && Filling(s) && i < |s.threads| && s.threads[i].pc.Owing?
    ensures Filling(Next(s, i))
  {
    var t := Next(s, i);
    assert Refused(s.threads[i]);
    MovedCounts(s, i, t.threads[i].pc);
  }

  lemma {:induction false} SomeOwing(ts: seq<Thread>)
    requires Count(ts, IsOwing) > 0
    ensures exists i | 0 <= i < |ts| :: IsOwing(ts[i])
  {
    if !IsOwing(ts[0]) {
      SomeOwing(ts[1..]);
      var i :| 0 <= i < |ts| - 1 && IsOwing(ts[1..][i]);
      assert IsOwing(ts[i + 1]);
    }
  }

  lemma {:induction false} FillingRun(s: Table, schedule: seq<nat>)
    requires Counting(s) && Filling(s)
    ensures Counting(Run(s, schedule)) == Counting(s) && Filling(Run(s, schedule)) == Filling(s)
    decreases |schedule|
  {
    if schedule == [] {
    } else {
      var i := schedule[0];
      CountingStep(s, i);
      if i < |s.threads| {
        match s.threads[i].pc
        case Ready => FillingEnter(s, i);
        case Admitted => FillingPlace(s, i);
        case Owing(_) => FillingReturn(s, i);
        case Returned(_) =>
      }
      FillingRun(Next(s, i), schedule[1..]);
    }
  }

  lemma {:induction false} CountAll(ts: seq<Thread>, p: Thread -> bool)
    requires forall t | t in ts :: p(t)
    ensures Count(ts, p) == |ts|
  {
    if ts == [] {
    } else {
      CountAll(ts[1..], p);
    }
  }

  lemma {:induction false} CountBound(ts: seq<Thread>, p: Thread -> bool)
    ensures Count(ts, p) <= |ts|
  {
    if ts == [] {
    } else {
      CountBound(ts[1..], p);
    }
  }

  /** However concurrent registrations of distinct keys interleave, exactly min(capacity, n) succeed: the
      transient over-count never turns away a caller for whom there was room. */
  lemma ExactlyCapacitySucceed(capacity: nat, calls: seq<Call>, schedule: seq<nat>)
    requires DistinctRegistrations(Init(capacity, calls).threads)
    requires forall t | t in Run(Init(capacity, calls), schedule).threads :: t.pc.Returned?
    ensures Count(Run(Init(capacity, calls), schedule).threads, Won)
            == if |calls| <= capacity then |calls| else capacity
  {
    var s := Run(Init(capacity, calls), schedule);
    InitCounts(capacity, calls);
    FillingRun(Init(capacity, calls), schedule);
    Constants(Init(capacity, calls), schedule);
    CountNone(s.threads, IsAdmitted);
    CountBound(s.threads, Won);
    if !SomeRefused(s.threads) {
      forall t | t in s.threads ensures Won(t) {
        var i :| 0 <= i < |s.threads| && s.threads[i] == t;
      }
      CountAll(s.threads, Won);
    }
  }
}
