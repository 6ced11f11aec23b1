/** The durable webhook queue in its two forms. The in-memory form marks a claimed row with a lease flag
    and its claim time; the Postgres form moves the row's next retry time past the lease. Times are
    integers on one clock. */
module Webhook {
  import opened Numbered

  type Id = string
  type Time = int

  datatype Delivery = Delivery(payload: string, attempts: int, lastError: Option<string>)

  datatype Row = Row(d: Delivery, retryAt: Time, leased: bool, leasedAt: Option<Time>)

  /** No lease stands, or it is stale. This is all that the claim loop looks at. */
  predicate Grantable(r: Row, now: Time, expiry: nat) {
    !r.leased || r.leasedAt.None? || now - r.leasedAt.value > expiry
  }

  /** What the scan looks for. */
  predicate Claimable(r: Row, now: Time, expiry: nat) { r.retryAt <= now && Grantable(r, now, expiry) }

  function Leased(r: Row, now: Time): Row { r.(leased := true, leasedAt := Some(now)) }

  function Failed(r: Row, retryAt: Time, attempts: int, error: string): Row {
    Row(Delivery(r.d.payload, attempts, Some(error)), retryAt, false, None)
  }

  // ---- The in-memory store ----

  ghost function Due(rows: map<Id, Row>, now: Time, expiry: nat): set<Id> {
    set id | id in rows && Claimable(rows[id], now, expiry)
  }

  /** Insertion by retry time, after equal ones: folding it is the stable sort of the source. */
  function Insert(rows: map<Id, Row>, id: Id, ids: seq<Id>): seq<Id>
    requires id in rows && forall x | x in ids :: x in rows
  {
    if ids == [] then [id]
    else if rows[id].retryAt < rows[ids[0]].retryAt then [id] + ids
    else [ids[0]] + Insert(rows, id, ids[1..])
  }

  ghost predicate Distinct(ids: seq<Id>) { forall i, j | 0 <= i < j < |ids| :: ids[i] != ids[j] }

  ghost predicate SortedByRetry(rows: map<Id, Row>, ids: seq<Id>) {
    && (forall x | x in ids :: x in rows)
    && forall i, j | 0 <= i < j < |ids| :: rows[ids[i]].retryAt <= rows[ids[j]].retryAt
  }

  lemma ConsKeeps(rows: map<Id, Row>, x: Id, ids: seq<Id>)
    requires x in rows && SortedByRetry(rows, ids) && Distinct(ids)
    requires forall y | y in ids :: y != x && rows[x].retryAt <= rows[y].retryAt
    ensures SortedByRetry(rows, [x] + ids) && Distinct([x] + ids)
  {
  }

  lemma {:induction false} InsertKeeps(rows: map<Id, Row>, id: Id, ids: seq<Id>)
    requires id in rows && SortedByRetry(rows, ids) && Distinct(ids) && id !in ids
    ensures var r := Insert(rows, id, ids);
            && (forall x :: x in r <==> x == id || x in ids)
            && SortedByRetry(rows, r) && Distinct(r)
  {
    if ids == [] {
    } else {
      assert ids == [ids[0]] + ids[1..];
      if rows[id].retryAt < rows[ids[0]].retryAt {
        ConsKeeps(rows, id, ids);
      } else {
        InsertKeeps(rows, id, ids[1..]);
        ConsKeeps(rows, ids[0], Insert(rows, id, ids[1..]));
      }
    }
  }

  ghost predicate Lists(order: seq<Id>, keys: set<Id>) {
    Distinct(order) && forall id :: id in order <==> id in keys
  }

  class MemoryStore {
    var rows: map<Id, Row>
    const expiry: nat

    constructor (expiry: nat)
      ensures rows == map[] && this.expiry == expiry
    {
      rows := map[];
      this.expiry := expiry;
    }

    method Enqueue(id: Id, d: Delivery, retryAt: Time)
      modifies this
      ensures rows == MemNext(old(rows), expiry, EnqueueCall(id, d, retryAt))
    {
      rows := rows[id := Row(d, retryAt, false, None)];
    }

    method Delete(id: Id)
      modifies this
      ensures rows == MemNext(old(rows), expiry, DeleteCall(id))
    {
      rows := rows - {id};
    }

    method MarkFailed(id: Id, retryAt: Time, attempts: int, error: string)
      modifies this
      ensures rows == MemNext(old(rows), expiry, FailCall(id, retryAt, attempts, error))
    {
      if id in rows { rows := rows[id := Failed(rows[id], retryAt, attempts, error)]; }
    }

    /** The scan, in the map's own iteration order, collected and sorted. */
    method Scan(now: Time, order: seq<Id>) returns (found: seq<Id>)
      requires Lists(order, rows.Keys)
      ensures SortedByRetry(rows, found) && Distinct(found)
      ensures forall id :: id in found <==> id in Due(rows, now, expiry)
    {
      found := [];
      for k := 0 to |order|
        invariant SortedByRetry(rows, found) && Distinct(found)
        invariant forall id :: id in found <==> id in order[..k] && id in Due(rows, now, expiry)
      {
        assert order[k] in order && order[k] !in order[..k];
        assert order[..k + 1] == order[..k] + [order[k]];
        if Claimable(rows[order[k]], now, expiry) {
          InsertKeeps(rows, order[k], found);
          found := Insert(rows, order[k], found);
        }
      }
      assert order[..|order|] == order;
    }

    /** The claim loop: each row is checked again before its flag is flipped. */
    method ClaimAll(now: Time, candidates: seq<Id>) returns (claimed: seq<Id>)
      requires Distinct(candidates)
      requires forall id | id in candidates :: id in rows && Grantable(rows[id], now, expiry)
      modifies this
      ensures claimed == candidates && rows.Keys == old(rows).Keys
      ensures forall id | id in rows :: rows[id] == if id in claimed then Leased(old(rows)[id], now) else old(rows)[id]
    {
      claimed := [];
      for k := 0 to |candidates|
        invariant claimed == candidates[..k]
        invariant rows.Keys == old(rows).Keys
        invariant forall id | id in rows ::
                    rows[id] == if id in candidates[..k] then Leased(old(rows)[id], now) else old(rows)[id]
      {
        var id := candidates[k];
        assert id in candidates && id !in candidates[..k];
        assert candidates[..k + 1] == candidates[..k] + [id];
        if id in rows && Grantable(rows[id], now, expiry) {
          rows := rows[id := Leased(rows[id], now)];
          claimed := claimed + [id];
        }
      }
      assert candidates[..|candidates|] == candidates;
    }

    /** Claims up to `limit` due rows, oldest first. */
    method LeaseDue(now: Time, limit: nat, order: seq<Id>) returns (claimed: seq<Id>)
      requires Lists(order, rows.Keys)
      modifies this
      ensures SortedByRetry(old(rows), claimed) && Distinct(claimed)
      ensures forall id | id in claimed :: id in Due(old(rows), now, expiry)
      ensures |claimed| <= limit
      ensures |claimed| == limit || forall id | id in Due(old(rows), now, expiry) :: id in claimed
      ensures forall a, b | a in claimed && b in Due(old(rows), now, expiry) && b !in claimed ::
                old(rows)[a].retryAt <= old(rows)[b].retryAt
      ensures rows.Keys == old(rows).Keys
      ensures forall id | id in rows :: rows[id] == if id in claimed then Leased(old(rows)[id], now) else old(rows)[id]
      ensures (forall id | id in Due(old(rows), now, expiry) :: id in claimed)
              ==> rows == MemNext(old(rows), expiry, LeaseCall(now))
    {
      var found := Scan(now, order);
      var candidates := if |found| > limit then found[..limit] else found;
      CutRespectsOrder(rows, found, limit);
      forall id | id in candidates ensures id in Due(rows, now, expiry) { assert id in found; }
      ghost var before := rows;
      claimed := ClaimAll(now, candidates);
      if forall id | id in Due(before, now, expiry) :: id in claimed { AllDueLeased(before, rows, claimed, now, expiry); }
    }

    /** When the worker should wake up next. */
    method EarliestNextRetry(now: Time) returns (t: Option<Time>)
      ensures (t.Some? && t.value <= now) <==> Due(rows, now, expiry) != {}
      ensures t.Some? <==> exists id :: id in rows && Grantable(rows[id], now, expiry)
      ensures t.Some? ==> exists id :: id in rows && Grantable(rows[id], now, expiry) && rows[id].retryAt == t.value
      ensures t.Some? ==> forall id | id in rows && Grantable(rows[id], now, expiry) :: t.value <= rows[id].retryAt
    {
      t := None;
      var todo := rows.Keys;
      while todo != {}
        invariant todo <= rows.Keys
        invariant t.None? ==> forall id | id in rows && id !in todo :: !Grantable(rows[id], now, expiry)
        invariant t.Some? ==> exists id :: id in rows && Grantable(rows[id], now, expiry) && rows[id].retryAt == t.value
        invariant t.Some? ==> forall id | id in rows && id !in todo && Grantable(rows[id], now, expiry) :: t.value <= rows[id].retryAt
        decreases todo
      {
        var id :| id in todo;
        todo := todo - {id};
        if Grantable(rows[id], now, expiry) && (t.None? || rows[id].retryAt < t.value) {
          t := Some(rows[id].retryAt);
        }
      }
      WakeUpMeansWork(rows, now, expiry, t);
    }
  }

  lemma AllDueLeased(before: map<Id, Row>, after: map<Id, Row>, claimed: seq<Id>, now: Time, expiry: nat)
    requires after.Keys == before.Keys && forall id :: id in claimed <==> id in Due(before, now, expiry)
    requires forall id | id in after :: after[id] == if id in claimed then Leased(before[id], now) else before[id]
    ensures after == MemNext(before, expiry, LeaseCall(now))
  {
  }

  /** Cutting a sorted list leaves the oldest. */
  lemma CutRespectsOrder(rows: map<Id, Row>, ids: seq<Id>, limit: nat)
    requires SortedByRetry(rows, ids) && Distinct(ids)
    ensures var cut := if |ids| > limit then ids[..limit] else ids;
            && (forall x | x in cut :: x in ids) && Distinct(cut) && SortedByRetry(rows, cut)
            && forall a, b | a in cut && b in ids && b !in cut :: rows[a].retryAt <= rows[b].retryAt
  {
    var cut := if |ids| > limit then ids[..limit] else ids;
    forall a, b | a in cut && b in ids && b !in cut ensures rows[a].retryAt <= rows[b].retryAt {
      var i :| 0 <= i < |cut| && cut[i] == a;
      var j :| 0 <= j < |ids| && ids[j] == b;
      assert j >= |cut|;
    }
  }

  // ---- Claims over interleaved calls ----

  /** A claim step belongs to some `lease_due(now)` whose scan offered the row at any earlier moment: only
      the check under the row's guard decides. */
  datatype Step =
    | Enqueue(id: Id, d: Delivery, retryAt: Time)
    | Delete(id: Id)
    | MarkFailed(id: Id, retryAt: Time, attempts: int, error: string)
    | TryClaim(id: Id, now: Time)

  /** What happened to rows: claims, and the writes that end a lease. */
  datatype Mark = Claimed(id: Id, now: Time) | Reset(id: Id)

  datatype Queue = Queue(expiry: nat, rows: map<Id, Row>, marks: seq<Mark>)

  function Next(q: Queue, e: Step): Queue {
    match e
    case Enqueue(id, d, retryAt) =>
      q.(rows := q.rows[id := Row(d, retryAt, false, None)], marks := q.marks + [Reset(id)])
    case Delete(id) => q.(rows := q.rows - {id}, marks := q.marks + [Reset(id)])
    case MarkFailed(id, retryAt, attempts, error) =>
      if id !in q.rows then q
      else q.(rows := q.rows[id := Failed(q.rows[id], retryAt, attempts, error)], marks := q.marks + [Reset(id)])
    case TryClaim(id, now) =>
      if id in q.rows && Grantable(q.rows[id], now, q.expiry)
      then q.(rows := q.rows[id := Leased(q.rows[id], now)], marks := q.marks + [Claimed(id, now)]) else q
  }

  function Run(q: Queue, es: seq<Step>): Queue
    decreases |es|
  {
    if es == [] then q else Run(Next(q, es[0]), es[1..])
  }

  /** What a row holds and when it is due, computed from the writes to it alone. */
  function Written(before: Option<(Delivery, Time)>, es: seq<Step>, id: Id): Option<(Delivery, Time)>
    decreases |es|
  {
    if es == [] then before
    else
      var after := match es[0]
        case Enqueue(i, d, retryAt) => if i == id then Some((d, retryAt)) else before
        case Delete(i) => if i == id then None else before
        case MarkFailed(i, retryAt, attempts, error) =>
          if i == id && before.Some?
          then Some((Delivery(before.value.0.payload, attempts, Some(error)), retryAt)) else before
        case TryClaim(_, _) => before;
      Written(after, es[1..], id)
  }

  function Held(q: Queue, id: Id): Option<(Delivery, Time)> {
    if id in q.rows then Some((q.rows[id].d, q.rows[id].retryAt)) else None
  }

  /** Over every interleaving of claims and of writes to any rows, a row is there and holds what the writes to it
      left: claims change neither its delivery nor when it is due. */
  lemma {:induction false} RowHoldsWhatWasWritten(q: Queue, es: seq<Step>, id: Id)
    ensures Held(Run(q, es), id) == Written(Held(q, id), es, id)
    decreases |es|
  {
    if es == [] {
    } else {
      RowHoldsWhatWasWritten(Next(q, es[0]), es[1..], id);
    }
  }

  /** The time of the last claim of a row that no write ended since. */
  function Standing(marks: seq<Mark>, id: Id): Option<Time> {
    if marks == [] then None
    else
      var m := marks[|marks| - 1];
      if m.id != id then Standing(marks[..|marks| - 1], id)
      else if m.Claimed? then Some(m.now) else None
  }

  ghost predicate ClaimsApart(marks: seq<Mark>, expiry: nat) {
    forall i, j | 0 <= i < j < |marks| && marks[i].Claimed? && marks[j].Claimed? && marks[i].id == marks[j].id
                  && (forall k | i < k < j :: marks[k] != Reset(marks[i].id)) ::
      marks[j].now - marks[i].now > expiry
  }

  ghost predicate QueueInv(q: Queue) {
    && (forall id :: Standing(q.marks, id).Some? ==>
          id in q.rows && q.rows[id].leased && q.rows[id].leasedAt == Standing(q.marks, id))
    && ClaimsApart(q.marks, q.expiry)
  }

  /** A claim that no write ended is at or before the standing one. */
  lemma {:induction false} StandingIsLatest(marks: seq<Mark>, i: nat, expiry: nat)
    requires i < |marks| && marks[i].Claimed? && ClaimsApart(marks, expiry)
    requires forall k | i < k < |marks| :: marks[k] != Reset(marks[i].id)
    ensures Standing(marks, marks[i].id).Some? && marks[i].now <= Standing(marks, marks[i].id).value
    decreases |marks|
  {
    var last := |marks| - 1;
    if i < last && marks[last].id != marks[i].id {
      var init := marks[..last];
      assert ClaimsApart(init, expiry) by {
        forall a, b | 0 <= a < b < |init| && init[a].Claimed? && init[b].Claimed? && init[a].id == init[b].id
                      && (forall k | a < k < b :: init[k] != Reset(init[a].id))
          ensures init[b].now - init[a].now > expiry
        {
          assert forall k | a < k < b :: marks[k] == init[k];
        }
      }
      StandingIsLatest(init, i, expiry);
    }
  }

  lemma ClaimKeeps(q: Queue, id: Id, now: Time)
    requires QueueInv(q) && id in q.rows && Grantable(q.rows[id], now, q.expiry)
    ensures ClaimsApart(q.marks + [Claimed(id, now)], q.expiry)
  {
    var marks := q.marks + [Claimed(id, now)];
    forall i, j | 0 <= i < j < |marks| && marks[i].Claimed? && marks[j].Claimed? && marks[i].id == marks[j].id
                  && (forall k | i < k < j :: marks[k] != Reset(marks[i].id))
      ensures marks[j].now - marks[i].now > q.expiry
    {
      assert forall k | i < k < j :: marks[k] == q.marks[k];
      if j == |q.marks| { StandingIsLatest(q.marks, i, q.expiry); }
    }
  }

  lemma ResetKeeps(q: Queue, id: Id)
    requires QueueInv(q)
    ensures ClaimsApart(q.marks + [Reset(id)], q.expiry)
  {
    var marks := q.marks + [Reset(id)];
    forall i, j | 0 <= i < j < |marks| && marks[i].Claimed? && marks[j].Claimed? && marks[i].id == marks[j].id
                  && (forall k | i < k < j :: marks[k] != Reset(marks[i].id))
      ensures marks[j].now - marks[i].now > q.expiry
    {
      assert forall k | i < k < j :: marks[k] == q.marks[k];
    }
  }

  lemma StepKeeps(q: Queue, e: Step)
    requires QueueInv(q)
    ensures QueueInv(Next(q, e))
  {
    var t := Next(q, e);
    if t.marks != q.marks {
      var m := t.marks[|q.marks|];
      forall id ensures Standing(t.marks, id) ==
                        if m.id != id then Standing(q.marks, id) else if m.Claimed? then Some(m.now) else None
      {
      }
      if e.TryClaim? { ClaimKeeps(q, e.id, e.now); } else { ResetKeeps(q, e.id); }
    }
  }

  lemma {:induction false} RunKeeps(q: Queue, es: seq<Step>)
    requires QueueInv(q)
    ensures QueueInv(Run(q, es)) == QueueInv(q) && Run(q, es).expiry == q.expiry
    decreases |es|
  {
    if es == [] {
    } else {
      StepKeeps(q, es[0]);
      RunKeeps(Next(q, es[0]), es[1..]);
    }
  }

  /** However scans and claims of several `lease_due` calls interleave, two claims of one event with no
      enqueue, delete or mark_failed of it in between are more than the lease expiry apart. */
  lemma ClaimsAreALeaseApart(expiry: nat, es: seq<Step>)
    ensures ClaimsApart(Run(Queue(expiry, map[], []), es).marks, expiry)
  {
    RunKeeps(Queue(expiry, map[], []), es);
  }

  /** The wake-up time is due exactly when a lease with a positive limit would return something. */
  lemma WakeUpMeansWork(rows: map<Id, Row>, now: Time, expiry: nat, t: Option<Time>)
    requires t.Some? <==> exists id :: id in rows && Grantable(rows[id], now, expiry)
    requires t.Some? ==> exists id :: id in rows && Grantable(rows[id], now, expiry) && rows[id].retryAt == t.value
    requires t.Some? ==> forall id | id in rows && Grantable(rows[id], now, expiry) :: t.value <= rows[id].retryAt
    ensures (t.Some? && t.value <= now) <==> Due(rows, now, expiry) != {}
  {
    if t.Some? && t.value <= now {
      var id :| id in rows && Grantable(rows[id], now, expiry) && rows[id].retryAt == t.value;
      assert id in Due(rows, now, expiry);
    }
    if Due(rows, now, expiry) != {} {
      var id :| id in Due(rows, now, expiry);
      assert id in rows && Grantable(rows[id], now, expiry);
    }
  }

  // ---- The Postgres form ----

  datatype PgRow = PgRow(d: Delivery, retryAt: Time)

  ghost function PgDue(rows: map<Id, PgRow>, now: Time): set<Id> { set id | id in rows && rows[id].retryAt <= now }

  datatype Call =
    | EnqueueCall(id: Id, d: Delivery, retryAt: Time)
    | DeleteCall(id: Id)
    | FailCall(id: Id, retryAt: Time, attempts: int, error: string)
    | LeaseCall(now: Time)  // with a limit that does not cut the result

  ghost function MemNext(rows: map<Id, Row>, expiry: nat, c: Call): map<Id, Row> {
    match c
    case EnqueueCall(id, d, retryAt) => rows[id := Row(d, retryAt, false, None)]
    case DeleteCall(id) => rows - {id}
    case FailCall(id, retryAt, attempts, error) =>
      if id in rows then rows[id := Failed(rows[id], retryAt, attempts, error)] else rows
    case LeaseCall(now) =>
      map id | id in rows :: if Claimable(rows[id], now, expiry) then Leased(rows[id], now) else rows[id]
  }

  ghost function PgNext(rows: map<Id, PgRow>, lease: nat, c: Call): map<Id, PgRow> {
    match c
    case EnqueueCall(id, d, retryAt) => rows[id := PgRow(d, retryAt)]
    case DeleteCall(id) => rows - {id}
    case FailCall(id, retryAt, attempts, error) =>
      if id in rows then rows[id := PgRow(Delivery(rows[id].d.payload, attempts, Some(error)), retryAt)] else rows
    case LeaseCall(now) =>
      map id | id in rows :: if rows[id].retryAt <= now then rows[id].(retryAt := now + lease) else rows[id]
  }

  ghost function MemRun(rows: map<Id, Row>, expiry: nat, cs: seq<Call>): map<Id, Row>
    decreases |cs|
  {
    if cs == [] then rows else MemRun(MemNext(rows, expiry, cs[0]), expiry, cs[1..])
  }

  ghost function PgRun(rows: map<Id, PgRow>, lease: nat, cs: seq<Call>): map<Id, PgRow>
    decreases |cs|
  {
    if cs == [] then rows else PgRun(PgNext(rows, lease, cs[0]), lease, cs[1..])
  }

  /** Some lease ends exactly now: the strict and the non-strict comparison disagree only here. */
  ghost predicate ExpiryInstant(rows: map<Id, Row>, expiry: nat, now: Time) {
    exists id :: id in rows && rows[id].leased && rows[id].leasedAt == Some(now - expiry)
  }

  ghost predicate OffInstants(rows: map<Id, Row>, expiry: nat, cs: seq<Call>)
    decreases |cs|
  {
    cs == [] || ((cs[0].LeaseCall? ==> !ExpiryInstant(rows, expiry, cs[0].now))
                 && OffInstants(MemNext(rows, expiry, cs[0]), expiry, cs[1..]))
  }

  ghost predicate RowMatches(r: Row, p: PgRow, expiry: nat) {
    && r.d == p.d
    && (if r.leased then r.leasedAt.Some? && r.retryAt <= r.leasedAt.value && p.retryAt == r.leasedAt.value + expiry
        else p.retryAt == r.retryAt)
  }

  ghost predicate Matches(rows: map<Id, Row>, pg: map<Id, PgRow>, expiry: nat) {
    rows.Keys == pg.Keys && forall id | id in rows :: RowMatches(rows[id], pg[id], expiry)
  }

  /** Matching rows are due together, except at the exact expiry instant, where only Postgres offers them. */
  lemma DueTogether(r: Row, p: PgRow, expiry: nat, now: Time)
    requires RowMatches(r, p, expiry)
    ensures (Claimable(r, now, expiry) <==> p.retryAt <= now) <==> !(r.leased && r.leasedAt == Some(now - expiry))
  {
  }

  lemma LeaseMatches(rows: map<Id, Row>, pg: map<Id, PgRow>, expiry: nat, now: Time)
    requires Matches(rows, pg, expiry) && !ExpiryInstant(rows, expiry, now)
    ensures Matches(MemNext(rows, expiry, LeaseCall(now)), PgNext(pg, expiry, LeaseCall(now)), expiry)
  {
    forall id | id in rows ensures Claimable(rows[id], now, expiry) <==> pg[id].retryAt <= now {
      DueTogether(rows[id], pg[id], expiry, now);
    }
  }

  lemma {:induction false} RunsMatch(rows: map<Id, Row>, pg: map<Id, PgRow>, expiry: nat, cs: seq<Call>)
    requires Matches(rows, pg, expiry) && OffInstants(rows, expiry, cs)
    ensures Matches(MemRun(rows, expiry, cs), PgRun(pg, expiry, cs), expiry)
    decreases |cs|
  {
    if cs == [] {
    } else {
      if cs[0].LeaseCall? { LeaseMatches(rows, pg, expiry, cs[0].now); }
      RunsMatch(MemNext(rows, expiry, cs[0]), PgNext(pg, expiry, cs[0]), expiry, cs[1..]);
    }
  }

  lemma OffersTogether(rows: map<Id, Row>, pg: map<Id, PgRow>, expiry: nat, now: Time)
    requires Matches(rows, pg, expiry)
    ensures Due(rows, now, expiry) == PgDue(pg, now) <==> !ExpiryInstant(rows, expiry, now)
  {
    forall id | id in rows
      ensures (id in Due(rows, now, expiry) <==> id in PgDue(pg, now))
              <==> !(rows[id].leased && rows[id].leasedAt == Some(now - expiry))
    {
      DueTogether(rows[id], pg[id], expiry, now);
    }
  }

  /** After every run with the same lease length and no lease taken at an exact expiry instant, the two
      stores offer the same events at an instant exactly when no lease ends at that instant. */
  lemma StoresOfferTheSame(expiry: nat, cs: seq<Call>, now: Time)
    requires OffInstants(map[], expiry, cs)
    ensures var rows := MemRun(map[], expiry, cs);
            Due(rows, now, expiry) == PgDue(PgRun(map[], expiry, cs), now) <==> !ExpiryInstant(rows, expiry, now)
  {
    RunsMatch(map[], map[], expiry, cs);
    OffersTogether(MemRun(map[], expiry, cs), PgRun(map[], expiry, cs), expiry, now);
  }

  /** At every lease of the run the two stores offer the same events. */
  ghost predicate SameOffers(rows: map<Id, Row>, pg: map<Id, PgRow>, expiry: nat, cs: seq<Call>)
    decreases |cs|
  {
    cs == [] || ((cs[0].LeaseCall? ==> Due(rows, cs[0].now, expiry) == PgDue(pg, cs[0].now))
                 && SameOffers(MemNext(rows, expiry, cs[0]), PgNext(pg, expiry, cs[0]), expiry, cs[1..]))
  }

  lemma {:induction false} OffersExactly(rows: map<Id, Row>, pg: map<Id, PgRow>, expiry: nat, cs: seq<Call>)
    requires Matches(rows, pg, expiry)
    ensures SameOffers(rows, pg, expiry, cs) <==> OffInstants(rows, expiry, cs)
    decreases |cs|
  {
    if cs == [] {
    } else {
      if cs[0].LeaseCall? { OffersTogether(rows, pg, expiry, cs[0].now); }
      if cs[0].LeaseCall? ==> !ExpiryInstant(rows, expiry, cs[0].now) {
        if cs[0].LeaseCall? { LeaseMatches(rows, pg, expiry, cs[0].now); }
        OffersExactly(MemNext(rows, expiry, cs[0]), PgNext(pg, expiry, cs[0]), expiry, cs[1..]);
      }
    }
  }

  /** Through a whole run from empty stores, every lease finds the same events in both if and only if no lease of
      the run is taken at the instant another one ends. */
  lemma LeasesFindTheSameExactly(expiry: nat, cs: seq<Call>)
    ensures SameOffers(map[], map[], expiry, cs) <==> OffInstants(map[], expiry, cs)
  {
    OffersExactly(map[], map[], expiry, cs);
  }

  /** A run that shows the difference: one event, leased at time zero, is offered by Postgres at the instant
      the lease ends and by the in-memory store only afterwards. */
  lemma ExpiryInstantDiffers(expiry: nat, id: Id, d: Delivery)
    ensures var cs := [EnqueueCall(id, d, 0), LeaseCall(0)];
            var rows, pg := MemRun(map[], expiry, cs), PgRun(map[], expiry, cs);
            && id in PgDue(pg, expiry) && id !in Due(rows, expiry, expiry)
            && id in PgDue(pg, expiry + 1) && id in Due(rows, expiry + 1, expiry)
  {
    var cs := [EnqueueCall(id, d, 0), LeaseCall(0)];
    assert cs[1..] == [LeaseCall(0)] && [LeaseCall(0)][1..] == [];
    var rows := MemNext(map[], expiry, cs[0]);
    var pg := PgNext(map[], expiry, cs[0]);
    assert MemRun(map[], expiry, cs) == MemRun(rows, expiry, [LeaseCall(0)]);
    assert PgRun(map[], expiry, cs) == PgRun(pg, expiry, [LeaseCall(0)]);
    assert MemRun(rows, expiry, [LeaseCall(0)]) == MemNext(rows, expiry, LeaseCall(0));
    assert PgRun(pg, expiry, [LeaseCall(0)]) == PgNext(pg, expiry, LeaseCall(0));
  }
}
