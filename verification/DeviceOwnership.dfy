/** Who owns a device. Several hub replicas pre-register the same device id at once, each in a Postgres
    transaction of three statements, while Hellos upsert the same row and it may be deleted. Rows of
    different devices do not interact, so the model is about one row.

    Postgres at its default isolation: a statement sees the last committed row; a row that a transaction
    has locked or changed makes the statements of others wait until that transaction ends. An insert that
    is not committed yet makes writes wait, while a SELECT ... FOR UPDATE sees no row and goes on. A waiting
    statement is a step that changes nothing. */
module DeviceOwnership {
  import opened Numbered

  type User = string
  type Key = string

  datatype Row = Row(owner: Option<User>, key: Option<Key>, hostname: string)

  /** A `pre_register` call: not begun (with retries used), past its ownership check, row written but not
      committed, succeeded, told that somebody else owns the device, or failed on a database error. */
  datatype Pc = Start(retries: nat) | Checked(retries: nat) | Written | Won | Lost(owner: User) | Failed

  datatype Claimant = Claimant(user: User, key: Key, pc: Pc)

  datatype Db = Db(row: Option<Row>, pending: Option<Row>, lock: Option<nat>, claimants: seq<Claimant>)

  datatype Step =
    | Go(i: nat)                          // claimant `i` executes its next statement
    | DuplicateKey(i: nat)                // its insert dies on the unique constraint instead
    | Abort(i: nat)                       // any other database error: the transaction is rolled back
    | Hello(key: Key, hostname: string)   // the upsert of an accepted Hello
    | Insert                              // the unclaimed row of the bootstrap flow
    | Delete

  // ---- The single-step form of the in-memory store ----

  predicate MayClaim(row: Option<Row>, user: User) {
    row.None? || row.value.owner.None? || row.value.owner.value == user
  }

  function Claimed(row: Option<Row>, user: User, key: Key): Row {
    if row.None? then Row(Some(user), Some(key), "pending-device")
    else row.value.(owner := Some(user), key := Some(key))
  }

  function MemoryPreRegister(row: Option<Row>, user: User, key: Key): Option<Row> {
    if MayClaim(row, user) then Some(Claimed(row, user, key)) else row
  }

  class MemoryDeviceStore {
    var rows: map<string, Row>

    constructor ()
      ensures rows == map[]
    {
      rows := map[];
    }

    ghost function RowOf(device: string): Option<Row>
      reads this
    {
      if device in rows then Some(rows[device]) else None
    }

    method PreRegister(device: string, user: User, key: Key) returns (owner: User)
      modifies this
      ensures RowOf(device) == MemoryPreRegister(old(RowOf(device)), user, key)
      ensures RowOf(device).Some? && RowOf(device).value.owner == Some(owner)
      ensures owner == user <==> MayClaim(old(RowOf(device)), user)
      ensures owner == user ==> rows[device].key == Some(key)
                                && rows[device].hostname == (if device in old(rows) then old(rows)[device].hostname else "pending-device")
      ensures owner != user ==> rows == old(rows)
      ensures rows - {device} == old(rows) - {device}
    {
      if device in rows {
        var row := rows[device];
        if row.owner.Some? && row.owner.value != user { return row.owner.value; }
        rows := rows[device := row.(key := Some(key), owner := Some(user))];
      } else {
        rows := rows[device := Row(Some(user), Some(key), "pending-device")];
      }
      owner := user;
    }
  }

  // ---- The transactions ----

  predicate Blocked(s: Db, i: nat) { s.lock.Some? && s.lock.value != i }

  function Moved(s: Db, i: nat, pc: Pc): seq<Claimant>
    requires i < |s.claimants|
  {
    s.claimants[i := s.claimants[i].(pc := pc)]
  }

  /** The transaction of `i` ends without a commit. */
  function Ended(s: Db, i: nat, pc: Pc): Db
    requires i < |s.claimants|
  {
    if s.lock == Some(i) then s.(claimants := Moved(s, i, pc), lock := None, pending := None)
    else s.(claimants := Moved(s, i, pc))
  }

  /** SELECT ... FOR UPDATE and the ownership check. With no row there is nothing to lock. */
  function Select(s: Db, i: nat, retries: nat): Db
    requires i < |s.claimants|
  {
    if s.row.Some? && Blocked(s, i) then s
    else if !MayClaim(s.row, s.claimants[i].user) then Ended(s, i, Lost(s.row.value.owner.value))
    else s.(claimants := Moved(s, i, Checked(retries)), lock := if s.row.Some? then Some(i) else s.lock)
  }

  /** INSERT ... ON CONFLICT DO UPDATE ... WHERE unclaimed or ours; when the guard fails, the owner is read again. */
  function Upsert(s: Db, i: nat): Db
    requires i < |s.claimants|
  {
    var c := s.claimants[i];
    if Blocked(s, i) then s
    else if !MayClaim(s.row, c.user) then Ended(s, i, Lost(s.row.value.owner.value))
    else s.(claimants := Moved(s, i, Written), lock := Some(i), pending := Some(Claimed(s.row, c.user, c.key)))
  }

  function Commit(s: Db, i: nat): Db
    requires i < |s.claimants|
  {
    if s.lock != Some(i) || s.pending.None? then s
    else s.(row := s.pending, pending := None, lock := None, claimants := Moved(s, i, Won))
  }

  predicate Running(c: Claimant) { c.pc.Start? || c.pc.Checked? || c.pc.Written? }

  function Next(s: Db, e: Step): Db {
    match e
    case Go(i) =>
      if i >= |s.claimants| then s
      else (match s.claimants[i].pc
            case Start(retries) => Select(s, i, retries)
            case Checked(_) => Upsert(s, i)
            case Written => Commit(s, i)
            case _ => s)
    case DuplicateKey(i) =>
      if i >= |s.claimants| || !s.claimants[i].pc.Checked? then s
      else Ended(s, i, if s.claimants[i].pc.retries == 0 then Start(1) else Failed)
    case Abort(i) => if i >= |s.claimants| || !Running(s.claimants[i]) then s else Ended(s, i, Failed)
    case Hello(key, hostname) =>
      if s.lock.Some? then s
      else s.(row := Some(Row(if s.row.Some? then s.row.value.owner else None, Some(key), hostname)))
    case Insert => if s.lock.Some? || s.row.Some? then s else s.(row := Some(Row(None, None, "pending-device")))
    case Delete => if s.lock.Some? then s else s.(row := None)
  }

  function Run(s: Db, es: seq<Step>): Db
    decreases |es|
  {
    if es == [] then s else Run(Next(s, es[0]), es[1..])
  }

  function Init(claims: seq<(User, Key)>): Db {
    Db(None, None, None, seq(|claims|, i requires 0 <= i < |claims| => Claimant(claims[i].0, claims[i].1, Start(0))))
  }

  function Owner(s: Db): Option<User> { if s.row.Some? then s.row.value.owner else None }

  /** A written row is what its claimant may commit, computed from the row that still stands. */
  ghost predicate Inv(s: Db) {
    && (s.lock.Some? ==> s.lock.value < |s.claimants| && Running(s.claimants[s.lock.value]))
    && (s.pending.Some? ==>
          s.lock.Some? &&
          var c := s.claimants[s.lock.value];
          c.pc.Written? && MayClaim(s.row, c.user) && s.pending.value == Claimed(s.row, c.user, c.key))
    && (forall i | 0 <= i < |s.claimants| && s.claimants[i].pc.Written? :: s.lock == Some(i) && s.pending.Some?)
  }

  lemma StepKeeps(s: Db, e: Step)
    requires Inv(s)
    ensures Inv(Next(s, e))
  {
  }

  lemma {:induction false} RunKeeps(s: Db, es: seq<Step>)
    requires Inv(s)
    ensures Inv(Run(s, es)) == Inv(s) && |Run(s, es).claimants| == |s.claimants|
    decreases |es|
  {
    if es == [] {
    } else {
      StepKeeps(s, es[0]);
      RunKeeps(Next(s, es[0]), es[1..]);
    }
  }

  ghost predicate NoDelete(es: seq<Step>) { forall e | e in es :: !e.Delete? }

  lemma {:induction false} OwnerStays(s: Db, es: seq<Step>)
    requires Inv(s) && Owner(s).Some? && NoDelete(es)
    ensures Owner(Run(s, es)) == Owner(s)
    decreases |es|
  {
    if es == [] {
    } else {
      assert es[0] in es;
      StepKeeps(s, es[0]);
      OwnerStays(Next(s, es[0]), es[1..]);
    }
  }

  /** No interleaving of claims, Hellos, retries and errors moves a device from one user to another: once
      it is owned, it stays with that owner until a delete. */
  lemma OwnershipNeverMoves(claims: seq<(User, Key)>, es: seq<Step>, more: seq<Step>)
    requires Owner(Run(Init(claims), es)).Some? && NoDelete(more)
    ensures Owner(Run(Run(Init(claims), es), more)) == Owner(Run(Init(claims), es))
  {
    RunKeeps(Init(claims), es);
    OwnerStays(Run(Init(claims), es), more);
  }

  // ---- The race on a fresh id ----

  ghost predicate Smooth(es: seq<Step>) { forall e | e in es :: e.Go? || e.DuplicateKey? || e.Hello? || e.Insert? }

  ghost predicate WonBy(s: Db, i: nat, user: User) {
    i < |s.claimants| && s.claimants[i].pc.Won? && s.claimants[i].user == user
  }

  /** Verdicts agree with the row, and an owner is there because somebody won. */
  ghost predicate Verdicts(s: Db) {
    && (forall i | 0 <= i < |s.claimants| && s.claimants[i].pc.Won? :: Owner(s) == Some(s.claimants[i].user))
    && (forall i | 0 <= i < |s.claimants| && s.claimants[i].pc.Lost? ::
          Owner(s) == Some(s.claimants[i].pc.owner) && s.claimants[i].pc.owner != s.claimants[i].user)
    && (Owner(s).Some? ==> exists i :: WonBy(s, i, Owner(s).value))
  }

  /** A claimant's step leaves the others alone, and a verdict it reaches agrees with the row. */
  lemma GoVerdict(s: Db, i: nat)
    requires Inv(s) && i < |s.claimants|
    ensures var t := Next(s, Go(i)); var c := t.claimants[i];
            && (exists pc :: t.claimants == Moved(s, i, pc))
            && (c.pc.Won? && !s.claimants[i].pc.Won? ==> Owner(t) == Some(c.user))
            && (c.pc.Lost? && !s.claimants[i].pc.Lost? ==> Owner(t) == Some(c.pc.owner) && c.pc.owner != c.user)
            && (!c.pc.Won? ==> Owner(t) == Owner(s))
            && (Owner(t) != Owner(s) ==> c.pc.Won?)
            && (s.claimants[i].pc.Won? ==> t == s)
  {
    var t := Next(s, Go(i));
    assert t.claimants == Moved(s, i, t.claimants[i].pc);
  }

  lemma VerdictsGo(s: Db, i: nat)
    requires Inv(s) && Verdicts(s) && i < |s.claimants|
    ensures Verdicts(Next(s, Go(i)))
  {
    var t := Next(s, Go(i));
    GoVerdict(s, i);
    if Owner(s).Some? {
      var w :| WonBy(s, w, Owner(s).value);
      assert WonBy(t, w, Owner(t).value);
    } else if Owner(t).Some? {
      assert WonBy(t, i, Owner(t).value);
    }
  }

  lemma VerdictsStep(s: Db, e: Step)
    requires Inv(s) && Verdicts(s) && (e.Go? || e.DuplicateKey? || e.Hello? || e.Insert?)
    ensures Verdicts(Next(s, e))
  {
    if e.Go? {
      if e.i < |s.claimants| { VerdictsGo(s, e.i); }
    } else {
      var t := Next(s, e);
      assert Owner(t) == Owner(s);
      if Owner(s).Some? {
        var w :| WonBy(s, w, Owner(s).value);
        assert WonBy(t, w, Owner(t).value);
      }
    }
  }

  lemma {:induction false} VerdictsRun(s: Db, es: seq<Step>)
    requires Inv(s) && Verdicts(s) && Smooth(es)
    ensures Inv(Run(s, es)) == Inv(s) && Verdicts(Run(s, es)) == Verdicts(s)
    decreases |es|
  {
    if es == [] {
    } else {
      assert es[0] in es;
      StepKeeps(s, es[0]);
      VerdictsStep(s, es[0]);
      VerdictsRun(Next(s, es[0]), es[1..]);
    }
  }

  lemma {:induction false} UsersStay(s: Db, es: seq<Step>)
    ensures |Run(s, es).claimants| == |s.claimants|
    ensures forall i | 0 <= i < |s.claimants| :: Run(s, es).claimants[i].user == s.claimants[i].user
    decreases |es|
  {
    if es == [] {
    } else {
      UsersStay(Next(s, es[0]), es[1..]);
    }
  }

  ghost predicate OnlyWinner(s: Db, claims: seq<(User, Key)>, w: nat)
    requires w < |claims|
  {
    && |s.claimants| == |claims| && s.claimants[w].pc.Won? && Owner(s) == Some(claims[w].0)
    && forall i | 0 <= i < |claims| && i != w :: s.claimants[i].pc == Lost(claims[w].0)
  }

  /** Among racing claimants with different users, exactly one wins once all have their verdict, it owns the
      device, and every other is told so. */
  lemma ExactlyOneWins(claims: seq<(User, Key)>, es: seq<Step>)
    requires claims != [] && forall i, j | 0 <= i < j < |claims| :: claims[i].0 != claims[j].0
    requires Smooth(es)
    requires forall c | c in Run(Init(claims), es).claimants :: c.pc.Won? || c.pc.Lost?
    ensures exists w: nat | w < |claims| :: OnlyWinner(Run(Init(claims), es), claims, w)
  {
    var s := Run(Init(claims), es);
    VerdictsRun(Init(claims), es);
    UsersStay(Init(claims), es);
    assert s.claimants[0] in s.claimants;
    var w: nat :| WonBy(s, w, Owner(s).value);
    forall i | 0 <= i < |claims| && i != w ensures s.claimants[i].pc == Lost(claims[w].0) {
      assert s.claimants[i] in s.claimants;
      assert s.claimants[i].user == claims[i].0 && s.claimants[w].user == claims[w].0;
    }
    assert OnlyWinner(s, claims, w);
  }

  /** The row carries the key of a claimant that won it for its owner. */
  ghost predicate KeyOfWinner(s: Db) {
    Owner(s).Some? ==> exists i: nat :: WonBy(s, i, Owner(s).value) && s.row.value.key == Some(s.claimants[i].key)
  }

  lemma KeyOfWinnerStep(s: Db, e: Step)
    requires Inv(s) && KeyOfWinner(s) && !e.Hello?
    ensures KeyOfWinner(Next(s, e))
  {
    var t := Next(s, e);
    if Owner(t).Some? {
      if t.row == s.row {
        var w: nat :| WonBy(s, w, Owner(s).value) && s.row.value.key == Some(s.claimants[w].key);
        assert WonBy(t, w, Owner(t).value) && t.row.value.key == Some(t.claimants[w].key);
      } else {
        assert WonBy(t, e.i, Owner(t).value) && t.row.value.key == Some(t.claimants[e.i].key);
      }
    }
  }

  /** Between Hellos, an owned device carries the key that its owner registered. */
  lemma {:induction false} RowCarriesWinnersKey(s: Db, es: seq<Step>)
    requires Inv(s) && KeyOfWinner(s) && forall e | e in es :: !e.Hello?
    ensures KeyOfWinner(Run(s, es))
    decreases |es|
  {
    if es == [] {
    } else {
      assert es[0] in es;
      StepKeeps(s, es[0]);
      KeyOfWinnerStep(s, es[0]);
      RowCarriesWinnersKey(Next(s, es[0]), es[1..]);
    }
  }

  /** Every verdict takes effect at one moment, and there it is what the single step of the in-memory store
      gives: a commit writes that row, a refusal leaves it, and no other statement changes the row. */
  lemma TransactionsRefineMemory(s: Db, i: nat)
    requires Inv(s) && i < |s.claimants|
    ensures var t := Next(s, Go(i)); var c := s.claimants[i];
            && (t.claimants[i].pc.Won? && !c.pc.Won? ==>
                  && MayClaim(s.row, c.user) && t.row == MemoryPreRegister(s.row, c.user, c.key)
                  && t.row == Some(Row(Some(c.user), Some(c.key),
                                       if s.row.Some? then s.row.value.hostname else "pending-device")))
            && (t.claimants[i].pc.Lost? && !c.pc.Lost? ==>
                  && !MayClaim(s.row, c.user) && t.row == MemoryPreRegister(s.row, c.user, c.key)
                  && Some(t.claimants[i].pc.owner) == Owner(s))
            && (!t.claimants[i].pc.Won? ==> t.row == s.row)
  {
  }

  /** A deleted device is anybody's: the next claim that nobody interrupts wins it, whoever owned it before. */
  lemma DeletedDeviceCanBeClaimed(s: Db, i: nat)
    requires Inv(s) && s.lock.None? && i < |s.claimants| && s.claimants[i].pc.Start?
    ensures var t := Next(Next(Next(Next(s, Delete), Go(i)), Go(i)), Go(i)); var c := s.claimants[i];
            t.claimants[i].pc.Won? && t.row == Some(Row(Some(c.user), Some(c.key), "pending-device"))
  {
    var a := Next(s, Delete);
    var b := Next(a, Go(i));
    assert b.claimants[i] == s.claimants[i].(pc := Checked(s.claimants[i].pc.retries));
  }

  /** How many duplicate-key errors this call survives or fails on from here. */
  function Budget(pc: Pc): nat {
    if pc.Start? || pc.Checked? then (if pc.retries == 0 then 2 else 1) else 0
  }

  function DuplicateHits(s: Db, es: seq<Step>, i: nat): nat
    decreases |es|
  {
    if es == [] then 0
    else (if es[0] == DuplicateKey(i) && i < |s.claimants| && s.claimants[i].pc.Checked? then 1 else 0)
         + DuplicateHits(Next(s, es[0]), es[1..], i)
  }

  /** A call is retried once: over every run at most two duplicate-key errors reach it. */
  lemma {:induction false} CallIsRetriedOnce(s: Db, es: seq<Step>, i: nat)
    requires i < |s.claimants|
    ensures DuplicateHits(s, es, i) <= Budget(s.claimants[i].pc)
    decreases |es|
  {
    if es == [] {
    } else {
      CallIsRetriedOnce(Next(s, es[0]), es[1..], i);
    }
  }

  // ---- Whole runs against the in-memory store ----

  datatype MemoryOp = PreRegister(user: User, key: Key) | Greet(key: Key, hostname: string) | Create | Remove

  function MemoryApply(row: Option<Row>, op: MemoryOp): Option<Row> {
    match op
    case PreRegister(user, key) => MemoryPreRegister(row, user, key)
    case Greet(key, hostname) => Some(Row(if row.Some? then row.value.owner else None, Some(key), hostname))
    case Create => if row.None? then Some(Row(None, None, "pending-device")) else row
    case Remove => None
  }

  function MemoryRun(row: Option<Row>, ops: seq<MemoryOp>): Option<Row>
    decreases |ops|
  {
    if ops == [] then row else MemoryRun(MemoryApply(row, ops[0]), ops[1..])
  }

  predicate Verdict(pc: Pc) { pc.Won? || pc.Lost? }

  /** The single step a statement stands for, if it is the moment its call takes effect. */
  function EffectOf(s: Db, e: Step): seq<MemoryOp> {
    match e
    case Go(i) =>
      if i < |s.claimants| && !Verdict(s.claimants[i].pc) && i < |Next(s, e).claimants| && Verdict(Next(s, e).claimants[i].pc)
      then [PreRegister(s.claimants[i].user, s.claimants[i].key)] else []
    case Hello(key, hostname) => if s.lock.Some? then [] else [Greet(key, hostname)]
    case Insert => if s.lock.Some? then [] else [Create]
    case Delete => if s.lock.Some? then [] else [Remove]
    case _ => []
  }

  function EffectsOf(s: Db, es: seq<Step>): seq<MemoryOp>
    decreases |es|
  {
    if es == [] then [] else EffectOf(s, es[0]) + EffectsOf(Next(s, es[0]), es[1..])
  }

  lemma StepIsItsEffect(s: Db, e: Step)
    requires Inv(s)
    ensures Next(s, e).row == MemoryRun(s.row, EffectOf(s, e))
  {
    var ops := EffectOf(s, e);
    if ops != [] { assert ops[1..] == []; }
    if e.Go? && e.i < |s.claimants| { TransactionsRefineMemory(s, e.i); }
  }

  lemma {:induction false} MemoryRunConcat(row: Option<Row>, a: seq<MemoryOp>, b: seq<MemoryOp>)
    ensures MemoryRun(row, a + b) == MemoryRun(MemoryRun(row, a), b)
    decreases |a|
  {
    if a == [] {
      assert a + b == b;
    } else {
      assert (a + b)[0] == a[0] && (a + b)[1..] == a[1..] + b;
      MemoryRunConcat(MemoryApply(row, a[0]), a[1..], b);
    }
  }

  lemma {:induction false} RunIsItsEffects(s: Db, es: seq<Step>)
    requires Inv(s)
    ensures Run(s, es).row == MemoryRun(s.row, EffectsOf(s, es))
    decreases |es|
  {
    if es == [] {
    } else {
      StepKeeps(s, es[0]);
      StepIsItsEffect(s, es[0]);
      RunIsItsEffects(Next(s, es[0]), es[1..]);
      MemoryRunConcat(s.row, EffectOf(s, es[0]), EffectsOf(Next(s, es[0]), es[1..]));
    }
  }

  /** Every interleaving of the transactions leaves the row that the in-memory store would have after the
      same calls one after another, each at the moment of its verdict. */
  lemma TransactionsAreSerial(claims: seq<(User, Key)>, es: seq<Step>)
    ensures Run(Init(claims), es).row == MemoryRun(None, EffectsOf(Init(claims), es))
  {
    RunIsItsEffects(Init(claims), es);
  }
}
