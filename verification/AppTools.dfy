/** One application-tool call id on the daemon. Requests for it, duplicates included, are handled one at a
    time by the read loop; waiting for approval and running the handler happen in spawned tasks. The
    registry that makes a call idempotent is two structures under two locks: the set of running ids, and the
    list of completed outcomes. Steps are the accesses to them. Calls with other ids do not interact,
    except for the concurrency permit, which is an outcome of `Validate`. */
module AppTools {

  /** `Ran`: what the handler came to, its timeout and panic included. `Refused`: it never started. */
  datatype Outcome = Ran(result: string) | Refused(code: string)

  datatype Decision = NotFound | Denied | Allowed | NeedsApproval

  /** What parsing the arguments and taking a concurrency permit come to. */
  datatype Check = Valid | BadArgs | NoPermit

  function Failure(check: Check): Outcome { Refused(if check.NoPermit? then "CONCURRENCY_LIMIT" else "INVALID_ARGS") }

  /** The read loop inside `handle_app_tool_request`: between requests; saw the id not running; saw it
      unknown; past the gate; failing the call inline. */
  datatype Reader = Idle | NotRunning | Unknown | Validating | ReaderClears(why: Outcome) | ReaderRecords(why: Outcome)

  /** A spawned task. `Clears` then `Records` are the two halves of `mark_completed`. */
  datatype Task =
    | Waiting | Answered(approved: bool) | TimedOut | Ready | Executing
    | Clears(outcome: Outcome) | Records(outcome: Outcome) | Replies(outcome: Outcome) | Done

  /** `pending`: the waiter that an approval response would reach. `started`: the tasks whose handler ran, in
      order. `replies`: what was answered from a recorded outcome. `gateReplies`: errors sent by lookup and
      session gate, which are not recorded. */
  datatype State = State(running: bool, completed: seq<Outcome>, pending: set<nat>, reader: Reader,
                         tasks: seq<Task>, started: seq<nat>, replies: seq<Outcome>, gateReplies: nat)

  datatype Step =
    | CheckRunning                     // a request arrives: call_state under the first lock
    | CheckCompleted                   // call_state under the second lock
    | Gate(decision: Decision)
    | Validate(check: Check)           // the read loop parses arguments and takes a permit
    | ReaderStep                       // the read loop goes on with an inline failure
    | Respond(approved: bool)          // an approval response, from any surface
    | TimeUp(i: nat)                   // the wait of task `i` expires
    | TaskStep(i: nat, check: Check, result: string)

  function Init(): State { State(false, [], {}, Idle, [], [], [], 0) }

  function Moved(s: State, i: nat, t: Task): seq<Task>
    requires i < |s.tasks|
  {
    s.tasks[i := t]
  }

  function TaskNext(s: State, i: nat, check: Check, result: string): State
    requires i < |s.tasks|
  {
    match s.tasks[i]
    case Answered(approved) =>
      if !approved then s.(tasks := Moved(s, i, Clears(Refused("APPROVAL_DENIED"))))
      else if !check.Valid? then s.(tasks := Moved(s, i, Clears(Failure(check))))
      else s.(running := true, tasks := Moved(s, i, Ready))
    case TimedOut => s.(pending := {}, tasks := Moved(s, i, Clears(Refused("APPROVAL_TIMEOUT"))))
    case Ready => s.(started := s.started + [i], tasks := Moved(s, i, Executing))
    case Executing => s.(tasks := Moved(s, i, Clears(Ran(result))))
    case Clears(outcome) => s.(running := false, tasks := Moved(s, i, Records(outcome)))
    case Records(outcome) => s.(completed := s.completed + [outcome], tasks := Moved(s, i, Replies(outcome)))
    case Replies(outcome) => s.(replies := s.replies + [outcome], tasks := Moved(s, i, Done))
    case _ => s
  }

  function GateNext(s: State, d: Decision): State {
    match d
    case NotFound => s.(reader := Idle, gateReplies := s.gateReplies + 1)
    case Denied => s.(reader := Idle, gateReplies := s.gateReplies + 1)
    case Allowed => s.(reader := Validating)
    case NeedsApproval =>
      s.(reader := Idle, running := true, pending := {|s.tasks|}, tasks := s.tasks + [Waiting])
  }

  function Next(s: State, e: Step): State {
    match e
    case CheckRunning => if s.reader.Idle? && !s.running then s.(reader := NotRunning) else s
    case CheckCompleted =>
      if !s.reader.NotRunning? then s
      else if s.completed != [] then s.(reader := Idle, replies := s.replies + [s.completed[0]])
      else s.(reader := Unknown)
    case Gate(d) => if s.reader.Unknown? then GateNext(s, d) else s
    case Validate(check) =>
      if !s.reader.Validating? then s
      else if check.Valid? then s.(reader := Idle, running := true, tasks := s.tasks + [Ready])
      else s.(reader := ReaderClears(Failure(check)))
    case ReaderStep =>
      if s.reader.ReaderClears? then s.(running := false, reader := ReaderRecords(s.reader.why))
      else if s.reader.ReaderRecords?
      then s.(completed := s.completed + [s.reader.why], replies := s.replies + [s.reader.why], reader := Idle)
      else s
    case Respond(approved) =>
      s.(pending := {},
         tasks := seq(|s.tasks|, i requires 0 <= i < |s.tasks| =>
                        if i in s.pending && s.tasks[i].Waiting? then Answered(approved) else s.tasks[i]))
    case TimeUp(i) =>
      if i < |s.tasks| && s.tasks[i].Waiting? then s.(tasks := Moved(s, i, TimedOut)) else s
    case TaskStep(i, check, result) => if i < |s.tasks| then TaskNext(s, i, check, result) else s
  }

  function Run(s: State, es: seq<Step>): State
    decreases |es|
  {
    if es == [] then s else Run(Next(s, es[0]), es[1..])
  }

  // ---- The condition ----

  /** Some task has left the running set and has not recorded its outcome yet. */
  ghost predicate InGap(s: State) { s.completed == [] && exists i | 0 <= i < |s.tasks| :: s.tasks[i].Records? }

  /** No request looks at the completed list in such a moment. */
  ghost predicate GapFree(s: State, es: seq<Step>)
    decreases |es|
  {
    es == [] || ((es[0].CheckCompleted? && s.reader.NotRunning? ==> !InGap(s)) && GapFree(Next(s, es[0]), es[1..]))
  }

  // ---- Invariant of gap-free runs ----

  ghost predicate AllAre(replies: seq<Outcome>, o: Outcome) { forall i | 0 <= i < |replies| :: replies[i] == o }

  /** The handler ran exactly when the outcome says so. */
  predicate Accounts(o: Outcome, starts: nat) { starts == if o.Ran? then 1 else 0 }

  /** Nothing has been marked yet. */
  ghost predicate Untouched(s: State) {
    && !s.running && s.completed == [] && s.tasks == [] && s.started == [] && s.replies == [] && s.pending == {}
    && (s.reader.ReaderClears? || s.reader.ReaderRecords? ==> s.reader.why.Refused?)
  }

  /** One task owns the call. */
  ghost predicate Active(s: State) {
    && s.completed == [] && |s.tasks| == 1 && s.replies == [] && s.pending <= {0}
    && !s.tasks[0].Replies? && !s.tasks[0].Done?
    && (s.running <==> !s.tasks[0].Records?)
    && (s.reader.Idle? || (s.reader.NotRunning? && s.tasks[0].Records?))
    && |s.started| <= 1
    && (match s.tasks[0]
        case Executing => |s.started| == 1
        case Clears(o) => Accounts(o, |s.started|)
        case Records(o) => Accounts(o, |s.started|)
        case _ => |s.started| == 0)
  }

  /** The outcome is recorded. */
  ghost predicate Settled(s: State) {
    && |s.completed| == 1 && !s.running && s.pending <= {0}
    && (s.reader.Idle? || s.reader.NotRunning?)
    && |s.tasks| <= 1 && (|s.tasks| == 1 ==> s.tasks[0] == Replies(s.completed[0]) || s.tasks[0] == Done)
    && AllAre(s.replies, s.completed[0])
    && Accounts(s.completed[0], |s.started|)
  }

  ghost predicate Inv(s: State) { Untouched(s) || Active(s) || Settled(s) }

  lemma UntouchedStep(s: State, e: Step)
    requires Untouched(s)
    ensures Inv(Next(s, e))
  {
    if e.Respond? { assert Next(s, e).tasks == []; }
  }

  lemma ActiveStep(s: State, e: Step)
    requires Active(s) && (e.CheckCompleted? && s.reader.NotRunning? ==> !InGap(s))
    ensures Active(Next(s, e)) || Settled(Next(s, e))
  {
    assert s.reader.NotRunning? ==> s.tasks[0].Records?;
  }

  lemma SettledStep(s: State, e: Step)
    requires Settled(s)
    ensures Settled(Next(s, e)) && Next(s, e).completed == s.completed
  {
  }

  lemma StepKeeps(s: State, e: Step)
    requires Inv(s) && (e.CheckCompleted? && s.reader.NotRunning? ==> !InGap(s))
    ensures Inv(Next(s, e))
  {
    if Untouched(s) { UntouchedStep(s, e); } else if Active(s) { ActiveStep(s, e); } else { SettledStep(s, e); }
  }

  lemma {:induction false} RunKeeps(s: State, es: seq<Step>)
    requires Inv(s) && GapFree(s, es)
    ensures Inv(Run(s, es))
    decreases |es|
  {
    if es == [] {
    } else {
      StepKeeps(s, es[0]);
      RunKeeps(Next(s, es[0]), es[1..]);
    }
  }

  /** Over all gap-free sequences of duplicates, approvals, denials, late approvals and timeouts: the handler
      starts at most once, one outcome is recorded, it says whether the handler ran, and every reply from a
      marked call repeats it. */
  lemma HandlerStartsAtMostOnce(es: seq<Step>)
    requires GapFree(Init(), es)
    ensures var s := Run(Init(), es);
            && |s.started| <= 1 && |s.completed| <= 1
            && (s.completed == [] ==> s.replies == [])
            && (s.completed != [] ==> Accounts(s.completed[0], |s.started|) && AllAre(s.replies, s.completed[0]))
  {
    RunKeeps(Init(), es);
  }

  /** Once recorded, the outcome stays, no handler starts any more, and the gate sends nothing else. */
  lemma {:induction false} OutcomeIsFinal(s: State, es: seq<Step>)
    requires Settled(s)
    ensures var t := Run(s, es); Settled(t) && t.completed == s.completed && t.started == s.started
                                 && t.gateReplies == s.gateReplies
    decreases |es|
  {
    if es == [] {
    } else {
      SettledStep(s, es[0]);
      OutcomeIsFinal(Next(s, es[0]), es[1..]);
    }
  }

  // ---- Requests ----

  /** `n` requests for the call, one after another. */
  function Requests(n: nat): seq<Step> {
    if n == 0 then [] else [CheckRunning, CheckCompleted] + Requests(n - 1)
  }

  /** Once an outcome is recorded, every duplicate is answered with it, and nothing else changes. */
  lemma {:induction false} DuplicatesAreAnswered(s: State, n: nat)
    requires s.reader.Idle? && !s.running && s.completed != []
    ensures Run(s, Requests(n)) == s.(replies := s.replies + seq(n, i => s.completed[0]))
    decreases n
  {
    if n == 0 {
    } else {
      var t := Next(Next(s, CheckRunning), CheckCompleted);
      assert Requests(n)[1..][1..] == Requests(n - 1);
      DuplicatesAreAnswered(t, n - 1);
      assert s.replies + [s.completed[0]] + seq(n - 1, i => s.completed[0]) == s.replies + seq(n, i => s.completed[0]);
    }
  }

  /** A request that lookup or session gate refuses is answered and leaves no other trace: it can be made again. */
  lemma RefusedRequestLeavesNoTrace(s: State, d: Decision)
    requires s.reader.Idle? && !s.running && s.completed == [] && (d.NotFound? || d.Denied?)
    ensures Run(s, [CheckRunning, CheckCompleted, Gate(d)]) == s.(gateReplies := s.gateReplies + 1)
  {
    var es := [CheckRunning, CheckCompleted, Gate(d)];
    var b := Next(Next(s, CheckRunning), CheckCompleted);
    assert es[1..] == [CheckCompleted, Gate(d)] && es[1..][1..] == [Gate(d)] && [Gate(d)][1..] == [];
    assert Run(s, es) == Run(b, [Gate(d)]) == Next(b, Gate(d));
  }

  // ---- Permission, in every run ----

  predicate StartsNothing(t: Task) { t != Answered(true) && !t.Ready? && !t.Executing? && Refuses(t) }

  predicate Refuses(t: Task) { t.Clears? || t.Records? || t.Replies? ==> t.outcome.Refused? }

  ghost predicate NothingAllowed(s: State) {
    && s.started == [] && !s.reader.Validating? && (forall o | o in s.completed :: o.Refused?)
    && (s.reader.ReaderClears? || s.reader.ReaderRecords? ==> s.reader.why.Refused?)
    && (forall i | 0 <= i < |s.tasks| :: StartsNothing(s.tasks[i]))
  }

  lemma NothingAllowedStep(s: State, e: Step)
    requires NothingAllowed(s) && e != Respond(true) && e != Gate(Allowed)
    ensures NothingAllowed(Next(s, e))
  {
    var t := Next(s, e);
    forall i | 0 <= i < |t.tasks| ensures StartsNothing(t.tasks[i]) {
      assert i < |s.tasks| ==> StartsNothing(s.tasks[i]);
    }
  }

  /** No handler starts without permission: in a run without an approving response and without the session gate
      allowing the call outright, gap or not, nothing starts and no recorded outcome says it ran. */
  lemma {:induction false} NoPermissionNoStart(s: State, es: seq<Step>)
    requires NothingAllowed(s) && Respond(true) !in es && Gate(Allowed) !in es
    ensures NothingAllowed(Run(s, es)) == NothingAllowed(s)
    decreases |es|
  {
    if es == [] {
    } else {
      assert es[0] in es;
      NothingAllowedStep(s, es[0]);
      NoPermissionNoStart(Next(s, es[0]), es[1..]);
    }
  }

  predicate NotReady(t: Task) { !t.Ready? && !t.Executing? }

  /** Nor does one start with arguments that do not parse, or without a concurrency permit. */
  lemma {:induction false} NoValidCheckNoStart(s: State, es: seq<Step>)
    requires s.started == [] && forall i | 0 <= i < |s.tasks| :: NotReady(s.tasks[i])
    requires forall e | e in es && (e.Validate? || e.TaskStep?) :: !e.check.Valid?
    ensures Run(s, es).started == []
    decreases |es|
  {
    if es == [] {
    } else {
      assert es[0] in es;
      NoValidCheckNoStart(Next(s, es[0]), es[1..]);
    }
  }

  /** A handler starts only in runs that allow the call and find its arguments valid. */
  lemma HandlerStartsOnlyWithPermission(es: seq<Step>)
    requires Run(Init(), es).started != []
    ensures Respond(true) in es || Gate(Allowed) in es
    ensures exists e | e in es :: (e.Validate? || e.TaskStep?) && e.check.Valid?
  {
    if Respond(true) !in es && Gate(Allowed) !in es { NoPermissionNoStart(Init(), es); }
    if forall e | e in es && (e.Validate? || e.TaskStep?) :: !e.check.Valid? { NoValidCheckNoStart(Init(), es); }
  }

  function Times(n: nat, e: Step): seq<Step> { seq(n, i => e) }

  lemma RunTimes(s: State, n: nat, e: Step)
    requires n > 0
    ensures Run(s, Times(n, e)) == Run(Next(s, e), Times(n - 1, e))
  {
    assert Times(n, e)[1..] == Times(n - 1, e);
  }

  /** Task `i` ends with `outcome` recorded and answered, having started the handler or not. */
  ghost predicate Ends(s: State, t: State, i: nat, outcome: Outcome, starts: bool) {
    i < |t.tasks| &&
    (t.tasks[i], t.running, t.completed, t.replies, t.started)
    == (Task.Done, false, s.completed + [outcome], s.replies + [outcome], if starts then s.started + [i] else s.started)
  }

  lemma DoneStays(s: State, i: nat, e: Step, n: nat)
    requires i < |s.tasks| && s.tasks[i].Done? && e.TaskStep? && e.i == i
    ensures Run(s, Times(n, e)) == s
  {
    if n > 0 {
      RunTimes(s, n, e);
      DoneStays(Next(s, e), i, e, n - 1);
    }
  }

  lemma ClearsEnds(s: State, i: nat, e: Step, n: nat)
    requires i < |s.tasks| && s.tasks[i].Clears? && e.TaskStep? && e.i == i && n >= 3
    ensures Ends(s, Run(s, Times(n, e)), i, s.tasks[i].outcome, false)
  {
    var a := Next(s, e);
    var b := Next(a, e);
    RunTimes(s, n, e);
    RunTimes(a, n - 1, e);
    RunTimes(b, n - 2, e);
    DoneStays(Next(b, e), i, e, n - 3);
  }

  lemma ReadyEnds(s: State, i: nat, e: Step, n: nat)
    requires i < |s.tasks| && s.tasks[i].Ready? && e.TaskStep? && e.i == i && n >= 5
    ensures Ends(s, Run(s, Times(n, e)), i, Ran(e.result), true)
  {
    var a := Next(s, e);
    RunTimes(s, n, e);
    RunTimes(a, n - 1, e);
    ClearsEnds(Next(a, e), i, e, n - 2);
  }

  /** The other direction, from any state: the task that a response reaches runs the handler and records its
      result if the response approves and the check passes; otherwise it records why not and starts nothing. */
  lemma AnsweredWaiterEnds(s: State, i: nat, approved: bool, check: Check, result: string)
    requires i in s.pending && i < |s.tasks| && s.tasks[i].Waiting?
    ensures var t := Run(Next(s, Respond(approved)), Times(6, TaskStep(i, check, result)));
            && (approved && check.Valid? ==> Ends(s, t, i, Ran(result), true))
            && (approved && check.BadArgs? ==> Ends(s, t, i, Refused("INVALID_ARGS"), false))
            && (approved && check.NoPermit? ==> Ends(s, t, i, Refused("CONCURRENCY_LIMIT"), false))
            && (!approved ==> Ends(s, t, i, Refused("APPROVAL_DENIED"), false))
  {
    var e := TaskStep(i, check, result);
    var a := Next(s, Respond(approved));
    var b := Next(a, e);
    RunTimes(a, 6, e);
    if approved && check.Valid? { ReadyEnds(b, i, e, 5); } else { ClearsEnds(b, i, e, 5); }
  }

  /** And one whose wait expires first records that. */
  lemma ExpiredWaiterEnds(s: State, i: nat, check: Check, result: string)
    requires i < |s.tasks| && s.tasks[i].Waiting?
    ensures Ends(s, Run(Next(s, TimeUp(i)), Times(4, TaskStep(i, check, result))), i, Refused("APPROVAL_TIMEOUT"), false)
  {
    var e := TaskStep(i, check, result);
    var a := Next(s, TimeUp(i));
    RunTimes(a, 4, e);
    ClearsEnds(Next(a, e), i, e, 3);
  }

  // ---- Late approvals, in every run ----

  predicate Over(t: Task) { t.TimedOut? || t.Clears? || t.Records? || t.Replies? || t.Done? }

  lemma OverStep(s: State, i: nat, e: Step)
    requires i < |s.tasks| && Over(s.tasks[i])
    ensures var t := Next(s, e); i < |t.tasks| && Over(t.tasks[i])
    ensures Next(s, e).started == s.started || exists j :: j != i && Next(s, e).started == s.started + [j]
  {
    if e.TaskStep? && e.i < |s.tasks| && s.tasks[e.i].Ready? {
      assert Next(s, e).started == s.started + [e.i] && e.i != i;
    }
  }

  /** A task whose wait has expired never starts a handler, whatever approvals arrive, gap or not. */
  lemma {:induction false} LateApprovalStartsNothing(s: State, i: nat, es: seq<Step>)
    requires i < |s.tasks| && Over(s.tasks[i])
    ensures var t := Run(s, es); i < |t.tasks| && Over(t.tasks[i]) && (i in t.started <==> i in s.started)
    decreases |es|
  {
    if es == [] {
    } else {
      OverStep(s, i, es[0]);
      LateApprovalStartsNothing(Next(s, es[0]), i, es[1..]);
    }
  }

  // ---- The gap ----

  lemma {:induction false} NoCheckIsGapFree(s: State, es: seq<Step>)
    requires CheckCompleted !in es
    ensures GapFree(s, es)
    decreases |es|
  {
    if es == [] {
    } else {
      NoCheckIsGapFree(Next(s, es[0]), es[1..]);
    }
  }

  /** The read loop fails an unknown call inline. */
  lemma InlineFailure(s: State)
    requires s.reader.Unknown?
    ensures var o := Refused("INVALID_ARGS");
            Next(Next(Next(Next(s, Gate(Allowed)), Validate(BadArgs)), ReaderStep), ReaderStep)
            == s.(running := false, completed := s.completed + [o], replies := s.replies + [o], reader := Idle)
  {
  }

  /** A duplicate that looks in the gap finds the id unknown. It can be served again, and then two
      outcomes are recorded. */
  lemma CheckInGapRecordsTwice(s: State)
    requires Inv(s) && s.reader.NotRunning? && InGap(s)
    ensures exists more :: GapFree(Next(s, CheckCompleted), more) && |Run(Next(s, CheckCompleted), more).completed| == 2
  {
    var s1 := Next(s, CheckCompleted);
    var s3 := Next(Next(s1, Gate(Allowed)), Validate(BadArgs));
    var s5 := Next(Next(s3, ReaderStep), ReaderStep);
    InlineFailure(s1);
    var more := [Gate(Allowed), Validate(BadArgs), ReaderStep, ReaderStep, TaskStep(0, Valid, "")];
    assert more[1..][1..] == more[2..] && more[2..][1..] == more[3..] && more[3..][1..] == more[4..];
    assert more[4..][1..] == [];
    NoCheckIsGapFree(s1, more);
    assert Run(s1, more) == Run(s3, more[2..]) == Run(s5, more[4..]);
    assert |Run(s1, more).completed| == 2;
  }

  /** So the property holds exactly outside the gap: in a state reached gap-free, looking at the completed
      list is harmless for every gap-free continuation if and only if no task is in the gap. */
  lemma CheckIsSafeExactlyOutsideTheGap(es: seq<Step>)
    requires GapFree(Init(), es) && Run(Init(), es).reader.NotRunning?
    ensures var s := Run(Init(), es);
            !InGap(s) <==>
              forall more | GapFree(Next(s, CheckCompleted), more) ::
                |Run(Next(s, CheckCompleted), more).completed| <= 1
  {
    var s := Run(Init(), es);
    RunKeeps(Init(), es);
    if InGap(s) {
      CheckInGapRecordsTwice(s);
    } else {
      StepKeeps(s, CheckCompleted);
      forall more | GapFree(Next(s, CheckCompleted), more)
        ensures |Run(Next(s, CheckCompleted), more).completed| <= 1
      {
        RunKeeps(Next(s, CheckCompleted), more);
      }
    }
  }

  // ---- Handler starts ----

  /** A duplicate was let through while the task that owned the call had refused it and not recorded that yet.
      Until it does, no further request is let through; the second task is the only one that can start. */
  ghost predicate LetThrough(s: State) {
    && 1 <= |s.tasks| <= 2
    && (s.tasks[0].Records? || s.tasks[0].Replies? || s.tasks[0].Done?)
    && (s.completed == [] ==> s.tasks[0].Records?)
    && (|s.tasks| == 2 ==> s.reader.Idle? || s.reader.NotRunning?)
    && (|s.tasks| == 1 ==> s.started == [])
    && |s.started| <= 1
    && (|s.tasks| == 2 && (s.tasks[1].Waiting? || s.tasks[1].Answered? || s.tasks[1].TimedOut? || s.tasks[1].Ready?)
        ==> s.started == [])
  }

  lemma LetThroughTask(s: State, e: Step)
    requires LetThrough(s) && (e.TaskStep? || e.TimeUp? || e.Respond?)
    ensures LetThrough(Next(s, e))
  {
  }

  lemma LetThroughReader(s: State, e: Step)
    requires LetThrough(s) && !(e.TaskStep? || e.TimeUp? || e.Respond?)
    requires e.CheckCompleted? && s.reader.NotRunning? ==> !InGap(s)
    ensures LetThrough(Next(s, e))
  {
    assert s.completed == [] ==> InGap(s);
  }

  lemma {:induction false} LetThroughRun(s: State, es: seq<Step>)
    requires LetThrough(s) && GapFree(s, es)
    ensures LetThrough(Run(s, es)) == LetThrough(s)
    decreases |es|
  {
    if es == [] {
    } else {
      if es[0].TaskStep? || es[0].TimeUp? || es[0].Respond? { LetThroughTask(s, es[0]); } else { LetThroughReader(s, es[0]); }
      LetThroughRun(Next(s, es[0]), es[1..]);
    }
  }

  /** A duplicate that looks in the gap of a call whose handler ran can start it again. */
  lemma CheckInGapStartsTwice(s: State)
    requires Inv(s) && s.reader.NotRunning? && InGap(s) && s.started != []
    ensures exists more :: GapFree(Next(s, CheckCompleted), more) && |Run(Next(s, CheckCompleted), more).started| == 2
  {
    var s1 := Next(s, CheckCompleted);
    var s2 := Next(s1, Gate(Allowed));
    var s3 := Next(s2, Validate(Valid));
    var s4 := Next(s3, TaskStep(1, Valid, ""));
    assert s3.tasks == s.tasks + [Ready] && |s.tasks| == 1;
    var more := [Gate(Allowed), Validate(Valid), TaskStep(1, Valid, "")];
    assert more[1..][1..] == more[2..] && more[2..][1..] == [];
    NoCheckIsGapFree(s1, more);
    assert Run(s1, more) == Run(s3, more[2..]) == s4;
    assert GapFree(s1, more) && |Run(s1, more).started| == 2;
  }

  /** The exact condition for handler starts: in a state reached gap-free, looking at the completed list keeps
      the handler to one start in every gap-free continuation if and only if no task whose handler ran is in
      the gap. */
  lemma HandlerStartsOnceExactlyOutsideTheGap(es: seq<Step>)
    requires GapFree(Init(), es) && Run(Init(), es).reader.NotRunning?
    ensures var s := Run(Init(), es);
            !(InGap(s) && s.started != []) <==>
              forall more | GapFree(Next(s, CheckCompleted), more) ::
                |Run(Next(s, CheckCompleted), more).started| <= 1
  {
    var s := Run(Init(), es);
    RunKeeps(Init(), es);
    var t := Next(s, CheckCompleted);
    if InGap(s) && s.started != [] {
      CheckInGapStartsTwice(s);
    } else if InGap(s) {
      assert LetThrough(t);
      forall more | GapFree(t, more) ensures |Run(t, more).started| <= 1 { LetThroughRun(t, more); }
    } else {
      StepKeeps(s, CheckCompleted);
      forall more | GapFree(t, more) ensures |Run(t, more).started| <= 1 { RunKeeps(t, more); }
    }
  }

  /** A run in which a duplicate request makes the handler start twice. */
  lemma HandlerCanStartTwice(result: string)
    ensures var once := Next(Next(Next(Next(Init(), CheckRunning), CheckCompleted), Gate(Allowed)), Validate(Valid));
            var ran := Next(Next(Next(once, TaskStep(0, Valid, "")), TaskStep(0, Valid, result)), TaskStep(0, Valid, ""));
            var again := Next(Next(Next(Next(ran, CheckRunning), CheckCompleted), Gate(Allowed)), Validate(Valid));
            |Next(again, TaskStep(1, Valid, "")).started| == 2
  {
    var a := Next(Next(Next(Next(Init(), CheckRunning), CheckCompleted), Gate(Allowed)), Validate(Valid));
    assert a.tasks == [Ready];
    var b := Next(Next(Next(a, TaskStep(0, Valid, "")), TaskStep(0, Valid, result)), TaskStep(0, Valid, ""));
    assert b.tasks == [Records(Ran(result))] && !b.running;
    var c := Next(Next(Next(Next(b, CheckRunning), CheckCompleted), Gate(Allowed)), Validate(Valid));
    assert c.tasks == [Records(Ran(result)), Ready];
  }
}
