/** The control-plane job tracker: three concurrent maps (live jobs, completed accesses, correlation
    index) that calls change one map operation at a time, and the correlation key that keeps users apart. */
module ControlJobs {
  import opened Numbered

  /** Text as its UTF-8 bytes, one character per byte, so that `|t|` is the length the source takes. */
  type Text = string

  // ---- The correlation key ----

  function Digit(d: nat): char
    requires d < 10
  {
    "0123456789"[d]
  }

  function Decimal(n: nat): Text {
    if n < 10 then [Digit(n)] else Decimal(n / 10) + [Digit(n % 10)]
  }

  function CorrelationKey(user: Text, correlation: Text): Text {
    Decimal(|user|) + (":" + (user + (":" + correlation)))
  }

  lemma {:induction false} DecimalHasNoColon(n: nat)
    ensures Decimal(n) != [] && ':' !in Decimal(n)
  {
    if n >= 10 { DecimalHasNoColon(n / 10); }
  }

  lemma SnocInjective(x: Text, y: Text, c: char, d: char)
    requires x + [c] == y + [d]
    ensures x == y && c == d
  {
    assert x == (x + [c])[..|x + [c]| - 1] && y == (y + [d])[..|y + [d]| - 1];
    assert c == (x + [c])[|x + [c]| - 1] && d == (y + [d])[|y + [d]| - 1];
  }

  lemma {:induction false} DecimalInjective(a: nat, b: nat)
    requires Decimal(a) == Decimal(b)
    ensures a == b
    decreases a
  {
    var x, y := if a < 10 then [] else Decimal(a / 10), if b < 10 then [] else Decimal(b / 10);
    assert Decimal(a) == x + [Digit(a % 10)] && Decimal(b) == y + [Digit(b % 10)];
    SnocInjective(x, y, Digit(a % 10), Digit(b % 10));
    DecimalHasNoColon(a / 10);
    DecimalHasNoColon(b / 10);
    if a >= 10 && b >= 10 { DecimalInjective(a / 10, b / 10); }
  }

  /** The first colon of a string ends its decimal prefix, whatever follows. */
  lemma {:induction false} PrefixesAgree(p: Text, q: Text, s: Text, t: Text)
    requires ':' !in p && ':' !in q && p + (":" + s) == q + (":" + t)
    ensures p == q && s == t
    decreases |p|
  {
    var a, b := p + (":" + s), q + (":" + t);
    assert a[0] == (if p == [] then ':' else p[0]) && b[0] == (if q == [] then ':' else q[0]);
    if p != [] && q != [] {
      assert a[1..] == p[1..] + (":" + s) && b[1..] == q[1..] + (":" + t);
      PrefixesAgree(p[1..], q[1..], s, t);
    } else {
      assert a[|p| + 1..] == s && b[|q| + 1..] == t;
    }
  }

  /** No two pairs of user and correlation id share a key, separators inside them included. */
  lemma CorrelationKeyInjective(u: Text, c: Text, v: Text, d: Text)
    requires CorrelationKey(u, c) == CorrelationKey(v, d)
    ensures u == v && c == d
  {
    DecimalHasNoColon(|u|);
    DecimalHasNoColon(|v|);
    var s, t := u + (":" + c), v + (":" + d);
    PrefixesAgree(Decimal(|u|), Decimal(|v|), s, t);
    DecimalInjective(|u|, |v|);
    assert s[..|u|] == u && t[..|v|] == v;
    assert s[|u| + 1..] == c && t[|v| + 1..] == d;
  }

  // ---- The tracker ----

  type Id = Text

  datatype Job = Job(device: Text, user: Text, correlation: Option<Text>)

  datatype JobEvent = Output(text: Text) | Terminal(text: Text)

  /** How far the calls that own a job id have come: `register` up to Live, `finalize` from there on. */
  datatype Life = Indexed | Live | Removed(last: JobEvent) | Sent | Completed | Unindexing | Over

  /** A running `find_by_correlation`: it holds the id it read, or knows that it was stale. */
  datatype Finder = Looking(user: Text, correlation: Text, id: Id) | Stale(user: Text, correlation: Text)

  datatype Found = Found(user: Text, correlation: Text, id: Id)

  /** A registered job: what it is, how far it has come, and what it has emitted so far. */
  datatype Record = Record(job: Job, life: Life, emitted: seq<JobEvent>)

  /** The three maps; then what each job did, the lookups under way, their answers, and the job registered
      last under each key. */
  datatype Tracker = Tracker(
    jobs: map<Id, Job>, completed: map<Id, Job>, index: map<Text, Id>,
    records: map<Id, Record>, finders: map<nat, Finder>, found: set<Found>, latest: map<Text, Id>)

  datatype Step =
    | RegisterIndex(id: Id, job: Job) | RegisterLive(id: Id)
    | Publish(id: Id, text: Text)
    | FinalizeRemove(id: Id, text: Text) | FinalizeSend(id: Id) | FinalizeComplete(id: Id)
    | FinalizeCheck(id: Id) | FinalizeUnindex(id: Id)
    | FindGet(finder: nat, user: Text, correlation: Text) | FindCheck(finder: nat) | FindDrop(finder: nat)
    | Prune(ids: set<Id>)

  function Init(): Tracker { Tracker(map[], map[], map[], map[], map[], {}, map[]) }

  predicate At(s: Tracker, id: Id, life: Life) { id in s.records && s.records[id].life == life }

  function Moved(s: Tracker, id: Id, life: Life): map<Id, Record>
    requires id in s.records
  {
    s.records[id := s.records[id].(life := life)]
  }

  function Emitted(s: Tracker, id: Id, e: JobEvent, life: Life): map<Id, Record>
    requires id in s.records
  {
    s.records[id := s.records[id].(emitted := s.records[id].emitted + [e], life := life)]
  }

  /** One map operation. A call whose turn it is not leaves the tracker unchanged. */
  function Next(s: Tracker, e: Step): Tracker {
    match e
    case RegisterIndex(id, job) => RegisterIndexed(s, id, job)
    case RegisterLive(id) =>
      if At(s, id, Indexed)
      then s.(completed := s.completed - {id}, jobs := s.jobs[id := s.records[id].job], records := Moved(s, id, Live))
      else s
    case Publish(id, text) =>
      if id in s.jobs && id in s.records then s.(records := Emitted(s, id, Output(text), s.records[id].life)) else s
    case FinalizeRemove(id, text) =>
      if id in s.jobs && id in s.records
      then s.(jobs := s.jobs - {id}, records := Moved(s, id, Removed(Terminal(text)))) else s
    case FinalizeSend(id) =>
      if id in s.records && s.records[id].life.Removed?
      then s.(records := Emitted(s, id, s.records[id].life.last, Sent)) else s
    case FinalizeComplete(id) =>
      if At(s, id, Sent)
      then s.(completed := s.completed[id := s.records[id].job], records := Moved(s, id, Completed)) else s
    case FinalizeCheck(id) =>
      if At(s, id, Completed)
      then s.(records := Moved(s, id, if PointsAt(s, id) then Unindexing else Over)) else s
    case FinalizeUnindex(id) =>
      if At(s, id, Unindexing) then s.(index := s.index - Keys(s.records[id].job), records := Moved(s, id, Over)) else s
    case FindGet(finder, user, correlation) =>
      var key := CorrelationKey(user, correlation);
      if key in s.index && finder !in s.finders
      then s.(finders := s.finders[finder := Looking(user, correlation, s.index[key])]) else s
    case FindCheck(finder) =>
      if finder !in s.finders || !s.finders[finder].Looking? then s
      else
        var f := s.finders[finder];
        if f.id in s.jobs
        then s.(found := s.found + {Found(f.user, f.correlation, f.id)}, finders := s.finders - {finder})
        else s.(finders := s.finders[finder := Stale(f.user, f.correlation)])
    case FindDrop(finder) =>
      if finder !in s.finders || !s.finders[finder].Stale? then s
      else
        var f := s.finders[finder];
        s.(index := s.index - {CorrelationKey(f.user, f.correlation)}, finders := s.finders - {finder})
    case Prune(ids) => s.(completed := s.completed - ids)
  }

  /** The key a job is indexed under, if any. */
  function Keys(job: Job): set<Text> {
    if job.correlation.None? then {} else {CorrelationKey(job.user, job.correlation.value)}
  }

  function Pointed(index: map<Text, Id>, job: Job, id: Id): map<Text, Id> {
    if job.correlation.None? then index else index[CorrelationKey(job.user, job.correlation.value) := id]
  }

  /** Job ids are minted fresh, so a known id is never registered again. */
  function RegisterIndexed(s: Tracker, id: Id, job: Job): Tracker {
    if id in s.records then s
    else s.(records := s.records[id := Record(job, Indexed, [])],
            index := Pointed(s.index, job, id), latest := Pointed(s.latest, job, id))
  }

  /** The index still names this job under its key. */
  predicate PointsAt(s: Tracker, id: Id)
    requires id in s.records
  {
    var job := s.records[id].job;
    job.correlation.Some? &&
    var key := CorrelationKey(job.user, job.correlation.value);
    key in s.index && s.index[key] == id
  }

  function Run(s: Tracker, es: seq<Step>): Tracker
    decreases |es|
  {
    if es == [] then s else Run(Next(s, es[0]), es[1..])
  }

  // ---- Lives of jobs ----

  ghost predicate Quiet(es: seq<JobEvent>) { forall i | 0 <= i < |es| :: es[i].Output? }

  /** What a job has emitted fits how far it has come. */
  ghost predicate Emits(life: Life, es: seq<JobEvent>) {
    if life.Indexed? || life.Live? || life.Removed? then Quiet(es) && (life.Removed? ==> life.last.Terminal?)
    else es != [] && Quiet(es[..|es| - 1]) && es[|es| - 1].Terminal?
  }

  ghost predicate SameOutside<V>(a: map<Id, V>, b: map<Id, V>, id: Id) {
    forall x | x != id :: (x in a <==> x in b) && (x in a ==> a[x] == b[x])
  }

  ghost predicate LivesAt(s: Tracker, id: Id) {
    && (id in s.records ==> Emits(s.records[id].life, s.records[id].emitted))
    && (id in s.jobs <==> At(s, id, Live))
    && (id in s.completed ==> At(s, id, Completed) || At(s, id, Unindexing) || At(s, id, Over))
    && (id in s.jobs ==> s.jobs[id] == s.records[id].job)
    && (id in s.completed ==> s.completed[id] == s.records[id].job)
  }

  ghost predicate Lives(s: Tracker) { forall id :: LivesAt(s, id) }

  /** A step that touches one id only has to look at that id. */
  lemma LivesLocally(s: Tracker, t: Tracker, id: Id)
    requires Lives(s) && LivesAt(t, id)
    requires SameOutside(s.records, t.records, id) && SameOutside(s.jobs, t.jobs, id)
    requires SameOutside(s.completed, t.completed, id)
    ensures Lives(t)
  {
    forall x ensures LivesAt(t, x) {
      if x != id { assert LivesAt(s, x); }
    }
  }

  lemma LivesRegister(s: Tracker, e: Step)
    requires Lives(s) && (e.RegisterIndex? || e.RegisterLive?)
    ensures Lives(Next(s, e))
  {
    assert LivesAt(s, e.id);
    LivesLocally(s, Next(s, e), e.id);
  }

  lemma LivesEmit(s: Tracker, e: Step)
    requires Lives(s) && (e.Publish? || e.FinalizeSend?)
    ensures Lives(Next(s, e))
  {
    assert LivesAt(s, e.id);
    if e.id in s.records {
      var es := s.records[e.id].emitted;
      forall o: JobEvent ensures (es + [o])[..|es|] == es {}
    }
    LivesLocally(s, Next(s, e), e.id);
  }

  lemma LivesFinalize(s: Tracker, e: Step)
    requires Lives(s) && (e.FinalizeRemove? || e.FinalizeComplete?)
    ensures Lives(Next(s, e))
  {
    assert LivesAt(s, e.id);
    LivesLocally(s, Next(s, e), e.id);
  }

  lemma LivesUnindex(s: Tracker, e: Step)
    requires Lives(s) && (e.FinalizeCheck? || e.FinalizeUnindex?)
    ensures Lives(Next(s, e))
  {
    assert LivesAt(s, e.id);
    LivesLocally(s, Next(s, e), e.id);
  }

  lemma LivesStep(s: Tracker, e: Step)
    requires Lives(s)
    ensures Lives(Next(s, e))
  {
    if e.RegisterIndex? || e.RegisterLive? {
      LivesRegister(s, e);
    } else if e.Publish? || e.FinalizeSend? {
      LivesEmit(s, e);
    } else if e.FinalizeRemove? || e.FinalizeComplete? {
      LivesFinalize(s, e);
    } else if e.FinalizeCheck? || e.FinalizeUnindex? {
      LivesUnindex(s, e);
    } else {
      var t := Next(s, e);
      assert t.jobs == s.jobs && t.records == s.records;
      forall id ensures LivesAt(t, id) { assert LivesAt(s, id); }
    }
  }

  // ---- Lookups ----

  ghost predicate Matches(s: Tracker, id: Id, user: Text, correlation: Text) {
    id in s.records && s.records[id].job.user == user && s.records[id].job.correlation == Some(correlation)
  }

  ghost predicate IndexedRight(s: Tracker, k: Text, id: Id) {
    exists user, correlation :: k == CorrelationKey(user, correlation) && Matches(s, id, user, correlation)
  }

  ghost predicate Indexes(s: Tracker) {
    && (forall k | k in s.index :: IndexedRight(s, k, s.index[k]))
    && (forall n | n in s.finders && s.finders[n].Looking? ::
          Matches(s, s.finders[n].id, s.finders[n].user, s.finders[n].correlation))
    && (forall f | f in s.found :: Matches(s, f.id, f.user, f.correlation))
  }

  lemma MatchesStays(s: Tracker, e: Step)
    ensures forall id, u, c | Matches(s, id, u, c) :: Matches(Next(s, e), id, u, c)
    ensures forall k, id | IndexedRight(s, k, id) :: IndexedRight(Next(s, e), k, id)
  {
    var t := Next(s, e);
    forall id, u, c | Matches(s, id, u, c) ensures Matches(t, id, u, c) {}
    forall k, id | IndexedRight(s, k, id) ensures IndexedRight(t, k, id) {
      var u, c :| k == CorrelationKey(u, c) && Matches(s, id, u, c);
      assert Matches(t, id, u, c);
    }
  }

  lemma IndexGet(s: Tracker, user: Text, correlation: Text)
    requires Indexes(s) && CorrelationKey(user, correlation) in s.index
    ensures Matches(s, s.index[CorrelationKey(user, correlation)], user, correlation)
  {
    var k := CorrelationKey(user, correlation);
    assert IndexedRight(s, k, s.index[k]);
    var u, c :| k == CorrelationKey(u, c) && Matches(s, s.index[k], u, c);
    CorrelationKeyInjective(user, correlation, u, c);
  }

  lemma IndexesRegister(s: Tracker, id: Id, job: Job)
    requires Indexes(s) && id !in s.records
    ensures Indexes(Next(s, RegisterIndex(id, job)))
  {
    MatchesStays(s, RegisterIndex(id, job));
    var t := Next(s, RegisterIndex(id, job));
    if job.correlation.Some? { assert Matches(t, id, job.user, job.correlation.value); }
  }

  /** The index changes only by registering; every other step keeps or drops entries. */
  lemma IndexShrinks(s: Tracker, e: Step)
    requires !e.RegisterIndex?
    ensures forall k | k in Next(s, e).index :: k in s.index && Next(s, e).index[k] == s.index[k]
  {
  }

  lemma FindersRight(s: Tracker, e: Step)
    requires Indexes(s) && !e.RegisterIndex?
    ensures forall n | n in Next(s, e).finders && Next(s, e).finders[n].Looking? ::
              var f := Next(s, e).finders[n]; Matches(s, f.id, f.user, f.correlation)
  {
    if e.FindGet? && CorrelationKey(e.user, e.correlation) in s.index { IndexGet(s, e.user, e.correlation); }
  }

  lemma AnswersRight(s: Tracker, e: Step)
    requires Indexes(s)
    ensures forall f | f in Next(s, e).found :: Matches(s, f.id, f.user, f.correlation)
  {
  }

  lemma IndexesStep(s: Tracker, e: Step)
    requires Indexes(s)
    ensures Indexes(Next(s, e))
  {
    if e.RegisterIndex? {
      if e.id !in s.records { IndexesRegister(s, e.id, e.job); }
    } else {
      IndexShrinks(s, e);
      MatchesStays(s, e);
      FindersRight(s, e);
      AnswersRight(s, e);
    }
  }

  lemma {:induction false} RunKeeps(s: Tracker, es: seq<Step>)
    requires Lives(s) && Indexes(s)
    ensures Lives(Run(s, es)) == Lives(s) && Indexes(Run(s, es)) == Indexes(s)
    decreases |es|
  {
    if es == [] {
    } else {
      LivesStep(s, es[0]);
      IndexesStep(s, es[0]);
      RunKeeps(Next(s, es[0]), es[1..]);
    }
  }

  lemma NewFindIsLive(s: Tracker, e: Step, f: Found)
    requires f in Next(s, e).found && f !in s.found
    ensures f.id in s.jobs
  {
  }

  /** Over every interleaving, a lookup only ever answers with a job that the same user registered under
      the same correlation id, and which was live when the answer was formed. */
  lemma FindAnswersOwnJobs(es: seq<Step>, e: Step, f: Found)
    requires f in Next(Run(Init(), es), e).found
    ensures Matches(Next(Run(Init(), es), e), f.id, f.user, f.correlation)
    ensures f !in Run(Init(), es).found ==> f.id in Run(Init(), es).jobs
  {
    var s := Run(Init(), es);
    RunKeeps(Init(), es);
    IndexesStep(s, e);
    if f !in s.found { NewFindIsLive(s, e, f); }
  }

  /** Live and completed jobs are disjoint, and both still name the registered device and user. */
  lemma LiveAndCompletedAreDisjoint(es: seq<Step>)
    ensures var s := Run(Init(), es);
            && s.jobs.Keys !! s.completed.Keys
            && (forall id | id in s.jobs :: id in s.records && s.jobs[id] == s.records[id].job)
            && (forall id | id in s.completed :: id in s.records && s.completed[id] == s.records[id].job)
  {
    RunKeeps(Init(), es);
    var s := Run(Init(), es);
    forall id
      ensures !(id in s.jobs && id in s.completed)
      ensures id in s.jobs ==> id in s.records && s.jobs[id] == s.records[id].job
      ensures id in s.completed ==> id in s.records && s.completed[id] == s.records[id].job
    {
      assert LivesAt(s, id);
    }
  }

  // ---- What a job emits, from its own calls alone ----

  datatype Stage = Unknown | Registering | Open | Closing(text: Text) | Closed

  function NextStage(stage: Stage, e: Step, id: Id): Stage {
    if stage.Unknown? && e.RegisterIndex? && e.id == id then Registering
    else if stage.Registering? && e == RegisterLive(id) then Open
    else if stage.Open? && e.FinalizeRemove? && e.id == id then Closing(e.text)
    else if stage.Closing? && e == FinalizeSend(id) then Closed
    else stage
  }

  /** What is published while the job is open, and the terminal event once that is sent. */
  function EmittedBy(stage: Stage, e: Step, id: Id): seq<JobEvent> {
    if stage.Open? && e.Publish? && e.id == id then [Output(e.text)]
    else if stage.Closing? && e == FinalizeSend(id) then [Terminal(stage.text)]
    else []
  }

  function Emissions(before: seq<JobEvent>, stage: Stage, es: seq<Step>, id: Id): seq<JobEvent>
    decreases |es|
  {
    if es == [] then before
    else Emissions(before + EmittedBy(stage, es[0], id), NextStage(stage, es[0], id), es[1..], id)
  }

  function StageOf(s: Tracker, id: Id): Stage {
    if id !in s.records then Unknown
    else match s.records[id].life
      case Indexed => Registering
      case Live => Open
      case Removed(Terminal(text)) => Closing(text)
      case Removed(Output(_)) => Closed
      case _ => Closed
  }

  function EmittedOf(s: Tracker, id: Id): seq<JobEvent> { if id in s.records then s.records[id].emitted else [] }

  predicate OfNoJob(e: Step) { e.FindGet? || e.FindCheck? || e.FindDrop? || e.Prune? }

  lemma LookupsLeaveRecords(s: Tracker, e: Step)
    requires OfNoJob(e)
    ensures Next(s, e).records == s.records
  {
  }

  lemma OthersLeaveIt(s: Tracker, e: Step, id: Id)
    requires !OfNoJob(e) && e.id != id
    ensures StageOf(Next(s, e), id) == StageOf(s, id) && EmittedOf(Next(s, e), id) == EmittedOf(s, id)
  {
  }

  lemma OwnEmit(s: Tracker, e: Step, id: Id)
    requires LivesAt(s, id) && (e.Publish? || e.FinalizeSend?) && e.id == id
    ensures StageOf(Next(s, e), id) == NextStage(StageOf(s, id), e, id)
    ensures EmittedOf(Next(s, e), id) == EmittedOf(s, id) + EmittedBy(StageOf(s, id), e, id)
  {
  }

  lemma OwnQuiet(s: Tracker, e: Step, id: Id)
    requires LivesAt(s, id) && !OfNoJob(e) && !e.Publish? && !e.FinalizeSend? && e.id == id
    ensures StageOf(Next(s, e), id) == NextStage(StageOf(s, id), e, id) && EmittedOf(Next(s, e), id) == EmittedOf(s, id)
  {
  }

  lemma StageStep(s: Tracker, e: Step, id: Id)
    requires LivesAt(s, id)
    ensures StageOf(Next(s, e), id) == NextStage(StageOf(s, id), e, id)
    ensures EmittedOf(Next(s, e), id) == EmittedOf(s, id) + EmittedBy(StageOf(s, id), e, id)
  {
    if OfNoJob(e) {
      LookupsLeaveRecords(s, e);
    } else if e.id != id {
      OthersLeaveIt(s, e, id);
    } else if e.Publish? || e.FinalizeSend? {
      OwnEmit(s, e, id);
    } else {
      OwnQuiet(s, e, id);
    }
  }

  lemma {:induction false} EmittedRun(s: Tracker, es: seq<Step>, id: Id)
    requires Lives(s)
    ensures EmittedOf(Run(s, es), id) == Emissions(EmittedOf(s, id), StageOf(s, id), es, id)
    decreases |es|
  {
    if es == [] {
    } else {
      StageStep(s, es[0], id);
      LivesStep(s, es[0]);
      EmittedRun(Next(s, es[0]), es[1..], id);
    }
  }

  /** Over every interleaving of any jobs, lookups and prunes, a job emits what its own calls say: everything
      published while it was open, in order, then its terminal event. */
  lemma EmittedIsWhatWasPublished(es: seq<Step>, id: Id)
    ensures EmittedOf(Run(Init(), es), id) == Emissions([], Unknown, es, id)
  {
    EmittedRun(Init(), es, id);
  }

  /** A job emits at most one terminal event, always as its last; a completed job emitted exactly one. */
  lemma TerminalEventIsLastAndOnly(es: seq<Step>, id: Id)
    requires id in Run(Init(), es).records
    ensures var s := Run(Init(), es); var out := s.records[id].emitted;
            && (forall i | 0 <= i < |out| - 1 :: out[i].Output?)
            && (id in s.jobs ==> forall i | 0 <= i < |out| :: out[i].Output?)
            && (id in s.completed ==> out != [] && out[|out| - 1].Terminal?)
  {
    RunKeeps(Init(), es);
    var s := Run(Init(), es);
    var out := s.records[id].emitted;
    assert LivesAt(s, id);
    if !Quiet(out) {
      forall i | 0 <= i < |out| - 1 ensures out[i].Output? { assert out[..|out| - 1][i] == out[i]; }
    }
  }

  // ---- After the end ----

  predicate Ended(life: Life) { life.Completed? || life.Unindexing? || life.Over? }

  ghost predicate Remembered(s: Tracker, id: Id, job: Job) {
    id in s.completed && s.completed[id] == job && id !in s.jobs && id in s.records && Ended(s.records[id].life)
  }

  lemma RememberedOwn(s: Tracker, id: Id, job: Job, e: Step)
    requires Remembered(s, id, job) && !OfNoJob(e) && e.id == id
    ensures Remembered(Next(s, e), id, job)
  {
  }

  lemma RememberedOther(s: Tracker, id: Id, job: Job, e: Step)
    requires Remembered(s, id, job) && (if OfNoJob(e) then !(e.Prune? && id in e.ids) else e.id != id)
    ensures Remembered(Next(s, e), id, job)
  {
  }

  lemma {:induction false} RememberedStays(s: Tracker, id: Id, job: Job, es: seq<Step>)
    requires Remembered(s, id, job) && forall i | 0 <= i < |es| :: !(es[i].Prune? && id in es[i].ids)
    ensures Remembered(Run(s, es), id, job) == Remembered(s, id, job)
    decreases |es|
  {
    if es == [] {
    } else {
      if !OfNoJob(es[0]) && es[0].id == id {
        RememberedOwn(s, id, job, es[0]);
      } else {
        RememberedOther(s, id, job, es[0]);
      }
      RememberedStays(Next(s, es[0]), id, job, es[1..]);
    }
  }

  /** Whose a finished job was is remembered until the job is pruned, whatever else happens. */
  lemma FinishedJobIsRemembered(before: seq<Step>, id: Id, es: seq<Step>)
    requires At(Run(Init(), before), id, Sent) && forall i | 0 <= i < |es| :: !(es[i].Prune? && id in es[i].ids)
    ensures var s := Run(Init(), before); var t := Run(Next(s, FinalizeComplete(id)), es);
            id in t.completed && t.completed[id] == s.records[id].job
  {
    var s := Run(Init(), before);
    RunKeeps(Init(), before);
    assert LivesAt(s, id);
    RememberedStays(Next(s, FinalizeComplete(id)), id, s.records[id].job, es);
  }

  /** When nothing comes between its check and its removal, `finalize` removes the entry that names its own job and
      no other. */
  lemma UninterruptedFinalizeKeepsOthers(s: Tracker, id: Id)
    requires At(s, id, Completed)
    ensures var t := Next(Next(s, FinalizeCheck(id)), FinalizeUnindex(id));
            && (forall k | k in s.index && s.index[k] != id :: k in t.index && t.index[k] == s.index[k])
            && (PointsAt(s, id) ==> Keys(s.records[id].job) !! t.index.Keys) && At(t, id, Over)
  {
    assert PointsAt(Next(s, FinalizeCheck(id)), id) == PointsAt(s, id);
  }

  // ---- When a live job is found ----

  /** The job is being registered or live. */
  ghost predicate Current(s: Tracker, id: Id) { At(s, id, Indexed) || At(s, id, Live) }

  /** The job registered last under a key is what the index names, as long as it is current. */
  ghost predicate Findable(s: Tracker) {
    forall k | k in s.latest && Current(s, s.latest[k]) :: k in s.index && s.index[k] == s.latest[k]
  }

  /** The keys that this step removes from the index. */
  ghost function Dropped(s: Tracker, e: Step): set<Text> {
    if e.FindDrop? && e.finder in s.finders && s.finders[e.finder].Stale?
    then {CorrelationKey(s.finders[e.finder].user, s.finders[e.finder].correlation)}
    else if e.FinalizeUnindex? && At(s, e.id, Unindexing) then Keys(s.records[e.id].job)
    else {}
  }

  /** The guard the two removals lack: the entry they remove does not name a current job. */
  ghost predicate SafeDrop(s: Tracker, e: Step) {
    forall k | k in Dropped(s, e) && k in s.index :: !Current(s, s.index[k])
  }

  ghost predicate SafeRun(s: Tracker, es: seq<Step>)
    decreases |es|
  {
    es == [] || (SafeDrop(s, es[0]) && SafeRun(Next(s, es[0]), es[1..]))
  }

  /** The index names what was registered last, if anything; and that was registered under this key. */
  ghost predicate Latest(s: Tracker) {
    && (forall k | k in s.index :: k in s.latest && s.index[k] == s.latest[k])
    && (forall k | k in s.latest :: IndexedRight(s, k, s.latest[k]))
  }

  lemma IndexAfter(s: Tracker, e: Step)
    requires !e.RegisterIndex?
    ensures Next(s, e).index == s.index - Dropped(s, e) && Next(s, e).latest == s.latest
  {
  }

  lemma CurrentStep(s: Tracker, e: Step, id: Id)
    requires id in s.records && Current(Next(s, e), id)
    ensures Current(s, id)
  {
  }

  lemma LatestStep(s: Tracker, e: Step)
    requires Latest(s)
    ensures Latest(Next(s, e))
  {
    MatchesStays(s, e);
    if e.RegisterIndex? {
      var t := Next(s, e);
      if e.id !in s.records && e.job.correlation.Some? { assert Matches(t, e.id, e.job.user, e.job.correlation.value); }
    } else {
      IndexAfter(s, e);
    }
  }

  lemma FindableRegister(s: Tracker, id: Id, job: Job)
    requires Findable(s) && Latest(s)
    ensures Findable(Next(s, RegisterIndex(id, job)))
  {
    var t := Next(s, RegisterIndex(id, job));
    forall k | k in t.latest && Current(t, t.latest[k]) ensures k in t.index && t.index[k] == t.latest[k] {
      if t.latest[k] != id || id in s.records {
        assert IndexedRight(s, k, s.latest[k]);
        CurrentStep(s, RegisterIndex(id, job), t.latest[k]);
      }
    }
  }

  lemma DropForgets(s: Tracker, e: Step, k: Text)
    requires Latest(s) && k in Dropped(s, e) && k in s.index && Current(s, s.index[k])
    ensures !Findable(Next(s, e))
  {
    var t := Next(s, e);
    IndexAfter(s, e);
    assert At(t, s.latest[k], s.records[s.latest[k]].life);
  }

  lemma FindableStep(s: Tracker, e: Step)
    requires Findable(s) && Latest(s)
    ensures Findable(Next(s, e)) <==> SafeDrop(s, e)
  {
    if e.RegisterIndex? {
      FindableRegister(s, e.id, e.job);
    } else {
      IndexAfter(s, e);
      if k :| k in Dropped(s, e) && k in s.index && Current(s, s.index[k]) {
        DropForgets(s, e, k);
      } else {
        var t := Next(s, e);
        forall k | k in t.latest && Current(t, t.latest[k]) ensures k in t.index && t.index[k] == t.latest[k] {
          assert IndexedRight(s, k, s.latest[k]);
          CurrentStep(s, e, s.latest[k]);
        }
      }
    }
  }

  ghost predicate FindableThroughout(s: Tracker, es: seq<Step>) {
    forall n: nat | n <= |es| :: Findable(Run(s, es[..n]))
  }

  lemma {:induction false} FindableExactly(s: Tracker, es: seq<Step>)
    requires Findable(s) && Latest(s)
    ensures SafeRun(s, es) <==> FindableThroughout(s, es)
    decreases |es|
  {
    assert es[..0] == [];
    if es == [] {
    } else {
      var t, rest := Next(s, es[0]), es[1..];
      FindableStep(s, es[0]);
      LatestStep(s, es[0]);
      forall n: nat | 0 < n <= |es| ensures Run(s, es[..n]) == Run(t, rest[..n - 1]) {
        assert es[..n][0] == es[0] && es[..n][1..] == rest[..n - 1];
      }
      assert rest[..0] == [];
      if SafeDrop(s, es[0]) {
        FindableExactly(t, rest);
        if m: nat :| m <= |rest| && !Findable(Run(t, rest[..m])) { assert !Findable(Run(s, es[..m + 1])); }
      } else {
        assert !Findable(Run(s, es[..1]));
      }
    }
  }

  /** All along a run the index names every current job that was registered last under its key, if and only if
      no lookup or finalize of the run removes an entry that names a live job or one being registered. */
  lemma IndexIsRightExactlyAfterSafeDrops(es: seq<Step>)
    ensures SafeRun(Init(), es) <==> FindableThroughout(Init(), es)
  {
    FindableExactly(Init(), es);
  }

  lemma {:induction false} LatestRun(s: Tracker, es: seq<Step>)
    requires Latest(s)
    ensures Latest(Run(s, es))
    decreases |es|
  {
    if es == [] {
    } else {
      LatestStep(s, es[0]);
      LatestRun(Next(s, es[0]), es[1..]);
    }
  }

  /** This lookup takes no step itself. */
  ghost predicate Leaves(finder: nat, es: seq<Step>) {
    forall i | 0 <= i < |es| :: !((es[i].FindCheck? || es[i].FindDrop?) && es[i].finder == finder)
  }

  lemma {:induction false} LookingStays(s: Tracker, finder: nat, es: seq<Step>)
    requires finder in s.finders && Leaves(finder, es)
    ensures finder in Run(s, es).finders && Run(s, es).finders[finder] == s.finders[finder]
    decreases |es|
  {
    if es == [] {
    } else {
      LookingStays(Next(s, es[0]), finder, es[1..]);
    }
  }

  /** In any reachable state, for the job registered last under a user and correlation id: a lookup that begins
      while the index has the key, and checks while the job is live, answers with it, whatever happens in
      between; a lookup that begins without the key answers with nothing. */
  lemma LookupAnswersByIndex(es: seq<Step>, finder: nat, user: Text, correlation: Text, mid: seq<Step>)
    requires finder !in Run(Init(), es).finders && CorrelationKey(user, correlation) in Run(Init(), es).latest
    ensures var s := Run(Init(), es); var key := CorrelationKey(user, correlation);
            var t := Run(Next(s, FindGet(finder, user, correlation)), mid);
            && (key in s.index && Leaves(finder, mid) && s.latest[key] in t.jobs ==>
                  Found(user, correlation, s.latest[key]) in Next(t, FindCheck(finder)).found)
            && (key !in s.index ==> Next(s, FindGet(finder, user, correlation)) == s)
  {
    var s := Run(Init(), es);
    LatestRun(Init(), es);
    var key := CorrelationKey(user, correlation);
    var u := Next(s, FindGet(finder, user, correlation));
    if key in s.index && Leaves(finder, mid) {
      LookingStays(u, finder, mid);
      CheckAnswers(Run(u, mid), finder);
    }
  }

  lemma CheckAnswers(t: Tracker, finder: nat)
    requires finder in t.finders && t.finders[finder].Looking?
    ensures var f := t.finders[finder];
            f.id in t.jobs ==> Found(f.user, f.correlation, f.id) in Next(t, FindCheck(finder)).found
  {
  }

  lemma LookupWithoutKey(t: Tracker, finder: nat, user: Text, correlation: Text)
    requires CorrelationKey(user, correlation) !in t.index
    ensures Next(t, FindGet(finder, user, correlation)) == t
  {
  }

  lemma RegisteredIsLive(s: Tracker, id: Id)
    requires Current(s, id) && LivesAt(s, id)
    ensures id in Next(s, RegisterLive(id)).jobs && Next(s, RegisterLive(id)).index == s.index
  {
  }

  /** A live job of this user and correlation id, for which every lookup answers with nothing. */
  ghost predicate Missed(t: Tracker, id: Id, user: Text, correlation: Text) {
    id in t.jobs && Matches(t, id, user, correlation)
    && forall finder :: Next(t, FindGet(finder, user, correlation)) == t
  }

  /** A wrong index means a job that no lookup finds, as soon as its registration is through. */
  lemma WrongIndexMissesALiveJob(es: seq<Step>)
    requires !Findable(Run(Init(), es))
    ensures exists id, user, correlation :: Missed(Next(Run(Init(), es), RegisterLive(id)), id, user, correlation)
  {
    RunKeeps(Init(), es);
    LatestRun(Init(), es);
    WrongEntryIsMissed(Run(Init(), es));
  }

  lemma WrongEntryIsMissed(s: Tracker)
    requires Lives(s) && Latest(s) && !Findable(s)
    ensures exists id, user, correlation :: Missed(Next(s, RegisterLive(id)), id, user, correlation)
  {
    var k :| k in s.latest && Current(s, s.latest[k]) && !(k in s.index && s.index[k] == s.latest[k]);
    var id := s.latest[k];
    assert IndexedRight(s, k, id) && LivesAt(s, id);
    var user, correlation :| k == CorrelationKey(user, correlation) && Matches(s, id, user, correlation);
    var t := Next(s, RegisterLive(id));
    MatchesStays(s, RegisterLive(id));
    RegisteredIsLive(s, id);
    forall finder ensures Next(t, FindGet(finder, user, correlation)) == t {
      LookupWithoutKey(t, finder, user, correlation);
    }
    assert Missed(t, id, user, correlation);
  }

  /** Without that condition a live job need not be found. A lookup that runs between the two map
      insertions of `register` takes the index entry for stale and drops it. */
  lemma LookupDuringRegisterForgetsTheJob(id: Id, device: Text, user: Text, correlation: Text)
    ensures var job := Job(device, user, Some(correlation));
            var looked := Next(Next(Next(Next(Init(), RegisterIndex(id, job)), FindGet(0, user, correlation)),
                                    FindCheck(0)), FindDrop(0));
            var s := Next(looked, RegisterLive(id));
            id in s.jobs && CorrelationKey(user, correlation) !in s.index
  {
    var job := Job(device, user, Some(correlation));
    var a := Next(Init(), RegisterIndex(id, job));
    var b := Next(a, FindGet(0, user, correlation));
    assert b.finders[0] == Looking(user, correlation, id);
    var c := Next(b, FindCheck(0));
    assert c.finders[0] == Stale(user, correlation);
  }

  /** The same through `finalize`, from any state: its check finds the entry of the finished job `a`, the next
      job `b` registers under the same key, and then the entry is removed. */
  lemma FinalizeDuringRegisterForgetsTheJob(s: Tracker, a: Id, b: Id)
    requires At(s, a, Completed) && PointsAt(s, a) && b !in s.records
    ensures var job := s.records[a].job;
            var t := Next(Next(Next(Next(s, FinalizeCheck(a)), RegisterIndex(b, job)), FinalizeUnindex(a)), RegisterLive(b));
            b in t.jobs && CorrelationKey(job.user, job.correlation.value) !in t.index
  {
    var s1 := Next(s, FinalizeCheck(a));
    assert At(s1, a, Unindexing) && b !in s1.records;
    var s2 := Next(s1, RegisterIndex(b, s.records[a].job));
    assert At(s2, a, Unindexing) && At(s2, b, Indexed) && s2.records[a].job == s.records[a].job;
    var s3 := Next(s2, FinalizeUnindex(a));
    assert At(s3, b, Indexed);
  }

  /** Such a state is reached by registering and finalizing one job. */
  lemma FinishedJobIsStillIndexed(a: Id, job: Job)
    requires job.correlation.Some?
    ensures var s := Next(Next(Next(Next(Next(Init(), RegisterIndex(a, job)), RegisterLive(a)), FinalizeRemove(a, "")),
                               FinalizeSend(a)), FinalizeComplete(a));
            At(s, a, Completed) && PointsAt(s, a) && s.records.Keys == {a}
  {
    var s1 := Next(Init(), RegisterIndex(a, job));
    var s2 := Next(s1, RegisterLive(a));
    assert At(s2, a, Live) && PointsAt(s2, a) && s2.records.Keys == {a};
    var s3 := Next(s2, FinalizeRemove(a, ""));
    assert At(s3, a, Removed(Terminal(""))) && PointsAt(s3, a) && s3.records.Keys == {a};
    var s4 := Next(s3, FinalizeSend(a));
    assert At(s4, a, Sent) && PointsAt(s4, a) && s4.records.Keys == {a};
  }
}
