/** The in-memory output stream of one job: a recorder that numbers items, keeps a trimmed history and
    broadcasts, and a subscriber that resumes from a Last-Event-ID. Recorder and subscriber interleave
    at every shared access: the history, the `finished` flag and the broadcast ring. */
module OutputStream {
  import opened Numbered

  /** Slots of the broadcast ring. */
  const CAPACITY: nat := 64

  datatype Item = Item(num: nat, terminal: bool, text: string)

  datatype Output = Event(item: Item) | Resync

  /** Where the recorder stands inside `record`. */
  datatype Recording = Idle | Taken | Pushed | Flagged

  /** Where the subscriber stands: `rest` is what it still has to replay, `pos` its ring cursor. */
  datatype Phase = Start | Loaded | Subscribed | Replaying(rest: seq<Item>) | Live | Ended

  datatype Subscriber = Subscriber(resume: Option<nat>, phase: Phase, sawFinished: bool, pos: nat, last: nat,
                                   out: seq<Output>)

  /** `recorded`: every item that was given a number; its first `sent` went through the ring. */
  datatype State = State(maxHistory: nat, recorded: seq<Item>, rec: Recording, history: seq<Item>,
                         finished: bool, sent: nat, sub: Subscriber)

  datatype Step =
    | TakeSeq(terminal: bool, text: string) | PushHistory | SetFinished | Send  // record
    | LoadFinished | Subscribe | Snapshot | Replay | Receive | Close             // subscribe_from

  function Init(maxHistory: nat, resume: Option<nat>): State {
    State(if maxHistory == 0 then 1 else maxHistory, [], Idle, [], false, 0,
          Subscriber(resume, Start, false, 0, if resume.Some? then resume.value else 0, []))
  }

  function Trimmed(history: seq<Item>, max: nat): seq<Item> {
    if |history| > max then history[|history| - max..] else history
  }

  function NeedsResync(history: seq<Item>, resume: Option<nat>): bool {
    history != [] && resume.Some? && history[0].num > resume.value + 1
  }

  /** Both loops treat an item alike: skip what was seen, otherwise emit it, and stop on the terminal one. */
  function Emit(sub: Subscriber, item: Item, after: Phase, pos: nat): Subscriber {
    if item.num <= sub.last then sub.(phase := after, pos := pos)
    else sub.(last := item.num, pos := pos, out := sub.out + [Event(item)],
              phase := if item.terminal then Ended else after)
  }

  function RecorderStep(s: State, e: Step): State {
    match e
    case TakeSeq(terminal, text) =>
      if !s.rec.Idle? then s
      else s.(recorded := s.recorded + [Item(|s.recorded| + 1, terminal, text)], rec := Taken)
    case PushHistory =>
      if !s.rec.Taken? || s.recorded == [] then s
      else s.(history := Trimmed(s.history + [s.recorded[|s.recorded| - 1]], s.maxHistory), rec := Pushed)
    case SetFinished =>
      if !s.rec.Pushed? || s.recorded == [] then s
      else s.(finished := s.finished || s.recorded[|s.recorded| - 1].terminal, rec := Flagged)
    case Send => if s.rec.Flagged? then s.(sent := s.sent + 1, rec := Idle) else s
    case _ => s
  }

  function SubscriberStep(s: State, e: Step): Subscriber {
    var sub := s.sub;
    match e
    case LoadFinished => if sub.phase.Start? then sub.(sawFinished := s.finished, phase := Loaded) else sub
    case Subscribe => if sub.phase.Loaded? then sub.(pos := s.sent, phase := Subscribed) else sub
    case Snapshot =>
      if !sub.phase.Subscribed? then sub
      else sub.(phase := Replaying(s.history),
                out := if NeedsResync(s.history, sub.resume) then sub.out + [Resync] else sub.out)
    case Replay =>
      if !sub.phase.Replaying? then sub
      else if sub.phase.rest == [] then sub.(phase := if sub.sawFinished then Ended else Live)
      else Emit(sub, sub.phase.rest[0], Replaying(sub.phase.rest[1..]), sub.pos)
    case Receive =>
      if !sub.phase.Live? || sub.pos >= s.sent || s.sent > |s.recorded| then sub
      else if s.sent - sub.pos > CAPACITY then sub.(pos := s.sent - CAPACITY, out := sub.out + [Resync])
      else Emit(sub, s.recorded[sub.pos], Live, sub.pos + 1)
    case Close => if sub.phase.Live? && sub.pos == s.sent then sub.(phase := Ended) else sub
    case _ => sub
  }

  function Next(s: State, e: Step): State {
    RecorderStep(s, e).(sub := SubscriberStep(s, e))
  }

  function Run(s: State, es: seq<Step>): State
    decreases |es|
  {
    if es == [] then s else Run(Next(s, es[0]), es[1..])
  }

  // ---- The source's methods, uninterrupted ----

  class JobOutput {
    const maxHistory: nat
    var nextSeq: nat
    var history: seq<Item>
    var finished: bool

    constructor (maxHistory: nat)
      ensures this.maxHistory == Init(maxHistory, None).maxHistory
      ensures nextSeq == 0 && history == [] && !finished
    {
      this.maxHistory := if maxHistory == 0 then 1 else maxHistory;
      nextSeq, history, finished := 0, [], false;
    }

    /** Returns what is broadcast. */
    method Record(terminal: bool, text: string) returns (item: Item)
      modifies this
      ensures nextSeq == old(nextSeq) + 1 && item == Item(nextSeq, terminal, text)
      ensures history == Trimmed(old(history) + [item], maxHistory)
      ensures |history| == if |old(history)| < maxHistory then |old(history)| + 1 else maxHistory
      ensures history == (old(history) + [item])[|old(history)| + 1 - |history|..]
      ensures finished == (old(finished) || terminal)
    {
      nextSeq := nextSeq + 1;
      item := Item(nextSeq, terminal, text);
      history := history + [item];
      if |history| > maxHistory { history := history[|history| - maxHistory..]; }
      if terminal { finished := true; }
    }
  }

  /** Four steps of an uninterrupted recorder are what the method does. */
  lemma RecordIsFourSteps(s: State, terminal: bool, text: string)
    requires s.rec.Idle?
    ensures var item := Item(|s.recorded| + 1, terminal, text);
            Run(s, [TakeSeq(terminal, text), PushHistory, SetFinished, Send])
            == s.(recorded := s.recorded + [item], history := Trimmed(s.history + [item], s.maxHistory),
                  finished := s.finished || terminal, sent := s.sent + 1)
  {
    var a := Next(s, TakeSeq(terminal, text));
    var b := Next(a, PushHistory);
    var c := Next(b, SetFinished);
    var d := Next(c, Send);
    var es := [TakeSeq(terminal, text), PushHistory, SetFinished, Send];
    assert es[1..] == [PushHistory, SetFinished, Send] && es[1..][1..] == [SetFinished, Send];
    assert [SetFinished, Send][1..] == [Send] && [Send][1..] == [];
    assert Run(c, [Send]) == Run(d, []) && Run(b, [SetFinished, Send]) == Run(c, [Send]);
  }

  /** What the replay loop leaves of a subscriber. */
  function Replayed(sub: Subscriber): Subscriber
    decreases if sub.phase.Replaying? then |sub.phase.rest| + 1 else 0
  {
    if !sub.phase.Replaying? then sub
    else if sub.phase.rest == [] then sub.(phase := if sub.sawFinished then Ended else Live)
    else Replayed(Emit(sub, sub.phase.rest[0], Replaying(sub.phase.rest[1..]), sub.pos))
  }

  function FromSnapshot(history: seq<Item>, resume: Option<nat>, finished: bool): Subscriber {
    Subscriber(resume, Replaying(history), finished, 0, if resume.Some? then resume.value else 0,
               if NeedsResync(history, resume) then [Resync] else [])
  }

  /** The part of `subscribe_from` before the live loop. */
  method ReplayHistory(history: seq<Item>, lastEventId: Option<nat>, finished: bool)
    returns (out: seq<Output>, lastSeq: nat, ended: bool)
    ensures var r := Replayed(FromSnapshot(history, lastEventId, finished));
            out == r.out && lastSeq == r.last && ended == r.phase.Ended?
  {
    lastSeq := if lastEventId.Some? then lastEventId.value else 0;
    out := if NeedsResync(history, lastEventId) then [Resync] else [];
    for i := 0 to |history|
      invariant Replayed(Subscriber(lastEventId, Replaying(history[i..]), finished, 0, lastSeq, out))
                == Replayed(FromSnapshot(history, lastEventId, finished))
    {
      assert history[i..][1..] == history[i + 1..];
      if history[i].num > lastSeq {
        lastSeq := history[i].num;
        out := out + [Event(history[i])];
        if history[i].terminal { return out, lastSeq, true; }
      }
    }
    ended := finished;
  }

  function Replays(n: nat): seq<Step> { seq(n, i => Replay) }

  /** The loop is a run of replay steps. */
  lemma {:induction false} ReplayLoopIsSteps(s: State)
    requires s.sub.phase.Replaying?
    ensures Run(s, Replays(|s.sub.phase.rest| + 1)) == s.(sub := Replayed(s.sub))
    decreases |s.sub.phase.rest|
  {
    var rest := s.sub.phase.rest;
    var t := Next(s, Replay);
    assert Replays(|rest| + 1)[1..] == Replays(|rest|);
    if t.sub.phase.Replaying? {
      ReplayLoopIsSteps(t);
    } else {
      StaysPut(t, |rest|);
    }
  }

  lemma {:induction false} StaysPut(s: State, n: nat)
    requires !s.sub.phase.Replaying?
    ensures Run(s, Replays(n)) == s
  {
    if n == 0 {
    } else {
      assert Replays(n)[1..] == Replays(n - 1);
      StaysPut(Next(s, Replay), n - 1);
    }
  }

  // ---- What a subscriber may rely on ----

  /** The id of the latest event before position `j`, or the id the subscriber resumed from. */
  function Previous(out: seq<Output>, j: nat, resume: Option<nat>): nat
    requires j <= |out|
  {
    if j == 0 then (if resume.Some? then resume.value else 0)
    else if out[j - 1].Event? then out[j - 1].item.num
    else Previous(out, j - 1, resume)
  }

  /** Position `j` continues without a gap, or the gap is announced right before it. Only a subscriber
      that resumes from nothing may see its first event start later. */
  ghost predicate Continues(out: seq<Output>, j: nat, resume: Option<nat>)
    requires j < |out|
  {
    out[j].Event? ==>
      var p := Previous(out, j, resume);
      && out[j].item.num > p
      && (out[j].item.num == p + 1 || (j > 0 && out[j - 1].Resync?)
          || (resume.None? && forall i | 0 <= i < j :: out[i].Resync?))
  }

  predicate IsTerminal(o: Output) { o.Event? && o.item.terminal }

  ghost predicate Unfinished(out: seq<Output>) { forall i | 0 <= i < |out| :: !IsTerminal(out[i]) }

  ghost predicate Continuous(out: seq<Output>, resume: Option<nat>) {
    forall j | 0 <= j < |out| :: Continues(out, j, resume)
  }

  ghost predicate Genuine(out: seq<Output>, recorded: seq<Item>) {
    forall j | 0 <= j < |out| && out[j].Event? ::
      1 <= out[j].item.num <= |recorded| && out[j].item == recorded[out[j].item.num - 1]
  }

  ghost predicate Faithful(out: seq<Output>, recorded: seq<Item>, resume: Option<nat>) {
    && Continuous(out, resume)
    && Genuine(out, recorded)
    && (out != [] ==> Unfinished(out[..|out| - 1]))
  }

  // ---- Invariant ----

  ghost predicate Consecutive(recorded: seq<Item>) {
    forall i | 0 <= i < |recorded| :: recorded[i].num == i + 1
  }

  /** The history is the last `max` of the first `pushed` items, or all of them. */
  ghost predicate HistoryOf(recorded: seq<Item>, history: seq<Item>, pushed: int, max: nat) {
    && 0 <= pushed <= |recorded| && |history| == (if pushed <= max then pushed else max)
    && forall i | 0 <= i < |history| :: history[i] == recorded[pushed - |history| + i]
  }

  function PushedCount(s: State): int {
    if s.rec.Taken? then |s.recorded| - 1 else |s.recorded|
  }

  ghost predicate RecorderInv(s: State) {
    && s.maxHistory >= 1
    && Consecutive(s.recorded)
    && s.sent == (if s.rec.Idle? then |s.recorded| else |s.recorded| - 1)
    && HistoryOf(s.recorded, s.history, PushedCount(s), s.maxHistory)
  }

  ghost predicate OnlyResyncs(out: seq<Output>) { forall i | 0 <= i < |out| :: out[i].Resync? }

  /** Item `next + 1` can follow without an unannounced gap. */
  ghost predicate Ready(last: nat, out: seq<Output>, resume: Option<nat>, next: nat) {
    next <= last || (out != [] && out[|out| - 1].Resync?) || (resume.None? && OnlyResyncs(out))
  }

  ghost predicate Replayable(recorded: seq<Item>, rest: seq<Item>, a: nat) {
    a + |rest| <= |recorded| && forall i | 0 <= i < |rest| :: rest[i] == recorded[a + i]
  }

  /** A terminal item is among the first `n`. */
  ghost predicate HasTerminal(recorded: seq<Item>, n: int) {
    exists i | 0 <= i < n && i < |recorded| :: recorded[i].terminal
  }

  /** While replaying from item `a + 1` on: nothing between what was seen and the rest is skipped. */
  ghost predicate ReplayInv(sub: Subscriber, rest: seq<Item>, recorded: seq<Item>, a: nat) {
    && Replayable(recorded, rest, a) && sub.pos <= a + |rest|
    && Ready(sub.last, sub.out, sub.resume, a)
    && (rest == [] ==> a <= sub.last)
    && (sub.sawFinished ==> HasTerminal(recorded, a + |rest|))
  }

  /** A live subscriber either has seen all it has passed in the ring, or has more to receive. */
  ghost predicate LiveInv(sub: Subscriber, sent: nat) {
    Ready(sub.last, sub.out, sub.resume, sub.pos) && (sub.pos == sent ==> sub.pos <= sub.last)
  }

  ghost predicate PhaseInv(sub: Subscriber, recorded: seq<Item>, sent: nat) {
    match sub.phase
    case Replaying(rest) => exists a: nat :: ReplayInv(sub, rest, recorded, a)
    case Live => LiveInv(sub, sent) && !sub.sawFinished
    case Ended => sub.sawFinished ==> HasTerminal(recorded, sub.last)
    case _ => sub.out == []
  }

  ghost predicate Delivered(sub: Subscriber, recorded: seq<Item>) {
    && sub.last == Previous(sub.out, |sub.out|, sub.resume)
    && Faithful(sub.out, recorded, sub.resume)
    && (!sub.phase.Ended? ==> Unfinished(sub.out))
  }

  ghost predicate SubscriberInv(sub: Subscriber, recorded: seq<Item>, sent: nat) {
    Delivered(sub, recorded) && PhaseInv(sub, recorded, sent) && sub.pos <= sent
  }

  /** The flag is set only with a terminal item in the history, and it stays set. */
  ghost predicate FlagInv(s: State) {
    && (s.finished ==> HasTerminal(s.recorded, PushedCount(s)))
    && (s.sub.sawFinished ==> s.finished)
  }

  ghost predicate Inv(s: State) {
    RecorderInv(s) && FlagInv(s) && SubscriberInv(s.sub, s.recorded, s.sent)
  }

  lemma PushKeepsHistory(recorded: seq<Item>, history: seq<Item>, max: nat)
    requires recorded != [] && max >= 1 && HistoryOf(recorded, history, |recorded| - 1, max)
    ensures HistoryOf(recorded, Trimmed(history + [recorded[|recorded| - 1]], max), |recorded|, max)
  {
    var longer := history + [recorded[|recorded| - 1]];
    forall i | 0 <= i < |longer| ensures longer[i] == recorded[|recorded| - |longer| + i] {}
  }

  lemma TakeKeeps(s: State, terminal: bool, text: string)
    requires RecorderInv(s) && s.rec.Idle?
    ensures RecorderInv(RecorderStep(s, TakeSeq(terminal, text)))
  {
  }

  lemma PushKeeps(s: State)
    requires RecorderInv(s) && s.rec.Taken? && s.recorded != []
    ensures RecorderInv(RecorderStep(s, PushHistory))
  {
    PushKeepsHistory(s.recorded, s.history, s.maxHistory);
  }

  lemma SentKeeps(s: State, e: Step)
    requires RecorderInv(s) && (e.SetFinished? || e.Send?)
    ensures RecorderInv(RecorderStep(s, e))
    ensures s.recorded == RecorderStep(s, e).recorded && s.sent <= RecorderStep(s, e).sent
  {
  }

  lemma RecorderKeeps(s: State, e: Step)
    requires RecorderInv(s)
    ensures RecorderInv(RecorderStep(s, e))
    ensures s.recorded <= RecorderStep(s, e).recorded && s.sent <= RecorderStep(s, e).sent
  {
    match e
    case TakeSeq(terminal, text) => if s.rec.Idle? { TakeKeeps(s, terminal, text); }
    case PushHistory => if s.rec.Taken? && s.recorded != [] { PushKeeps(s); }
    case SetFinished => SentKeeps(s, e);
    case Send => SentKeeps(s, e);
    case _ =>
  }

  lemma {:induction false} PreviousPrefix(out: seq<Output>, more: seq<Output>, j: nat, resume: Option<nat>)
    requires j <= |out|
    ensures Previous(out + more, j, resume) == Previous(out, j, resume)
  {
    if j == 0 {
    } else {
      PreviousPrefix(out, more, j - 1, resume);
    }
  }

  /** Appending one output that continues the stream keeps the whole stream continuous. */
  lemma ContinuesAppend(out: seq<Output>, o: Output, resume: Option<nat>)
    requires Continuous(out, resume)
    requires o.Event? ==> o.item.num > Previous(out, |out|, resume)
                          && Ready(Previous(out, |out|, resume), out, resume, o.item.num - 1)
    ensures Continuous(out + [o], resume)
    ensures Previous(out + [o], |out| + 1, resume) == if o.Event? then o.item.num else Previous(out, |out|, resume)
  {
    forall j | 0 <= j < |out| + 1 ensures Continues(out + [o], j, resume) {
      PreviousPrefix(out, [o], j, resume);
      if j < |out| { assert Continues(out, j, resume); }
    }
    PreviousPrefix(out, [o], |out|, resume);
  }

  lemma FaithfulAppend(out: seq<Output>, o: Output, recorded: seq<Item>, resume: Option<nat>)
    requires Faithful(out, recorded, resume) && Unfinished(out)
    requires o.Event? ==> && o.item.num > Previous(out, |out|, resume)
                          && Ready(Previous(out, |out|, resume), out, resume, o.item.num - 1)
                          && 1 <= o.item.num <= |recorded| && o.item == recorded[o.item.num - 1]
    ensures Faithful(out + [o], recorded, resume)
    ensures Previous(out + [o], |out| + 1, resume) == if o.Event? then o.item.num else Previous(out, |out|, resume)
    ensures !IsTerminal(o) ==> Unfinished(out + [o])
  {
    ContinuesAppend(out, o, resume);
    assert (out + [o])[..|out|] == out;
  }

  /** Emitting the recorded item `k` where the subscriber is ready for it. */
  lemma EmitKeeps(sub: Subscriber, recorded: seq<Item>, k: nat, after: Phase, pos: nat)
    requires Delivered(sub, recorded) && !sub.phase.Ended?
    requires k < |recorded| && recorded[k].num == k + 1 && Ready(sub.last, sub.out, sub.resume, k)
    ensures var t := Emit(sub, recorded[k], after, pos);
            Delivered(t, recorded) && k + 1 <= t.last && t.pos == pos && t.phase in {after, Ended}
  {
    if recorded[k].num > sub.last {
      FaithfulAppend(sub.out, Event(recorded[k]), recorded, sub.resume);
    }
  }

  lemma ResyncKeeps(sub: Subscriber, recorded: seq<Item>, after: Phase, pos: nat)
    requires Delivered(sub, recorded) && !sub.phase.Ended?
    ensures Delivered(sub.(phase := after, pos := pos, out := sub.out + [Resync]), recorded)
  {
    FaithfulAppend(sub.out, Resync, recorded, sub.resume);
  }

  lemma SnapshotKeeps(s: State)
    requires Inv(s) && s.sub.phase.Subscribed?
    ensures SubscriberInv(SubscriberStep(s, Snapshot), s.recorded, s.sent)
  {
    var t := SubscriberStep(s, Snapshot);
    var a := PushedCount(s) - |s.history|;
    if NeedsResync(s.history, s.sub.resume) {
      ResyncKeeps(s.sub, s.recorded, Replaying(s.history), s.sub.pos);
    }
    assert s.history != [] ==> s.history[0] == s.recorded[a];
    assert ReplayInv(t, s.history, s.recorded, a);
  }

  lemma ReplayOneKeeps(sub: Subscriber, rest: seq<Item>, recorded: seq<Item>, sent: nat, a: nat)
    requires Delivered(sub, recorded) && sub.phase == Replaying(rest) && rest != [] && sub.pos <= sent
    requires Consecutive(recorded) && ReplayInv(sub, rest, recorded, a)
    ensures SubscriberInv(Emit(sub, rest[0], Replaying(rest[1..]), sub.pos), recorded, sent)
  {
    var t := Emit(sub, recorded[a], Replaying(rest[1..]), sub.pos);
    EmitKeeps(sub, recorded, a, Replaying(rest[1..]), sub.pos);
    assert rest[0] == recorded[a];
    assert ReplayInv(t, rest[1..], recorded, a + 1);
  }

  lemma ReplayKeeps(s: State)
    requires Inv(s) && s.sub.phase.Replaying?
    ensures SubscriberInv(SubscriberStep(s, Replay), s.recorded, s.sent) == SubscriberInv(s.sub, s.recorded, s.sent)
  {
    var rest := s.sub.phase.rest;
    var a: nat :| ReplayInv(s.sub, rest, s.recorded, a);
    if rest != [] { ReplayOneKeeps(s.sub, rest, s.recorded, s.sent, a); }
  }

  lemma LagKeeps(sub: Subscriber, recorded: seq<Item>, sent: nat, pos: nat)
    requires SubscriberInv(sub, recorded, sent) && sub.phase.Live? && pos < sent
    ensures SubscriberInv(sub.(pos := pos, out := sub.out + [Resync]), recorded, sent) == SubscriberInv(sub, recorded, sent)
  {
    ResyncKeeps(sub, recorded, Live, pos);
    assert sub.(pos := pos, out := sub.out + [Resync]) == sub.(phase := Live, pos := pos, out := sub.out + [Resync]);
  }

  lemma ReceiveOneKeeps(sub: Subscriber, recorded: seq<Item>, sent: nat)
    requires SubscriberInv(sub, recorded, sent) && sub.phase.Live? && sub.pos < sent <= |recorded|
    requires Consecutive(recorded)
    ensures SubscriberInv(Emit(sub, recorded[sub.pos], Live, sub.pos + 1), recorded, sent)
  {
    EmitKeeps(sub, recorded, sub.pos, Live, sub.pos + 1);
  }

  lemma ReceiveKeeps(s: State)
    requires Inv(s) && s.sub.phase.Live? && s.sub.pos < s.sent
    ensures SubscriberInv(SubscriberStep(s, Receive), s.recorded, s.sent) == SubscriberInv(s.sub, s.recorded, s.sent)
  {
    if s.sent - s.sub.pos > CAPACITY {
      LagKeeps(s.sub, s.recorded, s.sent, s.sent - CAPACITY);
    } else {
      ReceiveOneKeeps(s.sub, s.recorded, s.sent);
    }
  }

  lemma SubscriberKeeps(s: State, e: Step)
    requires Inv(s)
    ensures SubscriberInv(SubscriberStep(s, e), s.recorded, s.sent) == SubscriberInv(s.sub, s.recorded, s.sent)
  {
    match e
    case Snapshot => if s.sub.phase.Subscribed? { SnapshotKeeps(s); }
    case Replay => if s.sub.phase.Replaying? { ReplayKeeps(s); }
    case Receive => if s.sub.phase.Live? && s.sub.pos < s.sent { ReceiveKeeps(s); }
    case _ =>
  }

  /** The recorder only extends what the subscriber relies on. */
  lemma Extends(sub: Subscriber, before: seq<Item>, after: seq<Item>, sent: nat, sent': nat)
    requires SubscriberInv(sub, before, sent) && before <= after && sent <= sent'
    ensures SubscriberInv(sub, after, sent')
  {
    if sub.phase.Replaying? {
      var a: nat :| ReplayInv(sub, sub.phase.rest, before, a);
      assert ReplayInv(sub, sub.phase.rest, after, a);
    }
  }

  lemma StepKeeps(s: State, e: Step)
    requires Inv(s)
    ensures Inv(Next(s, e)) == Inv(s)
  {
    if e.TakeSeq? || e.PushHistory? || e.SetFinished? || e.Send? {
      RecorderKeeps(s, e);
      Extends(s.sub, s.recorded, RecorderStep(s, e).recorded, s.sent, RecorderStep(s, e).sent);
      assert Next(s, e) == RecorderStep(s, e);
    } else {
      SubscriberKeeps(s, e);
      assert Next(s, e) == s.(sub := SubscriberStep(s, e));
    }
  }

  lemma {:induction false} RunKeeps(s: State, es: seq<Step>)
    requires Inv(s)
    ensures Inv(Run(s, es)) == Inv(s)
    decreases |es|
  {
    if es == [] {
    } else {
      StepKeeps(s, es[0]);
      RunKeeps(Next(s, es[0]), es[1..]);
    }
  }

  /** For every interleaving and any ring lag: what the subscriber gets are recorded items, every gap is
      announced by a resync right before it, and nothing follows the terminal event. */
  lemma SubscriberSeesNoSilentGap(maxHistory: nat, resume: Option<nat>, es: seq<Step>)
    ensures var s := Run(Init(maxHistory, resume), es); Faithful(s.sub.out, s.recorded, resume)
  {
    RunKeeps(Init(maxHistory, resume), es);
    ResumeStays(Init(maxHistory, resume), es);
  }

  /** Ids strictly increase, also across resyncs, and all lie above the id resumed from. */
  lemma {:induction false} IdsIncrease(out: seq<Output>, i: nat, j: nat, resume: Option<nat>)
    requires i <= j < |out| && out[j].Event?
    requires Continuous(out, resume)
    ensures out[j].item.num > Previous(out, i, resume)
    ensures i < j && out[i].Event? ==> out[i].item.num < out[j].item.num
    decreases j
  {
    assert Continues(out, j, resume);
    PreviousGrows(out, i, j, resume);
    if i < j && out[i].Event? { PreviousGrows(out, i + 1, j, resume); }
  }

  lemma {:induction false} PreviousGrows(out: seq<Output>, i: nat, j: nat, resume: Option<nat>)
    requires i <= j <= |out|
    requires Continuous(out, resume)
    ensures Previous(out, i, resume) <= Previous(out, j, resume)
    decreases j
  {
    if i < j {
      PreviousGrows(out, i, j - 1, resume);
      assert Continues(out, j - 1, resume);
    }
  }

  lemma IdsStrictlyIncrease(maxHistory: nat, resume: Option<nat>, es: seq<Step>)
    ensures var out := Run(Init(maxHistory, resume), es).sub.out;
            && (forall i, j | 0 <= i < j < |out| && out[i].Event? && out[j].Event? ::
                  out[i].item.num < out[j].item.num)
            && (forall j | 0 <= j < |out| && out[j].Event? && resume.Some? :: out[j].item.num > resume.value)
  {
    SubscriberSeesNoSilentGap(maxHistory, resume, es);
    var s := Run(Init(maxHistory, resume), es);
    var out := s.sub.out;
    forall i, j | 0 <= i < j < |out| && out[i].Event? && out[j].Event?
      ensures out[i].item.num < out[j].item.num
    {
      IdsIncrease(out, i, j, resume);
    }
    forall j | 0 <= j < |out| && out[j].Event? && resume.Some? ensures out[j].item.num > resume.value {
      IdsIncrease(out, 0, j, resume);
    }
  }

  /** The recorder is at rest and its newest item, above the id resumed from, is terminal. */
  ghost predicate FinishedAbove(s: State) {
    && s.rec.Idle? && s.recorded != [] && s.recorded[|s.recorded| - 1].terminal
    && (s.sub.resume.Some? ==> s.sub.resume.value < |s.recorded|)
  }

  ghost predicate EndedWithTerminal(sub: Subscriber) {
    sub.phase.Ended? && sub.out != [] && IsTerminal(sub.out[|sub.out| - 1])
  }

  lemma LiveIsBehind(s: State)
    requires Inv(s) && s.sub.phase.Live? && FinishedAbove(s)
    ensures s.sub.pos < s.sent && s.sub.last < |s.recorded|
  {
    if s.sub.last >= |s.recorded| { LastWasEmitted(s.sub.out, |s.sub.out|, s.recorded, s.sub.resume); }
  }

  function Receives(n: nat): seq<Step> { seq(n, i => Receive) }

  lemma {:induction false} ReceivesEnd(s: State)
    requires Inv(s) && s.sub.phase.Live? && FinishedAbove(s)
    ensures exists n: nat :: EndedWithTerminal(Run(s, Receives(n)).sub)
    decreases s.sent - s.sub.pos
  {
    LiveIsBehind(s);
    var t := Next(s, Receive);
    if t.sub.phase.Live? {
      StepKeeps(s, Receive);
      ReceivesEnd(t);
      var n: nat :| EndedWithTerminal(Run(t, Receives(n)).sub);
      assert Receives(n + 1)[1..] == Receives(n);
      assert EndedWithTerminal(Run(s, Receives(n + 1)).sub);
    } else {
      assert Receives(1)[1..] == [] && Run(s, Receives(1)) == Run(t, []);
      assert EndedWithTerminal(Run(s, Receives(1)).sub);
    }
  }

  /** Nobody waits for a terminal event that has passed: once the newest item is terminal and sent, a live
      subscriber that resumed below it has something to receive, and finitely many receives end it with a
      terminal event. */
  lemma TerminalIsNeverMissed(maxHistory: nat, resume: Option<nat>, es: seq<Step>)
    requires var s := Run(Init(maxHistory, resume), es); s.sub.phase.Live? && FinishedAbove(s)
    ensures var s := Run(Init(maxHistory, resume), es);
            s.sub.pos < s.sent && exists n: nat :: EndedWithTerminal(Run(s, Receives(n)).sub)
  {
    RunKeeps(Init(maxHistory, resume), es);
    LiveIsBehind(Run(Init(maxHistory, resume), es));
    ReceivesEnd(Run(Init(maxHistory, resume), es));
  }

  /** Nor does a subscriber end without it: one that found the job finished when it came, and has ended, was
      given the terminal item, if that is the only and newest one and lies above the id resumed from. */
  lemma FinishedSubscriberGotTheTerminal(maxHistory: nat, resume: Option<nat>, es: seq<Step>)
    ensures var s := Run(Init(maxHistory, resume), es);
            (&& s.sub.phase.Ended? && s.sub.sawFinished && s.recorded != []
             && (forall i | 0 <= i < |s.recorded| - 1 :: !s.recorded[i].terminal)
             && (resume.Some? ==> resume.value < |s.recorded|))
            ==> exists i :: 0 <= i < |s.sub.out| && s.sub.out[i] == Event(s.recorded[|s.recorded| - 1])
  {
    var s := Run(Init(maxHistory, resume), es);
    RunKeeps(Init(maxHistory, resume), es);
    ResumeStays(Init(maxHistory, resume), es);
    var from := if resume.Some? then resume.value else 0;
    if && s.sub.phase.Ended? && s.sub.sawFinished && s.recorded != [] && from < |s.recorded|
       && (forall i | 0 <= i < |s.recorded| - 1 :: !s.recorded[i].terminal) {
      assert s.sub.last >= |s.recorded|;
      LastWasEmitted(s.sub.out, |s.sub.out|, s.recorded, resume);
    }
  }

  lemma {:induction false} LastWasEmitted(out: seq<Output>, j: nat, recorded: seq<Item>, resume: Option<nat>)
    requires j <= |out| && Genuine(out, recorded)
    requires Previous(out, j, resume) > if resume.Some? then resume.value else 0
    ensures exists i :: 0 <= i < j && out[i].Event? && out[i].item.num == Previous(out, j, resume)
  {
    if !out[j - 1].Event? { LastWasEmitted(out, j - 1, recorded, resume); }
  }

  lemma {:induction false} ResumeStays(s: State, es: seq<Step>)
    ensures Run(s, es).sub.resume == s.sub.resume && Run(s, es).maxHistory == s.maxHistory
    decreases |es|
  {
    if es == [] {
    } else {
      ResumeStays(Next(s, es[0]), es[1..]);
    }
  }

  // ---- What the history buys, and what a resync means ----

  /** In every reachable state the history is exactly the last `maxHistory` items pushed, at least one. */
  lemma HistoryIsFull(maxHistory: nat, resume: Option<nat>, es: seq<Step>)
    ensures var s := Run(Init(maxHistory, resume), es);
            var max := if maxHistory == 0 then 1 else maxHistory;
            var pushed := PushedCount(s);
            && 0 <= pushed <= |s.recorded|
            && s.history == if pushed <= max then s.recorded[..pushed] else s.recorded[pushed - max..pushed]
  {
    RunKeeps(Init(maxHistory, resume), es);
    ResumeStays(Init(maxHistory, resume), es);
  }

  /** The snapshot announces a gap exactly when the item after the id resumed from has left the history. */
  lemma SnapshotResyncsExactly(maxHistory: nat, resume: Option<nat>, es: seq<Step>)
    requires Run(Init(maxHistory, resume), es).sub.phase.Subscribed?
    ensures var s := Run(Init(maxHistory, resume), es);
            var gone := resume.Some? && PushedCount(s) - s.maxHistory > resume.value;
            Next(s, Snapshot).sub.out == if gone then [Resync] else []
  {
    RunKeeps(Init(maxHistory, resume), es);
    ResumeStays(Init(maxHistory, resume), es);
  }

  ghost predicate NoResync(out: seq<Output>) { forall i | 0 <= i < |out| :: out[i].Event? }

  /** Exactly the items from `from` on. */
  ghost predicate Exactly(out: seq<Output>, recorded: seq<Item>, from: nat) {
    out == [] || (from + |out| <= |recorded| && forall j | 0 <= j < |out| :: out[j] == Event(recorded[from + j]))
  }

  lemma {:induction false} PreviousCounts(out: seq<Output>, j: nat, resume: Option<nat>)
    requires j <= |out| && resume.Some? && NoResync(out) && Continuous(out, resume)
    ensures Previous(out, j, resume) == resume.value + j
  {
    if j == 0 {
    } else {
      PreviousCounts(out, j - 1, resume);
      assert Continues(out, j - 1, resume);
    }
  }

  lemma UnbrokenIsExact(out: seq<Output>, recorded: seq<Item>, resume: Option<nat>)
    requires resume.Some? && NoResync(out) && Continuous(out, resume) && Genuine(out, recorded)
    ensures Exactly(out, recorded, resume.value)
  {
    forall j | 0 <= j < |out|
      ensures resume.value + j < |recorded| && out[j] == Event(recorded[resume.value + j])
    {
      PreviousCounts(out, j + 1, resume);
    }
    if out != [] { PreviousCounts(out, |out|, resume); }
  }

  /** A subscriber that resumes, and was sent no resync, got exactly the items after its id, in order. */
  lemma NoResyncMeansNothingMissed(maxHistory: nat, from: nat, es: seq<Step>)
    requires NoResync(Run(Init(maxHistory, Some(from)), es).sub.out)
    ensures var s := Run(Init(maxHistory, Some(from)), es); Exactly(s.sub.out, s.recorded, from)
  {
    SubscriberSeesNoSilentGap(maxHistory, Some(from), es);
    var s := Run(Init(maxHistory, Some(from)), es);
    UnbrokenIsExact(s.sub.out, s.recorded, Some(from));
  }

  /** The replay loop reaches the end of its items or the terminal one. */
  lemma {:induction false} ReplayedReaches(sub: Subscriber, recorded: seq<Item>, a: nat)
    requires sub.phase.Replaying? && Consecutive(recorded) && Replayable(recorded, sub.phase.rest, a) && a <= sub.last
    ensures var r := Replayed(sub);
            || (r.phase == (if sub.sawFinished then Ended else Live) && r.last >= a + |sub.phase.rest|)
            || EndedWithTerminal(r)
    decreases |sub.phase.rest|
  {
    var rest := sub.phase.rest;
    if rest == [] {
    } else {
      assert rest[0] == recorded[a];
      var t := Emit(sub, rest[0], Replaying(rest[1..]), sub.pos);
      if t.phase.Replaying? { ReplayedReaches(t, recorded, a + 1); }
    }
  }

  lemma {:induction false} ReplayedSendsNoResync(sub: Subscriber)
    requires NoResync(sub.out)
    ensures NoResync(Replayed(sub).out) && Replayed(sub).resume == sub.resume
    decreases if sub.phase.Replaying? then |sub.phase.rest| + 1 else 0
  {
    if sub.phase.Replaying? && sub.phase.rest != [] {
      ReplayedSendsNoResync(Emit(sub, sub.phase.rest[0], Replaying(sub.phase.rest[1..]), sub.pos));
    }
  }

  /** What the snapshot and the replay of its items leave. */
  function SnapshotReplayed(s: State): State { Run(Next(s, Snapshot), Replays(|s.history| + 1)) }

  /** A subscriber at most `maxHistory` items behind gets, from the snapshot alone, every item after its id, up to
      the last one pushed or the terminal one, without a resync. */
  lemma CloseSubscriberMissesNothing(maxHistory: nat, from: nat, es: seq<Step>)
    requires var s := Run(Init(maxHistory, Some(from)), es);
             s.sub.phase.Subscribed? && PushedCount(s) - from <= s.maxHistory
    ensures var s := Run(Init(maxHistory, Some(from)), es); var sub := SnapshotReplayed(s).sub;
            && NoResync(sub.out) && Exactly(sub.out, s.recorded, from)
            && (from + |sub.out| >= PushedCount(s) || EndedWithTerminal(sub))
  {
    var s := Run(Init(maxHistory, Some(from)), es);
    RunKeeps(Init(maxHistory, Some(from)), es);
    ResumeStays(Init(maxHistory, Some(from)), es);
    SnapshotResyncsExactly(maxHistory, Some(from), es);
    SnapshotGives(s);
  }

  lemma UnbrokenSubscriber(sub: Subscriber, recorded: seq<Item>)
    requires Delivered(sub, recorded) && sub.resume.Some? && NoResync(sub.out)
    ensures Exactly(sub.out, recorded, sub.resume.value) && sub.last == sub.resume.value + |sub.out|
  {
    UnbrokenIsExact(sub.out, recorded, sub.resume);
    PreviousCounts(sub.out, |sub.out|, sub.resume);
  }

  lemma SnapshotReaches(s: State)
    requires Inv(s) && s.sub.phase.Subscribed? && Next(s, Snapshot).sub.out == []
    requires PushedCount(s) - |s.history| <= s.sub.last
    ensures var sub := SnapshotReplayed(s).sub;
            && NoResync(sub.out) && sub.resume == s.sub.resume
            && ((sub.phase == (if s.sub.sawFinished then Ended else Live) && sub.last >= PushedCount(s))
                || EndedWithTerminal(sub))
  {
    var t := Next(s, Snapshot);
    ReplayLoopIsSteps(t);
    ReplayedReaches(t.sub, s.recorded, PushedCount(s) - |s.history|);
    ReplayedSendsNoResync(t.sub);
  }

  lemma SnapshotGives(s: State)
    requires Inv(s) && s.sub.phase.Subscribed? && s.sub.resume.Some? && Next(s, Snapshot).sub.out == []
    requires PushedCount(s) - |s.history| <= s.sub.last
    ensures var t := SnapshotReplayed(s);
            && NoResync(t.sub.out) && Exactly(t.sub.out, t.recorded, s.sub.resume.value)
            && t.sub.last == s.sub.resume.value + |t.sub.out| && t.recorded == s.recorded
            && ((t.sub.phase == (if s.sub.sawFinished then Ended else Live) && t.sub.last >= PushedCount(s))
                || EndedWithTerminal(t.sub))
  {
    SnapshotReaches(s);
    StepKeeps(s, Snapshot);
    RunKeeps(Next(s, Snapshot), Replays(|s.history| + 1));
    ReplayLoopIsSteps(Next(s, Snapshot));
    UnbrokenSubscriber(SnapshotReplayed(s).sub, s.recorded);
  }

  function SendsIn(es: seq<Step>): nat {
    if es == [] then 0 else (if es[0].Send? then 1 else 0) + SendsIn(es[1..])
  }

  lemma {:induction false} RecordedGrows(s: State, es: seq<Step>)
    ensures |s.recorded| <= |Run(s, es).recorded|
    decreases |es|
  {
    if es == [] {
    } else {
      RecordedGrows(Next(s, es[0]), es[1..]);
    }
  }

  predicate InStream(phase: Phase) { !phase.Start? && !phase.Loaded? }

  /** One step neither overruns the ring nor finds the history trimmed too far. */
  lemma NearStep(s: State, e: Step, sends: nat)
    requires Inv(s) && s.sub.resume.Some? && InStream(s.sub.phase) && NoResync(s.sub.out)
    requires s.sent - s.sub.pos + sends + (if e.Send? then 1 else 0) <= CAPACITY
    requires |s.recorded| - s.maxHistory <= s.sub.resume.value
    ensures var t := Next(s, e);
            && t.sub.resume == s.sub.resume && t.maxHistory == s.maxHistory
            && InStream(t.sub.phase) && NoResync(t.sub.out) && t.sent - t.sub.pos + sends <= CAPACITY
  {
  }

  lemma {:induction false} NearRun(s: State, es: seq<Step>)
    requires Inv(s) && s.sub.resume.Some? && InStream(s.sub.phase) && NoResync(s.sub.out)
    requires s.sent - s.sub.pos + SendsIn(es) <= CAPACITY
    requires |Run(s, es).recorded| - s.maxHistory <= s.sub.resume.value
    ensures NoResync(Run(s, es).sub.out)
    decreases |es|
  {
    if es == [] {
    } else {
      RecordedGrows(s, es);
      NearStep(s, es[0], SendsIn(es[1..]));
      StepKeeps(s, es[0]);
      NearRun(Next(s, es[0]), es[1..]);
    }
  }

  /** A subscriber that keeps up is never told to resync: if at most CAPACITY items are sent from its subscription
      on, and it resumes at most `maxHistory` items behind the newest, it gets exactly the items after its id. */
  lemma NearSubscriberGetsEverything(maxHistory: nat, from: nat, es: seq<Step>, more: seq<Step>)
    requires Run(Init(maxHistory, Some(from)), es).sub.phase.Loaded? && SendsIn(more) <= CAPACITY
    requires var s := Run(Init(maxHistory, Some(from)), es);
             |Run(Next(s, Subscribe), more).recorded| - s.maxHistory <= from
    ensures var t := Run(Next(Run(Init(maxHistory, Some(from)), es), Subscribe), more);
            NoResync(t.sub.out) && Exactly(t.sub.out, t.recorded, from)
  {
    var s := Run(Init(maxHistory, Some(from)), es);
    RunKeeps(Init(maxHistory, Some(from)), es);
    ResumeStays(Init(maxHistory, Some(from)), es);
    var u := Next(s, Subscribe);
    StepKeeps(s, Subscribe);
    NearRun(u, more);
    RunKeeps(u, more);
    ResumeStays(u, more);
    UnbrokenSubscriber(Run(u, more).sub, Run(u, more).recorded);
  }

  // ---- A resync of the ring ----

  ghost predicate Lags(s: State) { s.sub.phase.Live? && s.sub.last < s.sent && s.sent - s.sub.pos > CAPACITY }

  ghost predicate Past(s: State, k: nat) {
    && RecorderInv(s) && (s.sub.phase.Ended? || (s.sub.phase.Live? && s.sub.pos >= k))
    && forall i | 0 <= i < |s.sub.out| && s.sub.out[i].Event? :: s.sub.out[i].item.num != k
  }

  lemma {:induction false} PastForGood(s: State, k: nat, es: seq<Step>)
    requires Past(s, k)
    ensures Past(Run(s, es), k) == Past(s, k)
    decreases |es|
  {
    if es == [] {
    } else {
      RecorderKeeps(s, es[0]);
      PastForGood(Next(s, es[0]), k, es[1..]);
    }
  }

  ghost predicate Gets(sub: Subscriber, k: nat) {
    exists i | 0 <= i < |sub.out| :: sub.out[i].Event? && sub.out[i].item.num == k
  }

  lemma {:induction false} CatchesUp(s: State)
    requires RecorderInv(s) && s.sub.phase.Live? && s.sub.pos <= s.sub.last < s.sent <= s.sub.pos + CAPACITY
    ensures exists n: nat :: Gets(Run(s, Receives(n)).sub, s.sub.last + 1)
    decreases s.sub.last - s.sub.pos
  {
    var t := Next(s, Receive);
    if s.sub.pos == s.sub.last {
      assert Receives(1)[1..] == [] && Run(s, Receives(1)) == Run(t, []);
      assert t.sub.out[|s.sub.out|].Event?;
      assert Gets(Run(s, Receives(1)).sub, s.sub.last + 1);
    } else {
      CatchesUp(t);
      var n: nat :| Gets(Run(t, Receives(n)).sub, s.sub.last + 1);
      assert Receives(n + 1)[1..] == Receives(n);
      assert Gets(Run(s, Receives(n + 1)).sub, s.sub.last + 1);
    }
  }

  /** A lagging subscriber is sent a resync. It has then lost the next item it needs, for good, if and only if
      that item has left the ring; otherwise a few more receives bring it, and the resync was not needed. */
  lemma LagResyncIsNeededExactly(maxHistory: nat, resume: Option<nat>, es: seq<Step>)
    requires Lags(Run(Init(maxHistory, resume), es))
    ensures var s := Run(Init(maxHistory, resume), es); var t := Next(s, Receive);
            && t.sub.out == s.sub.out + [Resync]
            && (s.sub.last < s.sent - CAPACITY <==> forall more :: !Gets(Run(t, more).sub, s.sub.last + 1))
  {
    var s := Run(Init(maxHistory, resume), es);
    RunKeeps(Init(maxHistory, resume), es);
    LagExact(s);
  }

  lemma LagExact(s: State)
    requires Inv(s) && Lags(s)
    ensures var t := Next(s, Receive);
            && t.sub.out == s.sub.out + [Resync]
            && (s.sub.last < s.sent - CAPACITY <==> forall more :: !Gets(Run(t, more).sub, s.sub.last + 1))
  {
    var t := Next(s, Receive);
    StepKeeps(s, Receive);
    if s.sub.last < s.sent - CAPACITY {
      forall i | 0 <= i < |t.sub.out| && t.sub.out[i].Event? ensures t.sub.out[i].item.num != s.sub.last + 1 {
        PreviousGrows(t.sub.out, i + 1, |t.sub.out|, t.sub.resume);
      }
      forall more ensures !Gets(Run(t, more).sub, s.sub.last + 1) { PastForGood(t, s.sub.last + 1, more); }
    } else {
      CatchesUp(t);
      var n: nat :| Gets(Run(t, Receives(n)).sub, s.sub.last + 1);
      assert !forall more :: !Gets(Run(t, more).sub, s.sub.last + 1);
    }
  }

  function RecordSteps(text: string): seq<Step> { [TakeSeq(false, text), PushHistory, SetFinished, Send] }

  /** `n` items that are not terminal, recorded without interruption. */
  function RecordMany(s: State, n: nat, text: string): State
    decreases n
  {
    if n == 0 then s else RecordMany(Run(s, RecordSteps(text)), n - 1, text)
  }

  ghost predicate NoTerminal(recorded: seq<Item>) { forall i | 0 <= i < |recorded| :: !recorded[i].terminal }

  lemma {:induction false} RecordManyAdds(s: State, n: nat, text: string)
    requires Inv(s) && s.rec.Idle? && NoTerminal(s.recorded)
    ensures var t := RecordMany(s, n, text);
            && Inv(t) == Inv(s) && t.rec.Idle? && NoTerminal(t.recorded) == NoTerminal(s.recorded) && |t.recorded| == |s.recorded| + n
            && t.sub == s.sub && t.maxHistory == s.maxHistory
    decreases n
  {
    if n == 0 {
    } else {
      RecordIsFourSteps(s, false, text);
      RunKeeps(s, RecordSteps(text));
      RecordManyAdds(Run(s, RecordSteps(text)), n - 1, text);
    }
  }

  /** A resync can be sent to a subscriber that has everything: more than CAPACITY items recorded between its
      subscription and its snapshot are all replayed from the history, and the first receive still finds the
      ring overrun. */
  lemma ResyncWithoutLoss(maxHistory: nat, n: nat, text: string)
    requires CAPACITY < n <= maxHistory
    ensures var s := RecordMany(Next(Next(Init(maxHistory, Some(0)), LoadFinished), Subscribe), n, text);
            var t := SnapshotReplayed(s);
            && |t.sub.out| == |t.recorded| == n && Exactly(t.sub.out, t.recorded, 0)
            && Next(t, Receive).sub.out == t.sub.out + [Resync]
  {
    var s0 := Next(Next(Init(maxHistory, Some(0)), LoadFinished), Subscribe);
    RecordManyAdds(s0, n, text);
    OverrunAfterReplay(RecordMany(s0, n, text));
  }

  lemma OverrunAfterReplay(s: State)
    requires Inv(s) && s.sub.phase.Subscribed? && s.sub.resume == Some(0) && s.sub.pos == 0 && !s.sub.sawFinished
    requires s.rec.Idle? && NoTerminal(s.recorded) && CAPACITY < |s.recorded| <= s.maxHistory
    ensures var t := SnapshotReplayed(s);
            && |t.sub.out| == |t.recorded| == |s.recorded| && Exactly(t.sub.out, t.recorded, 0)
            && Next(t, Receive).sub.out == t.sub.out + [Resync]
  {
    SnapshotGives(s);
    var t := SnapshotReplayed(s);
    ReplayLoopIsSteps(Next(s, Snapshot));
    PosStays(Next(s, Snapshot).sub);
    assert t.sub.pos == 0 && t.sent == |s.recorded|;
    assert !EndedWithTerminal(t.sub);
  }

  lemma {:induction false} PosStays(sub: Subscriber)
    ensures Replayed(sub).pos == sub.pos
    decreases if sub.phase.Replaying? then |sub.phase.rest| + 1 else 0
  {
    if sub.phase.Replaying? && sub.phase.rest != [] {
      PosStays(Emit(sub, sub.phase.rest[0], Replaying(sub.phase.rest[1..]), sub.pos));
    }
  }

  // ---- The flag ----

  ghost predicate FlagSet(s: State) {
    && (s.rec.Idle? || s.recorded != [])
    && (HasTerminal(s.recorded, if s.rec.Taken? || s.rec.Pushed? then |s.recorded| - 1 else |s.recorded|)
        <==> s.finished)
  }

  lemma HasTerminalSteps(recorded: seq<Item>, more: seq<Item>, n: nat)
    requires n <= |recorded|
    ensures HasTerminal(recorded + more, n) <==> HasTerminal(recorded, n)
    ensures n > 0 ==> (HasTerminal(recorded, n) <==> HasTerminal(recorded, n - 1) || recorded[n - 1].terminal)
  {
    if HasTerminal(recorded, n) {
      var i :| 0 <= i < n && i < |recorded| && recorded[i].terminal;
      assert (recorded + more)[i].terminal;
    }
  }

  lemma {:induction false} FlagSetRun(s: State, es: seq<Step>)
    requires FlagSet(s)
    ensures FlagSet(Run(s, es))
    decreases |es|
  {
    if es == [] {
    } else {
      var more := if es[0].TakeSeq? then [Item(|s.recorded| + 1, es[0].terminal, es[0].text)] else [];
      HasTerminalSteps(s.recorded, more, |s.recorded|);
      FlagSetRun(Next(s, es[0]), es[1..]);
    }
  }

  /** Between two records the flag says whether a terminal item was recorded. */
  lemma FinishedExactlyWithTerminal(maxHistory: nat, resume: Option<nat>, es: seq<Step>)
    requires Run(Init(maxHistory, resume), es).rec.Idle?
    ensures var s := Run(Init(maxHistory, resume), es);
            s.finished <==> exists i | 0 <= i < |s.recorded| :: s.recorded[i].terminal
  {
    FlagSetRun(Init(maxHistory, resume), es);
  }
}
