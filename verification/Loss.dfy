/** What a push out of order costs: from any state it leaves a frame that one quiet continuation loses for good.
    Together with the safety of in-order runs this makes the order of pushes the exact condition. */
module Loss {
  import opened Link

  /** The frame is in no place from which it could still reach the receiver. */
  ghost predicate Gone(s: State, f: Frame) {
    && f in s.stored && f !in s.processed && f !in s.evicted && f !in s.buffer && f !in s.wire && f !in s.late
    && (f in s.inHand ==> s.inHand[f] < s.conn || !s.up)
  }

  lemma GoneStep(s: State, f: Frame, e: Event)
    requires Base(s) && Gone(s, f)
    ensures Gone(Next(s, e), f)
  {
    match e
    case Connect => if !s.up && s.dir.HubToDevice? { TakeKeeps(s, s.lastIn); }
    case AckRecv =>
      if s.up && s.acks != [] {
        assert s.acks[0] in s.acks;
        TakeKeeps(s, s.acks[0]);
      }
    case _ =>
  }

  lemma {:induction false} GoneForever(s: State, f: Frame, es: seq<Event>)
    requires Base(s) && Gone(s, f)
    ensures Gone(Run(s, es), f) == Gone(s, f)
    decreases |es|
  {
    if es == [] {
    } else {
      BaseStep(s, es[0]);
      GoneStep(s, f, es[0]);
      GoneForever(Next(s, es[0]), f, es[1..]);
    }
  }

  lemma RunThen(s: State, a: seq<Event>, e: Event)
    ensures Run(s, a + [e]) == Next(Run(s, a), e)
  {
    RunConcat(s, a, [e]);
    var t := Run(s, a);
    assert Run(t, [e]) == Run(Next(t, e), [e][1..]);
  }

  /** The sender trusts a watermark above `f`, and then the link is cut. */
  lemma TrustAndCut(s: State, a: nat, f: Frame)
    requires Base(s) && s.up && s.wire == [] && a in s.acks
    requires f in s.stored && f < a && f !in s.processed && f !in s.evicted && f !in s.late
    ensures Gone(Run(s, AckRecvs(|s.acks|) + [Disconnect]), f)
  {
    DrainAcks(s);
    BaseRun(s, AckRecvs(|s.acks|));
    RunThen(s, AckRecvs(|s.acks|), Disconnect);
  }

  /** The receiver has drained the wire, so its watermark is on the way back once it acknowledges; the sender trusts
      it, and the link is cut. */
  lemma AcknowledgeAndCut(t: State, f: Frame)
    requires Base(t) && t.up && t.wire == [] && f < t.lastIn
    requires f in t.stored && f !in t.processed && f !in t.evicted && f !in t.late
    ensures exists es :: NoPush(es) && Gone(Run(t, es), f)
  {
    var a := t.lastIn;
    var u := Next(t, AckSend(a));
    BaseStep(t, AckSend(a));
    assert u.acks[|t.acks|] == a;
    TrustAndCut(u, a, f);
    var es := [AckSend(a)] + (AckRecvs(|u.acks|) + [Disconnect]);
    assert es[1..] == AckRecvs(|u.acks|) + [Disconnect];
    assert NoPush(es) && Gone(Run(t, es), f);
  }

  /** A frame below one on the wire, and not on it, is gone once the wire is drained and acknowledged and the link
      is cut. */
  lemma QuietLoss(s: State, q: Frame, f: Frame)
    requires Base(s) && s.up && q in s.wire && f < q
    requires f in s.stored && f !in s.processed && f !in s.evicted && f !in s.late && f !in s.wire
    ensures exists es :: NoPush(es) && Gone(Run(s, es), f)
  {
    var es1 := Delivers(|s.wire|);
    DrainWire(s);
    BaseRun(s, es1);
    AcknowledgeAndCut(Run(s, es1), f);
    var es2 :| NoPush(es2) && Gone(Run(Run(s, es1), es2), f);
    RunConcat(s, es1, es2);
    assert NoPush(es1 + es2);
  }

  /** `es` loses `f` for good, pushing nothing. */
  ghost predicate LostBy(s: State, es: seq<Event>, f: Frame) {
    NoPush(es) && forall more :: Gone(Run(Run(s, es), more), f)
  }

  /** From any state at all, a push out of order leaves a frame that one quiet continuation loses:
      the receiver drains the wire, acknowledges, and the link is cut. */
  lemma OutOfOrderPushLoses(s: State, q: Frame)
    requires Base(s) && Live(s, q) && !InOrder(s, q)
    ensures exists f, es | f in s.buffer && f < q :: LostBy(Next(s, Push(q)), es, f)
  {
    var f :| f in s.buffer && f < q && f !in s.entered;
    var s1 := Next(s, Push(q));
    BaseStep(s, Push(q));
    assert s1.wire[|s.wire|] == q;
    QuietLoss(s1, q, f);
    var es :| NoPush(es) && Gone(Run(s1, es), f);
    BaseRun(s1, es);
    forall more ensures Gone(Run(Run(s1, es), more), f) { GoneForever(Run(s1, es), f, more); }
    assert LostBy(s1, es, f);
  }

  /** In a state reached by in-order pushes, the next push is harmless exactly when it is in order too:
      if it is, no in-order continuation loses anything; if it is not, some in-order continuation does. */
  lemma PushIsSafeExactlyWhenInOrder(dir: Direction, es: seq<Event>, q: Frame)
    requires InOrderRun(Init(dir), es) && Live(Run(Init(dir), es), q)
    ensures var s := Run(Init(dir), es);
            InOrder(s, q) <==>
              forall more | InOrderRun(Next(s, Push(q)), more) :: NothingLost(Run(Next(s, Push(q)), more))
  {
    var s := Run(Init(dir), es);
    OrderedRun(Init(dir), es);
    BaseStep(s, Push(q));
    if InOrder(s, q) {
      OrderedStep(s, Push(q));
      forall more | InOrderRun(Next(s, Push(q)), more)
        ensures NothingLost(Run(Next(s, Push(q)), more))
      {
        OrderedRun(Next(s, Push(q)), more);
      }
    } else {
      OutOfOrderPushLoses(s, q);
      var f, more :| f in s.buffer && f < q && LostBy(Next(s, Push(q)), more, f);
      NoPushIsInOrder(Next(s, Push(q)), more);
      assert Gone(Run(Run(Next(s, Push(q)), more), []), f);
      assert !NothingLost(Run(Next(s, Push(q)), more));
    }
  }

  lemma FirstConnection()
    ensures var s := Next(Init(DeviceToHub), Connect);
            && Base(s) && s.up && s.conn == 1 && s.nextSeq == 1 && s.buffer == [] && s.entered == {}
            && s.dir == DeviceToHub
  {
    BaseConnect(Init(DeviceToHub));
  }

  /** The lock is released between stamping and pushing, so two threads on one connection can overtake
      each other: the second frame is pushed first, and the first one is lost. */
  lemma OvertakingThreadsLoseAFrame(s: State)
    requires s == Next(Init(DeviceToHub), Connect)
    ensures exists es :: LostBy(Next(Next(Next(s, Stamp(1)), Stamp(1)), Push(2)), es, 1)
  {
    FirstConnection();
    var s2 := Next(s, Stamp(1));
    var s3 := Next(s2, Stamp(1));
    BaseStamp(s, 1);
    BaseStamp(s2, 1);
    assert 1 in s3.buffer;
    OutOfOrderPushLoses(s3, 2);
    var f, es :| f in s3.buffer && f < 2 && LostBy(Next(s3, Push(2)), es, f);
    assert f == 1;
  }

  /** A second connection, with nothing sent yet. */
  lemma SecondConnection()
    ensures var s := Next(Next(Next(Init(DeviceToHub), Connect), Disconnect), Connect);
            && Base(s) && s.up && s.conn == 2 && s.nextSeq == 1 && s.buffer == [] && s.entered == {}
            && s.dir == DeviceToHub
  {
    BaseConnect(Init(DeviceToHub));
    BaseConnect(Next(Next(Init(DeviceToHub), Connect), Disconnect));
  }

  /** A handle that outlived its connection stores a frame it can no longer transmit; the next frame
      sent on the new connection buries it. */
  lemma StaleHandleLosesAFrame()
    ensures var s := Next(Next(Next(Init(DeviceToHub), Connect), Disconnect), Connect);
            exists es :: LostBy(Next(Next(Next(s, Stamp(1)), Stamp(2)), Push(2)), es, 1)
  {
    SecondConnection();
    var s1 := Next(Next(Next(Init(DeviceToHub), Connect), Disconnect), Connect);
    var s2 := Next(s1, Stamp(1));
    var s3 := Next(s2, Stamp(2));
    BaseStamp(s1, 1);
    BaseStamp(s2, 2);
    assert 1 in s3.buffer;
    OutOfOrderPushLoses(s3, 2);
    var f, es :| f in s3.buffer && f < 2 && LostBy(Next(s3, Push(2)), es, f);
    assert f == 1;
  }
}
