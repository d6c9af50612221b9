/**
 What the order of Close guarantees in every interleaving, what that depends on, and
 that it always comes to its end.
 */
module ShutdownGuarantees {
  import opened Wrappers
  import opened Shutdown

  /** Nobody has sent on the closed channel and nothing has reached the dispatcher after
      it stopped, unless a goroutine that is not waited for did; and by then every job
      that was sent has been processed, each as often as it was sent. */
  predicate Clean(c: Setup, s: State)
  {
    && (s.sentOnClosed ==> c.uncounted) && (s.dispatchedLate ==> c.direct)
    && (!s.dispatcherUp ==> s.queue == [] && s.processed == multiset(s.sent))
  }

  lemma {:induction false} InvIsClean(c: Setup, s: State)
    requires Inv(c, s) && Started(c)
    ensures Clean(c, s)
  {
    if !s.dispatcherUp {
      assert s.pool[0].Gone?;
      forall job: Job ensures multiset(s.sent)[job] == s.processed[job] {
        assert Balanced(s, job);
        SumOfNothing(s.pool, HeldBy(job));
      }
    }
  }

  /** So it is in every interleaving. */
  lemma CloseIsSafe(c: Setup, actions: seq<Action>)
    requires Started(c) && Run(c, actions).Some?
    ensures Clean(c, Run(c, actions).value)
  {
    RunKeeps(c, actions);
    InvIsClean(c, Run(c, actions).value);
  }

  /** One more step of an interleaving, if it is possible. */
  lemma Extend(c: Setup, actions: seq<Action>, s: State, a: Action) returns (longer: seq<Action>, s': State)
    ensures longer == actions + [a]
    ensures Run(c, actions) == Some(s) && Step(c, s, a).Some?
            ==> Run(c, longer) == Some(s') && Some(s') == Step(c, s, a)
  {
    longer, s' := actions + [a], if Step(c, s, a).Some? then Step(c, s, a).value else s;
    assert longer[..|longer| - 1] == actions;
  }

  // ----- Close always comes to its end -----------------------------------------------------

  function WorkerWeight(w: Worker): nat
  {
    match w
    case Busy => 1
    case Offering(_) => 4
    case Over => 0
  }

  function PoolWeight(r: RenderWorker): nat
  {
    match r
    case Free => 1
    case Rendering(_) => 2
    case Gone => 0
  }

  function SchedulerWeight(s: Scheduler): nat
  {
    if s.Ticking? then 2 else if s.Sleeping? then 1 else 0
  }

  /** What is still to be done: a send is followed by taking the job, a job taken by
      rendering it. */
  function ToDo(s: State): nat
  {
    7 - Rank(s.line) + Sum(s.workers, WorkerWeight) + 2 * |s.queue|
    + Sum(s.pool, PoolWeight) + SchedulerWeight(s.scheduler)
  }

  ghost predicate Progress(c: Setup, s: State, a: Action)
  {
    match Step(c, s, a)
    case None => false
    case Some(s') =>
      ToDo(s') < ToDo(s) && s'.sentOnClosed == s.sentOnClosed && s'.dispatchedLate == s.dispatchedLate
  }

  lemma AdvanceProgresses(c: Setup, s: State)
    requires CloseStep(s).Some?
    ensures Progress(c, s, Advance)
  {
    assert Rank(Next(s.line)) == Rank(s.line) + 1;
  }

  lemma DoneProgresses(c: Setup, s: State, r: nat)
    requires Step(c, s, Done(r)).Some?
    ensures Progress(c, s, Done(r))
  {
    SumAfter(s.pool, PoolWeight, r, Free);
  }

  lemma TakeProgresses(c: Setup, s: State, r: nat)
    requires Step(c, s, Take(r)).Some?
    ensures Progress(c, s, Take(r))
  {
    SumAfter(s.pool, PoolWeight, r, Rendering(s.queue[0]));
  }

  lemma LeaveProgresses(c: Setup, s: State, r: nat)
    requires Step(c, s, Leave(r)).Some?
    ensures Progress(c, s, Leave(r))
  {
    SumAfter(s.pool, PoolWeight, r, Gone);
  }

  /** A render worker that is still there gets on with its job, with the next one, or
      leaves. */
  lemma PoolProgresses(c: Setup, s: State, r: nat) returns (a: Action)
    requires r < |s.pool| && !s.pool[r].Gone? && (s.pool[r].Free? ==> s.queue != [] || s.channelClosed)
    ensures Progress(c, s, a)
  {
    if s.pool[r].Rendering? {
      a := Done(r);
      DoneProgresses(c, s, r);
    } else if s.queue != [] {
      a := Take(r);
      TakeProgresses(c, s, r);
    } else {
      a := Leave(r);
      LeaveProgresses(c, s, r);
    }
  }

  /** A webhook worker finishes, gets its job into the channel, or waits for a render
      worker that makes room. */
  lemma WorkerProgresses(c: Setup, s: State, w: nat) returns (a: Action)
    requires Started(c) && PoolFits(c, s) && !s.channelClosed
    requires w < |s.workers| && !s.workers[w].Over?
    ensures Progress(c, s, a)
  {
    if s.workers[w].Busy? {
      a := Finish(w);
      SumAfter(s.workers, WorkerWeight, w, Over);
    } else if |s.queue| < c.capacity {
      a := Send(w);
      SumAfter(s.workers, WorkerWeight, w, Busy);
    } else {
      assert !s.pool[0].Gone?;
      a := PoolProgresses(c, s, 0);
    }
  }

  /** Until Close is done, some step gets it nearer its end. */
  lemma SomeStepProgresses(c: Setup, s: State) returns (a: Action)
    requires Started(c) && Control(c, s) && !s.line.Closed?
    ensures Progress(c, s, a)
  {
    if CloseStep(s).Some? {
      a := Advance;
      AdvanceProgresses(c, s);
    } else if s.line.WaitWorkers? {
      var w :| 0 <= w < |s.workers| && !s.workers[w].Over?;
      a := WorkerProgresses(c, s, w);
    } else if s.line.WaitRenderPool? {
      var r :| 0 <= r < |s.pool| && !s.pool[r].Gone?;
      a := PoolProgresses(c, s, r);
    } else {
      assert s.line.WaitScheduler? && s.stopSignal;
      a := if s.scheduler.Ticking? then EndTick else ObeyStop;
    }
  }

  /** What a step of those who feed the shutdown costs: work offered, sent uncounted or
      found by a tick is work to be done, and telling somebody directly takes one step. */
  function Feeds(a: Action): nat
  {
    match a
    case Offer(_, _) => 4
    case UncountedSend(_) => 3
    case Tick => 2
    case Notify(_) => 1
    case Deliver(_) => 1
    case Summarise => 1
    case DirectDispatch => 1
    case _ => 0
  }

  /** Every step but those gets Close nearer its end. */
  lemma StepIsPaid(c: Setup, s: State, a: Action)
    requires Step(c, s, a).Some?
    ensures ToDo(Step(c, s, a).value) + 1 <= ToDo(s) + Feeds(a)
  {
    match a
    case Advance => AdvanceProgresses(c, s);
    case Offer(w, job) => SumAfter(s.workers, WorkerWeight, w, Offering(job));
    case Send(w) => SumAfter(s.workers, WorkerWeight, w, Busy);
    case Finish(w) => SumAfter(s.workers, WorkerWeight, w, Over);
    case Take(r) => TakeProgresses(c, s, r);
    case Done(r) => DoneProgresses(c, s, r);
    case Leave(r) => LeaveProgresses(c, s, r);
    case _ =>
  }

  /** A run is no longer than what there was to do and what it was fed: one that does not
      end is fed without end. */
  lemma {:induction false} RunsAreBounded(c: Setup, actions: seq<Action>)
    requires Run(c, actions).Some?
    ensures |actions| + ToDo(Run(c, actions).value) <= ToDo(Initial(c)) + Sum(actions, Feeds)
  {
    if actions != [] {
      var n := |actions| - 1;
      RunsAreBounded(c, actions[..n]);
      StepIsPaid(c, Run(c, actions[..n]).value, actions[n]);
    }
  }

  /** From every state that can be reached, whatever is blocked, Close can be brought to
      its end, and nothing goes wrong on the way: no interleaving runs into a deadlock. */
  lemma {:induction false} CloseCanEnd(c: Setup, actions: seq<Action>, s: State)
    returns (longer: seq<Action>, end: State)
    requires Started(c) && Run(c, actions) == Some(s)
    ensures actions <= longer && Run(c, longer) == Some(end) && end.line.Closed?
    ensures !end.dispatcherUp && end.queue == [] && end.processed == multiset(end.sent)
    ensures end.sentOnClosed == s.sentOnClosed && end.dispatchedLate == s.dispatchedLate
    decreases ToDo(s)
  {
    RunKeeps(c, actions);
    if s.line.Closed? {
      longer, end := actions, s;
      CloseIsSafe(c, actions);
    } else {
      var a := SomeStepProgresses(c, s);
      longer, end := Extend(c, actions, s, a);
      longer, end := CloseCanEnd(c, longer, end);
    }
  }

  // ----- and only so ----------------------------------------------------------------------

  /** All the webhook workers finish. */
  lemma {:induction false} WorkersFinish(c: Setup, n: nat) returns (actions: seq<Action>, s: State)
    requires n <= c.webhookWorkers
    ensures Run(c, actions) == Some(s) && s.line.Cancel? && !s.channelClosed && |s.workers| == c.webhookWorkers
    ensures forall w :: 0 <= w < c.webhookWorkers ==> s.workers[w] == if w < n then Over else Busy
    decreases n
  {
    if n == 0 {
      actions, s := [], Initial(c);
    } else {
      actions, s := WorkersFinish(c, n - 1);
      actions, s := Extend(c, actions, s, Finish(n - 1));
    }
  }

  /** In no interleaving does anybody send on the closed channel. */
  ghost predicate NeverSendsOnClosed(c: Setup)
  {
    forall actions :: Run(c, actions).Some? ==> !Run(c, actions).value.sentOnClosed
  }

  /** A sender that wg does not count can meet the closed channel, however Close is
      set up: the guarantee holds exactly when there is none. */
  lemma SafeIffAllCounted(c: Setup)
    requires Started(c)
    ensures NeverSendsOnClosed(c) <==> !c.uncounted
  {
    if c.uncounted {
      var actions, s := WorkersFinish(c, c.webhookWorkers);
      actions, s := Extend(c, actions, s, Advance);
      actions, s := Extend(c, actions, s, Advance);
      actions, s := Extend(c, actions, s, Advance);
      actions, s := Extend(c, actions, s, UncountedSend(0));
      assert Run(c, actions).value.sentOnClosed;
    } else {
      forall actions | Run(c, actions).Some? ensures !Run(c, actions).value.sentOnClosed {
        CloseIsSafe(c, actions);
      }
    }
  }

  /** In no interleaving does anything reach the dispatcher after it stopped. */
  ghost predicate NeverDispatchesLate(c: Setup)
  {
    forall actions :: Run(c, actions).Some? ==> !Run(c, actions).value.dispatchedLate
  }

  /** A goroutine that dispatches by itself, and that nothing waits for, can do so after
      Close is done: the guarantee holds exactly when there is none, whatever else is
      counted. */
  lemma NoLateDispatchIff(c: Setup)
    requires Started(c)
    ensures NeverDispatchesLate(c) <==> !c.direct
  {
    if c.direct {
      var actions, s := CloseCanEnd(c, [], Initial(c));
      actions, s := Extend(c, actions, s, DirectDispatch);
      assert Run(c, actions).value.dispatchedLate;
    } else {
      forall actions | Run(c, actions).Some? ensures !Run(c, actions).value.dispatchedLate {
        CloseIsSafe(c, actions);
      }
    }
  }
}
