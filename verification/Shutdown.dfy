/**
 The shutdown of processor/cmd/processor/main.go (ProcessorService.Close), after the
 HTTP handlers have returned: the closing goroutine next to the webhook workers
 counted in wg, the render workers and the summary scheduler, in every interleaving.
 A send on a closed channel and a dispatch after the dispatcher stopped are steps of
 the model too; the theorems say when they are never taken.
 */
module Shutdown {
  import opened Wrappers

  /** What is running when Close is called.  Two kinds of goroutine are not waited for:
      `uncounted` says whether one may still send on the render channel, `direct` whether
      one may still hand messages to the dispatcher itself. */
  datatype Setup = Setup(
    webhookWorkers: nat, renderWorkers: nat, capacity: nat, scheduler: bool, uncounted: bool, direct: bool)

  /** Start-up raises the pool and the channel to at least one. */
  predicate Started(c: Setup)
  {
    c.renderWorkers > 0 && c.capacity > 0
  }

  /** The lines of Close, in order; each is the step the closing goroutine is at. */
  datatype Line =
    | Cancel
    | WaitWorkers
    | CloseRenderChannel
    | WaitRenderPool
    | StopScheduler
    | WaitScheduler
    | StopDispatcher
    | Closed

  type Job = nat

  /** A webhook worker: at work, blocked in a send on the render channel, or past
      wg.Done. */
  datatype Worker = Busy | Offering(job: Job) | Over

  datatype RenderWorker = Free | Rendering(job: Job) | Gone

  datatype Scheduler = Sleeping | Ticking | Ended

  datatype State = State(
    line: Line,
    workers: seq<Worker>,
    queue: seq<Job>,               // renderCh
    channelClosed: bool,
    pool: seq<RenderWorker>,
    scheduler: Scheduler,
    stopSignal: bool,
    dispatcherUp: bool,
    sent: seq<Job>,
    processed: multiset<Job>,
    sentOnClosed: bool,
    dispatchedLate: bool)

  function Initial(c: Setup): State
  {
    State(Cancel, seq(c.webhookWorkers, _ => Busy), [], false, seq(c.renderWorkers, _ => Free),
          if c.scheduler then Sleeping else Ended, false, true, [], multiset{}, false, false)
  }

  datatype Action =
    | Advance                      // the closing goroutine takes its next line
    | Offer(worker: nat, job: Job)
    | Send(worker: nat)
    | Notify(worker: nat)          // a denied or limited user is told without rendering
    | Finish(worker: nat)
    | UncountedSend(job: Job)
    | DirectDispatch
    | Take(r: nat)
    | Deliver(r: nat)              // a rendered message goes to the dispatcher
    | Done(r: nat)
    | Leave(r: nat)
    | Tick
    | Summarise                    // a tick hands a summary to the dispatcher
    | EndTick
    | ObeyStop

  predicate AllGone(pool: seq<RenderWorker>)
  {
    forall r :: 0 <= r < |pool| ==> pool[r].Gone?
  }

  predicate AllOver(workers: seq<Worker>)
  {
    forall w :: 0 <= w < |workers| ==> workers[w].Over?
  }

  /** The waits are passed only when what they wait for is done. */
  predicate MayPass(s: State)
  {
    match s.line
    case WaitWorkers => AllOver(s.workers)
    case WaitRenderPool => AllGone(s.pool)
    case WaitScheduler => s.scheduler.Ended?
    case Closed => false
    case _ => true
  }

  function Next(l: Line): Line
  {
    match l
    case Cancel => WaitWorkers
    case WaitWorkers => CloseRenderChannel
    case CloseRenderChannel => WaitRenderPool
    case WaitRenderPool => StopScheduler
    case StopScheduler => WaitScheduler
    case WaitScheduler => StopDispatcher
    case StopDispatcher => Closed
    case Closed => Closed
  }

  /** One line of Close. */
  function CloseStep(s: State): Option<State>
  {
    if !MayPass(s) then None
    else
      Some(s.(line := Next(s.line),
              channelClosed := s.channelClosed || s.line.CloseRenderChannel?,
              stopSignal := s.stopSignal || s.line.StopScheduler?,
              dispatcherUp := s.dispatcherUp && !s.line.StopDispatcher?))
  }

  /** ps.renderCh <- job */
  function SendJob(c: Setup, s: State, job: Job): Option<State>
  {
    if s.channelClosed then Some(s.(sentOnClosed := true))
    else if |s.queue| < c.capacity then Some(s.(queue := s.queue + [job], sent := s.sent + [job]))
    else None
  }

  function Dispatch(s: State): State
  {
    if s.dispatcherUp then s else s.(dispatchedLate := true)
  }

  function Step(c: Setup, s: State, a: Action): Option<State>
  {
    match a
    case Advance => CloseStep(s)
    case Offer(w, job) =>
      if w < |s.workers| && s.workers[w].Busy? then Some(s.(workers := s.workers[w := Offering(job)])) else None
    case Send(w) =>
      if w < |s.workers| && s.workers[w].Offering? then
        match SendJob(c, s, s.workers[w].job)
        case None => None
        case Some(s') => Some(s'.(workers := s.workers[w := Busy]))
      else None
    case Notify(w) => if w < |s.workers| && s.workers[w].Busy? then Some(Dispatch(s)) else None
    case Finish(w) =>
      if w < |s.workers| && s.workers[w].Busy? then Some(s.(workers := s.workers[w := Over])) else None
    case UncountedSend(job) => if c.uncounted then SendJob(c, s, job) else None
    case DirectDispatch => if c.direct then Some(Dispatch(s)) else None
    case Take(r) =>
      if r < |s.pool| && s.pool[r].Free? && s.queue != [] then
        Some(s.(pool := s.pool[r := Rendering(s.queue[0])], queue := s.queue[1..]))
      else None
    case Deliver(r) => if r < |s.pool| && s.pool[r].Rendering? then Some(Dispatch(s)) else None
    case Done(r) =>
      if r < |s.pool| && s.pool[r].Rendering? then
        Some(s.(pool := s.pool[r := Free], processed := s.processed + multiset{s.pool[r].job}))
      else None
    case Leave(r) =>
      if r < |s.pool| && s.pool[r].Free? && s.channelClosed && s.queue == [] then
        Some(s.(pool := s.pool[r := Gone]))
      else None
    case Tick => if s.scheduler.Sleeping? then Some(s.(scheduler := Ticking)) else None
    case Summarise => if s.scheduler.Ticking? then Some(Dispatch(s)) else None
    case EndTick => if s.scheduler.Ticking? then Some(s.(scheduler := Sleeping)) else None
    case ObeyStop => if s.scheduler.Sleeping? && s.stopSignal then Some(s.(scheduler := Ended)) else None
  }

  function Run(c: Setup, actions: seq<Action>): Option<State>
  {
    if actions == [] then Some(Initial(c))
    else
      match Run(c, actions[..|actions| - 1])
      case None => None
      case Some(s) => Step(c, s, actions[|actions| - 1])
  }

  // ----- the invariant ---------------------------------------------------------------

  function Sum<T>(xs: seq<T>, weight: T -> nat): nat
  {
    if xs == [] then 0 else Sum(xs[..|xs| - 1], weight) + weight(xs[|xs| - 1])
  }

  lemma {:induction false} SumAfter<T>(xs: seq<T>, weight: T -> nat, i: nat, x: T)
    requires i < |xs|
    ensures Sum(xs[i := x], weight) + weight(xs[i]) == Sum(xs, weight) + weight(x)
  {
    var n := |xs| - 1;
    if i < n {
      SumAfter(xs[..n], weight, i, x);
      assert xs[i := x][..n] == xs[..n][i := x];
    } else {
      assert xs[i := x][..n] == xs[..n];
    }
  }

  lemma {:induction false} SumOfNothing<T>(xs: seq<T>, weight: T -> nat)
    requires forall i :: 0 <= i < |xs| ==> weight(xs[i]) == 0
    ensures Sum(xs, weight) == 0
  {
    if xs != [] {
      SumOfNothing(xs[..|xs| - 1], weight);
    }
  }

  function HeldBy(job: Job): RenderWorker -> nat
  {
    r => if r == Rendering(job) then 1 else 0
  }

  /** How often a job is in the hands of the render workers. */
  function Held(pool: seq<RenderWorker>, job: Job): nat
  {
    Sum(pool, HeldBy(job))
  }

  function Rank(l: Line): nat
  {
    match l
    case Cancel => 0
    case WaitWorkers => 1
    case CloseRenderChannel => 2
    case WaitRenderPool => 3
    case StopScheduler => 4
    case WaitScheduler => 5
    case StopDispatcher => 6
    case Closed => 7
  }

  /** Which parts are down, line by line: a part goes down only after everything that
      feeds it. */
  predicate Ordered(s: State)
  {
    && (Rank(s.line) >= 2 ==> AllOver(s.workers))
    && (s.channelClosed <==> Rank(s.line) >= 3)
    && (Rank(s.line) >= 4 ==> AllGone(s.pool))
    && (s.stopSignal <==> Rank(s.line) >= 5)
    && (Rank(s.line) >= 6 ==> s.scheduler.Ended?)
    && (s.dispatcherUp <==> Rank(s.line) < 7)
  }

  /** Render workers leave only an empty closed channel. */
  predicate PoolFits(c: Setup, s: State)
  {
    && |s.pool| == c.renderWorkers
    && forall r :: 0 <= r < |s.pool| && s.pool[r].Gone? ==> s.channelClosed && s.queue == []
  }

  /** Each sending of a job is still queued, in somebody's hands, or processed. */
  predicate Balanced(s: State, job: Job)
  {
    multiset(s.sent)[job] == multiset(s.queue)[job] + Held(s.pool, job) + s.processed[job]
  }

  ghost predicate Inv(c: Setup, s: State)
  {
    Control(c, s) && forall job: Job :: Balanced(s, job)
  }

  /** The part of the invariant that does not count jobs. */
  predicate Control(c: Setup, s: State)
  {
    && Ordered(s) && PoolFits(c, s)
    && (s.sentOnClosed ==> c.uncounted) && (s.dispatchedLate ==> c.direct)
  }

  lemma CloseKeepsControl(c: Setup, s: State)
    requires Control(c, s) && CloseStep(s).Some?
    ensures Control(c, CloseStep(s).value)
  {
    assert Rank(Next(s.line)) == Rank(s.line) + 1;
  }

  lemma SendersKeepControl(c: Setup, s: State, a: Action)
    requires Control(c, s) && (a.Offer? || a.Send? || a.Notify? || a.Finish?) && Step(c, s, a).Some?
    ensures Control(c, Step(c, s, a).value)
  {
    assert !s.workers[a.worker].Over?;
    assert !AllOver(s.workers) && !s.channelClosed;
  }

  lemma OthersKeepControl(c: Setup, s: State, a: Action)
    requires Control(c, s) && (a.UncountedSend? || a.DirectDispatch?) && Step(c, s, a).Some?
    ensures Control(c, Step(c, s, a).value)
  {
  }

  lemma PoolKeepsControl(c: Setup, s: State, a: Action)
    requires Control(c, s) && (a.Take? || a.Deliver? || a.Done? || a.Leave?) && Step(c, s, a).Some?
    ensures Control(c, Step(c, s, a).value)
  {
    assert !s.pool[a.r].Gone? && !AllGone(s.pool);
  }

  lemma SchedulerKeepsControl(c: Setup, s: State, a: Action)
    requires Control(c, s) && (a.Tick? || a.Summarise? || a.EndTick? || a.ObeyStop?) && Step(c, s, a).Some?
    ensures Control(c, Step(c, s, a).value)
  {
  }

  lemma StepKeepsControl(c: Setup, s: State, a: Action)
    requires Control(c, s) && Step(c, s, a).Some?
    ensures Control(c, Step(c, s, a).value)
  {
    if a.Advance? {
      CloseKeepsControl(c, s);
    } else if a.Offer? || a.Send? || a.Notify? || a.Finish? {
      SendersKeepControl(c, s, a);
    } else if a.UncountedSend? || a.DirectDispatch? {
      OthersKeepControl(c, s, a);
    } else if a.Take? || a.Deliver? || a.Done? || a.Leave? {
      PoolKeepsControl(c, s, a);
    } else {
      SchedulerKeepsControl(c, s, a);
    }
  }

  lemma SendsBalance(c: Setup, s: State, sent: Job, job: Job)
    requires Balanced(s, job) && SendJob(c, s, sent).Some?
    ensures Balanced(SendJob(c, s, sent).value, job)
  {
  }

  lemma TakeBalances(c: Setup, s: State, r: nat, job: Job)
    requires Balanced(s, job) && Step(c, s, Take(r)).Some?
    ensures Balanced(Step(c, s, Take(r)).value, job)
  {
    SumAfter(s.pool, HeldBy(job), r, Rendering(s.queue[0]));
    assert s.queue == [s.queue[0]] + s.queue[1..];
  }

  lemma DoneBalances(c: Setup, s: State, r: nat, job: Job)
    requires Balanced(s, job) && Step(c, s, Done(r)).Some?
    ensures Balanced(Step(c, s, Done(r)).value, job)
  {
    SumAfter(s.pool, HeldBy(job), r, Free);
  }

  lemma LeaveBalances(c: Setup, s: State, r: nat, job: Job)
    requires Balanced(s, job) && Step(c, s, Leave(r)).Some?
    ensures Balanced(Step(c, s, Leave(r)).value, job)
  {
    SumAfter(s.pool, HeldBy(job), r, Gone);
  }

  predicate MovesJob(a: Action)
  {
    a.Send? || a.UncountedSend? || a.Take? || a.Done? || a.Leave?
  }

  predicate SameJobs(s: State, s': State)
  {
    s'.sent == s.sent && s'.queue == s.queue && s'.pool == s.pool && s'.processed == s.processed
  }

  lemma OtherStepsMoveNoJob(c: Setup, s: State, a: Action)
    ensures !MovesJob(a) && Step(c, s, a).Some? ==> SameJobs(s, Step(c, s, a).value)
  {
    if a.Deliver? || a.Summarise? || a.Notify? || a.DirectDispatch? {
      assert SameJobs(s, Dispatch(s));
    }
  }

  lemma StepBalances(c: Setup, s: State, a: Action, job: Job)
    requires Balanced(s, job) && Step(c, s, a).Some?
    ensures Balanced(Step(c, s, a).value, job)
  {
    if a.Send? {
      SendsBalance(c, s, s.workers[a.worker].job, job);
    } else if a.UncountedSend? {
      SendsBalance(c, s, a.job, job);
    } else if a.Take? {
      TakeBalances(c, s, a.r, job);
    } else if a.Done? {
      DoneBalances(c, s, a.r, job);
    } else if a.Leave? {
      LeaveBalances(c, s, a.r, job);
    } else {
      OtherStepsMoveNoJob(c, s, a);
    }
  }

  lemma {:induction false} RunKeeps(c: Setup, actions: seq<Action>)
    requires Run(c, actions).Some?
    ensures Inv(c, Run(c, actions).value)
  {
    if actions == [] {
      forall job: Job ensures Balanced(Initial(c), job) {
        SumOfNothing(Initial(c).pool, HeldBy(job));
      }
    } else {
      var before, a := Run(c, actions[..|actions| - 1]).value, actions[|actions| - 1];
      RunKeeps(c, actions[..|actions| - 1]);
      StepKeepsControl(c, before, a);
      forall job: Job ensures Balanced(Step(c, before, a).value, job) {
        StepBalances(c, before, a, job);
      }
    }
  }
}
