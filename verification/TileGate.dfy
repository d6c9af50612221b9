/**
 The tile gate of processor/cmd/processor/render.go under dispatchWeatherChange
 (processor/cmd/processor/weather.go): one dispatcher, one goroutine per gate and a
 pool of render workers around one shared enrichment map, step by step, in every
 order the scheduler may choose.
 */
module TileGate {
  import opened Wrappers

  type Tile = string

  /** What the dispatcher finds out about one matched user: whether WeatherTranslate
      returns a tile of the user's own, and whether the alert is suppressed. */
  datatype User = User(ownTile: bool, suppressed: bool)

  /** One call: the users, whether there is a shared base tile, and how many workers run. */
  datatype Call = Call(users: seq<User>, sharedTile: bool, workers: nat)

  datatype GateId = Base | Own(user: nat)

  /** A gate from its spawn on: waiting for the tile, writing the map it belongs to,
      or closed with what it resolved to. */
  datatype Gate = Waiting | Writing | Closed(tile: Option<Tile>)

  datatype Job = Job(user: nat, gate: Option<GateId>)

  datatype Phase =
    | AtUser(i: nat)
    | Translating(i: nat)     // WeatherTranslate is reading the shared map
    | Sending(k: nat)

  datatype Worker = Idle | Holding(job: Job) | Rendering(job: Job)   // Rendering reads the shared map

  datatype Rendered = Rendered(job: Job, tile: Option<Tile>)

  datatype State = State(
    phase: Phase,
    jobs: seq<Job>,
    gates: map<GateId, Gate>,
    receivers: seq<GateId>,       // every goroutine that receives from a pending tile
    queue: seq<Job>,
    workers: seq<Worker>,
    mapTile: Option<Tile>,        // staticMap in the shared map
    rendered: seq<Rendered>)

  function Initial(c: Call): State
  {
    State(AtUser(0), [], map[], [], [], seq(c.workers, _ => Idle), None, [])
  }

  datatype Action =
    | BeginTranslate
    | EndTranslate
    | SpawnBase
    | Send
    | BeginWrite(gate: GateId)
    | EndWrite(gate: GateId, tile: Tile)
    | CloseEmpty(gate: GateId)    // inline mode without image bytes: nothing is applied
    | Take(worker: nat)
    | BeginRender(worker: nat)
    | EndRender(worker: nat)

  /** newTileGate: one goroutine, which alone receives from the pending tile. */
  function Spawn(s: State, g: GateId): State
  {
    s.(gates := s.gates[g := Waiting], receivers := s.receivers + [g])
  }

  /** A job without a tile of its own waits for the shared one, if there is one. */
  function Gated(c: Call, job: Job): Job
  {
    if job.gate.None? && c.sharedTile then job.(gate := Some(Base)) else job
  }

  predicate IsOpen(s: State, gate: Option<GateId>)
  {
    gate.None? || (gate.value in s.gates && s.gates[gate.value].Closed?)
  }

  /** One step, if it is possible. */
  function Step(c: Call, s: State, a: Action): Option<State>
  {
    match a
    case BeginTranslate =>
      if s.phase.AtUser? && s.phase.i < |c.users| then Some(s.(phase := Translating(s.phase.i))) else None
    case EndTranslate =>
      if !s.phase.Translating? || s.phase.i >= |c.users| then None
      else
        var i := s.phase.i;
        var next := s.(phase := AtUser(i + 1));
        if c.users[i].suppressed then Some(next)
        else if c.users[i].ownTile then Some(Spawn(next.(jobs := s.jobs + [Job(i, Some(Own(i)))]), Own(i)))
        else Some(next.(jobs := s.jobs + [Job(i, None)]))
    case SpawnBase =>
      if s.phase != AtUser(|c.users|) then None
      else if c.sharedTile then Some(Spawn(s.(phase := Sending(0)), Base))
      else Some(s.(phase := Sending(0)))
    case Send =>
      if !s.phase.Sending? || s.phase.k >= |s.jobs| then None
      else
        Some(s.(phase := Sending(s.phase.k + 1), queue := s.queue + [Gated(c, s.jobs[s.phase.k])]))
    case BeginWrite(g) =>
      if g in s.gates && s.gates[g].Waiting? then Some(s.(gates := s.gates[g := Writing])) else None
    case EndWrite(g, tile) =>
      if !(g in s.gates && s.gates[g].Writing?) then None
      else
        Some(s.(gates := s.gates[g := Closed(Some(tile))], mapTile := if g.Base? then Some(tile) else s.mapTile))
    case CloseEmpty(g) =>
      if g in s.gates && s.gates[g].Waiting? then Some(s.(gates := s.gates[g := Closed(None)])) else None
    case Take(w) =>
      if w < |s.workers| && s.workers[w].Idle? && s.queue != [] then
        Some(s.(workers := s.workers[w := Holding(s.queue[0])], queue := s.queue[1..]))
      else None
    case BeginRender(w) =>
      if w < |s.workers| && s.workers[w].Holding? && IsOpen(s, s.workers[w].job.gate) then
        Some(s.(workers := s.workers[w := Rendering(s.workers[w].job)]))
      else None
    case EndRender(w) =>
      if w < |s.workers| && s.workers[w].Rendering? then
        Some(s.(workers := s.workers[w := Idle],
                rendered := s.rendered + [Rendered(s.workers[w].job, s.mapTile)]))
      else None
  }

  /** The state after a whole interleaving, if every step of it was possible. */
  function Run(c: Call, actions: seq<Action>): Option<State>
  {
    if actions == [] then Some(Initial(c))
    else
      match Run(c, actions[..|actions| - 1])
      case None => None
      case Some(s) => Step(c, s, actions[|actions| - 1])
  }

  // ----- what every interleaving keeps --------------------------------------------------

  ghost predicate ReadsMap(s: State)
  {
    s.phase.Translating? || exists w :: 0 <= w < |s.workers| && s.workers[w].Rendering?
  }

  predicate WritesMap(s: State)
  {
    Base in s.gates && s.gates[Base].Writing?
  }

  ghost predicate JobFits(c: Call, job: Job)
  {
    && job.user < |c.users| && !c.users[job.user].suppressed
    && (c.users[job.user].ownTile <==> job.gate == Some(Own(job.user)))
    && (job.gate.None? || job.gate == Some(Base) || job.gate == Some(Own(job.user)))
  }

  /** A job that has been sent: it waits for the base gate if there is one. */
  ghost predicate SentFits(c: Call, job: Job)
  {
    JobFits(c, job) && (!c.users[job.user].ownTile ==> job.gate == if c.sharedTile then Some(Base) else None)
  }

  function Reached(s: State): nat
  {
    match s.phase
    case AtUser(i) => i
    case Translating(i) => i
    case Sending(_) => 0
  }

  /** The gates there are, by phase: a user's own once the user is dealt with, the
      base gate only after every user is. */
  ghost predicate GatesFit(c: Call, s: State)
  {
    && (Base in s.gates <==> s.phase.Sending? && c.sharedTile)
    && (forall i: nat :: Own(i) in s.gates <==>
          i < |c.users| && (s.phase.Sending? || i < Reached(s)) && c.users[i].ownTile && !c.users[i].suppressed)
    && ReceiversFit(s)
  }

  ghost predicate JobsFit(c: Call, s: State)
  {
    && (forall i :: 0 <= i < |s.jobs| ==> JobFits(c, s.jobs[i]) && s.jobs[i].gate != Some(Base))
    && (forall i :: 0 <= i < |s.queue| ==> SentFits(c, s.queue[i]))
    && (forall w :: 0 <= w < |s.workers| && !s.workers[w].Idle? ==> SentFits(c, s.workers[w].job))
    && (forall w :: 0 <= w < |s.workers| && s.workers[w].Rendering? ==> IsOpen(s, s.workers[w].job.gate))
    && (!s.phase.Sending? ==> s.queue == [] && forall w :: 0 <= w < |s.workers| ==> s.workers[w].Idle?)
  }

  ghost predicate TilesFit(s: State)
  {
    && (s.mapTile == if Base in s.gates && s.gates[Base].Closed? then s.gates[Base].tile else None)
    && (forall i :: 0 <= i < |s.rendered| && s.rendered[i].job.gate == Some(Base) ==>
          Base in s.gates && s.gates[Base] == Closed(s.rendered[i].tile))
  }

  ghost predicate Inv(c: Call, s: State)
  {
    && (s.phase.AtUser? ==> s.phase.i <= |c.users|) && (s.phase.Translating? ==> s.phase.i < |c.users|)
    && GatesFit(c, s) && JobsFit(c, s) && TilesFit(s)
  }

  /** Every gate has its one receiver. */
  ghost predicate ReceiversFit(s: State)
  {
    && (forall g :: g in s.gates <==> g in s.receivers)
    && (forall i, j :: 0 <= i < j < |s.receivers| ==> s.receivers[i] != s.receivers[j])
  }

  lemma SpawnReceives(s: State, g: GateId)
    requires ReceiversFit(s) && g !in s.gates
    ensures ReceiversFit(Spawn(s, g))
  {
    var s' := Spawn(s, g);
    assert s'.receivers[|s.receivers|] == g;
    forall h | h in s.receivers ensures h in s'.receivers {
      var i :| 0 <= i < |s.receivers| && s.receivers[i] == h;
      assert s'.receivers[i] == h;
    }
  }

  lemma StepKeepsGates(c: Call, s: State, a: Action)
    requires Inv(c, s) && Step(c, s, a).Some?
    ensures GatesFit(c, Step(c, s, a).value)
  {
    if a.EndTranslate? {
      TranslateKeepsGates(c, s);
    } else if a.SpawnBase? {
      BaseKeepsGates(c, s);
    }
  }

  lemma TranslateKeepsGates(c: Call, s: State)
    requires Inv(c, s) && Step(c, s, EndTranslate).Some?
    ensures GatesFit(c, Step(c, s, EndTranslate).value)
  {
    assert ReceiversFit(s);
    SpawnReceives(s, Own(s.phase.i));
  }

  lemma BaseKeepsGates(c: Call, s: State)
    requires Inv(c, s) && Step(c, s, SpawnBase).Some?
    ensures GatesFit(c, Step(c, s, SpawnBase).value)
  {
    assert ReceiversFit(s);
    SpawnReceives(s, Base);
  }

  lemma StepKeepsJobs(c: Call, s: State, a: Action)
    requires Inv(c, s) && Step(c, s, a).Some?
    ensures JobsFit(c, Step(c, s, a).value)
  {
    if a.Take? {
      TakeKeepsJobs(c, s, a.worker);
    } else if a.BeginRender? || a.EndRender? {
      RenderKeepsJobs(c, s, a);
    } else if a.BeginWrite? || a.EndWrite? || a.CloseEmpty? {
      GateKeepsJobs(c, s, a);
    } else {
      DispatcherKeepsJobs(c, s, a);
    }
  }

  lemma TakeKeepsJobs(c: Call, s: State, w: nat)
    requires JobsFit(c, s) && Step(c, s, Take(w)).Some?
    ensures JobsFit(c, Step(c, s, Take(w)).value)
  {
    assert SentFits(c, s.queue[0]);
  }

  lemma RenderKeepsJobs(c: Call, s: State, a: Action)
    requires JobsFit(c, s) && Step(c, s, a).Some? && (a.BeginRender? || a.EndRender?)
    ensures JobsFit(c, Step(c, s, a).value)
  {
    assert SentFits(c, s.workers[a.worker].job);
  }

  lemma GateKeepsJobs(c: Call, s: State, a: Action)
    requires Inv(c, s) && Step(c, s, a).Some? && (a.BeginWrite? || a.EndWrite? || a.CloseEmpty?)
    ensures JobsFit(c, Step(c, s, a).value)
  {
    var s' := Step(c, s, a).value;
    forall w | 0 <= w < |s'.workers| && s'.workers[w].Rendering? ensures IsOpen(s', s'.workers[w].job.gate) {
      assert IsOpen(s, s.workers[w].job.gate);
    }
  }

  lemma DispatcherKeepsJobs(c: Call, s: State, a: Action)
    requires Inv(c, s) && Step(c, s, a).Some? && (a.BeginTranslate? || a.EndTranslate? || a.SpawnBase? || a.Send?)
    ensures JobsFit(c, Step(c, s, a).value)
  {
    if a.Send? {
      SendKeepsJobs(c, s);
    }
  }

  lemma SendKeepsJobs(c: Call, s: State)
    requires Inv(c, s) && Step(c, s, Send).Some?
    ensures JobsFit(c, Step(c, s, Send).value)
  {
    assert SentFits(c, Gated(c, s.jobs[s.phase.k]));
  }

  lemma StepKeepsTiles(c: Call, s: State, a: Action)
    requires Inv(c, s) && Step(c, s, a).Some?
    ensures TilesFit(Step(c, s, a).value)
  {
  }

  lemma {:induction false} RunKeeps(c: Call, actions: seq<Action>)
    requires Run(c, actions).Some?
    ensures Inv(c, Run(c, actions).value)
  {
    if actions != [] {
      var before, a := actions[..|actions| - 1], actions[|actions| - 1];
      RunKeeps(c, before);
      var s := Run(c, before).value;
      StepKeepsGates(c, s, a);
      StepKeepsJobs(c, s, a);
      StepKeepsTiles(c, s, a);
    }
  }

  /** A user whose alert goes out with a tile of its own. */
  predicate Mixed(users: seq<User>)
  {
    exists i :: 0 <= i < |users| && users[i].ownTile && !users[i].suppressed
  }

  /** No read of the shared map overlaps its write, in any interleaving, when a shared
      base tile and users' own tiles do not go out together. */
  lemma NoReadOverlapsWrite(c: Call, actions: seq<Action>)
    requires !(c.sharedTile && Mixed(c.users)) && Run(c, actions).Some?
    ensures var s := Run(c, actions).value; !(ReadsMap(s) && WritesMap(s))
  {
    RunKeeps(c, actions);
  }

  /** Every job on the shared gate renders the one tile that gate resolved to. */
  lemma OneTileForAll(c: Call, actions: seq<Action>, i: nat, j: nat)
    requires Run(c, actions).Some?
    requires var r := Run(c, actions).value.rendered;
             i < |r| && j < |r| && r[i].job.gate == r[j].job.gate == Some(Base)
    ensures var s := Run(c, actions).value;
            s.rendered[i].tile == s.rendered[j].tile &&
            Base in s.gates && s.gates[Base] == Closed(s.rendered[i].tile)
  {
    RunKeeps(c, actions);
  }

  /** No pending tile ever has two receivers; once the dispatcher is sending, the base
      tile has exactly one, and so has the tile of every user whose alert goes out.
      The tile of a suppressed user has none. */
  lemma OneReceiver(c: Call, actions: seq<Action>)
    requires Run(c, actions).Some?
    ensures var s := Run(c, actions).value;
            && (forall i, j :: 0 <= i < j < |s.receivers| ==> s.receivers[i] != s.receivers[j])
            && (s.phase.Sending? ==>
                  && (Base in s.receivers <==> c.sharedTile)
                  && forall i: nat :: i < |c.users| ==>
                       (Own(i) in s.receivers <==> c.users[i].ownTile && !c.users[i].suppressed))
  {
    RunKeeps(c, actions);
  }

  /** One more step of an interleaving. */
  lemma Extend(c: Call, actions: seq<Action>, s: State, a: Action) returns (longer: seq<Action>, s': State)
    requires Run(c, actions) == Some(s) && Step(c, s, a).Some?
    ensures longer == actions + [a] && Run(c, longer) == Some(s') && Some(s') == Step(c, s, a)
  {
    longer, s' := actions + [a], Step(c, s, a).value;
    assert longer[..|longer| - 1] == actions;
  }

  // ----- and only so ------------------------------------------------------------------------

  /** The jobs the dispatcher builds, user by user. */
  function JobsOf(users: seq<User>): seq<Job>
  {
    if users == [] then []
    else
      var i := |users| - 1;
      JobsOf(users[..i]) +
      if users[i].suppressed then [] else [Job(i, if users[i].ownTile then Some(Own(i)) else None)]
  }

  lemma {:induction false} JobOfUser(users: seq<User>, i: nat) returns (k: nat)
    requires i < |users| && users[i].ownTile && !users[i].suppressed
    ensures k < |JobsOf(users)| && JobsOf(users)[k] == Job(i, Some(Own(i)))
  {
    if i < |users| - 1 {
      k := JobOfUser(users[..|users| - 1], i);
    } else {
      k := |JobsOf(users)| - 1;
    }
  }

  lemma {:induction false} FewJobs(users: seq<User>)
    ensures |JobsOf(users)| <= |users|
  {
    if users != [] {
      FewJobs(users[..|users| - 1]);
    }
  }

  /** The users up to i are dealt with, and nothing else has happened. */
  lemma {:induction false} Built(c: Call, i: nat) returns (actions: seq<Action>, s: State)
    requires i <= |c.users|
    ensures Run(c, actions) == Some(s) && s.phase == AtUser(i) && s.queue == []
    ensures s.jobs == JobsOf(c.users[..i]) && s.workers == Initial(c).workers
    ensures forall g :: g in s.gates ==> s.gates[g].Waiting?
  {
    if i == 0 {
      actions, s := [], Initial(c);
    } else {
      actions, s := Built(c, i - 1);
      assert c.users[..i][..i - 1] == c.users[..i - 1];
      actions, s := Extend(c, actions, s, BeginTranslate);
      actions, s := Extend(c, actions, s, EndTranslate);
    }
  }

  /** The first k jobs are sent, and each has its worker. */
  lemma {:induction false} Handed(c: Call, k: nat) returns (actions: seq<Action>, s: State)
    requires c.sharedTile && k <= |JobsOf(c.users)| && k <= c.workers
    ensures Run(c, actions) == Some(s) && s.phase == Sending(k) && s.jobs == JobsOf(c.users)
    ensures s.queue == [] && |s.workers| == c.workers
    ensures forall w :: k <= w < c.workers ==> s.workers[w].Idle?
    ensures forall w :: 0 <= w < k ==> s.workers[w] == Holding(Gated(c, s.jobs[w]))
    ensures forall g :: g in s.gates ==> s.gates[g].Waiting?
  {
    if k == 0 {
      actions, s := Built(c, |c.users|);
      assert c.users[..|c.users|] == c.users;
      actions, s := Extend(c, actions, s, SpawnBase);
    } else {
      actions, s := Handed(c, k - 1);
      actions, s := Extend(c, actions, s, Send);
      actions, s := Extend(c, actions, s, Take(k - 1));
    }
  }

  /** A worker holds a job with an open gate of its own while the base gate waits. */
  lemma OneReadsOneWrites(c: Call, actions: seq<Action>, s: State, k: nat, g: GateId)
    returns (longer: seq<Action>, s': State)
    requires Run(c, actions) == Some(s) && k < |s.workers| && s.workers[k].Holding?
    requires s.workers[k].job.gate == Some(g) && g != Base
    requires g in s.gates && s.gates[g].Closed? && Base in s.gates && s.gates[Base].Waiting?
    ensures Run(c, longer) == Some(s') && ReadsMap(s') && WritesMap(s')
  {
    longer, s' := Extend(c, actions, s, BeginRender(k));
    longer, s' := Extend(c, longer, s', BeginWrite(Base));
    assert s'.workers[k].Rendering?;
  }

  lemma {:induction false} JobHasItsUser(users: seq<User>, k: nat)
    requires k < |JobsOf(users)|
    ensures var job := JobsOf(users)[k];
            && job.user < |users| && !users[job.user].suppressed
            && job.gate == if users[job.user].ownTile then Some(Own(job.user)) else None
  {
    if k < |JobsOf(users[..|users| - 1])| {
      JobHasItsUser(users[..|users| - 1], k);
    }
  }

  /** One of the jobs that the workers take first has a tile of its own, next to a shared
      one. */
  ghost predicate OwnAmongFirst(c: Call)
  {
    c.sharedTile && exists k :: 0 <= k < |JobsOf(c.users)| && k < c.workers && JobsOf(c.users)[k].gate.Some?
  }

  /** Then some worker reads the map while the base gate writes it. */
  lemma TogetherTheyRace(c: Call) returns (actions: seq<Action>, s: State)
    requires OwnAmongFirst(c)
    ensures Run(c, actions) == Some(s) && ReadsMap(s) && WritesMap(s)
  {
    var k: nat :| k < |JobsOf(c.users)| && k < c.workers && JobsOf(c.users)[k].gate.Some?;
    JobHasItsUser(c.users, k);
    var i := JobsOf(c.users)[k].user;
    actions, s := Handed(c, k + 1);
    RunKeeps(c, actions);
    assert s.workers[k] == Holding(Job(i, Some(Own(i)))) && Own(i) in s.gates && Base in s.gates;
    actions, s := OpenOwn(c, actions, s, k, i);
    actions, s := OneReadsOneWrites(c, actions, s, k, Own(i));
  }

  /** The own tile of a held job comes first. */
  lemma OpenOwn(c: Call, actions: seq<Action>, s: State, k: nat, i: nat) returns (longer: seq<Action>, s': State)
    requires Run(c, actions) == Some(s) && k < |s.workers| && s.workers[k] == Holding(Job(i, Some(Own(i))))
    requires Own(i) in s.gates && Base in s.gates && s.gates[Own(i)].Waiting? && s.gates[Base].Waiting?
    ensures Run(c, longer) == Some(s') && s'.workers == s.workers
    ensures Own(i) in s'.gates && s'.gates[Own(i)].Closed? && Base in s'.gates && s'.gates[Base].Waiting?
  {
    longer, s' := Extend(c, actions, s, BeginWrite(Own(i)));
    longer, s' := Extend(c, longer, s', EndWrite(Own(i), ""));
  }

  function Busy(workers: seq<Worker>): nat
  {
    if workers == [] then 0
    else Busy(workers[..|workers| - 1]) + if workers[|workers| - 1].Idle? then 0 else 1
  }

  lemma {:induction false} BusyAfter(workers: seq<Worker>, w: nat, now: Worker)
    requires w < |workers| && workers[w].Idle? && !now.Idle?
    ensures Busy(workers[w := now]) == Busy(workers) + 1 && Busy(workers) < |workers|
  {
    var n := |workers| - 1;
    if w < n {
      BusyAfter(workers[..n], w, now);
      assert workers[w := now][..n] == workers[..n][w := now];
    } else {
      assert workers[w := now][..n] == workers[..n];
      BusyAtMost(workers[..n]);
    }
  }

  lemma {:induction false} BusyAtMost(workers: seq<Worker>)
    ensures Busy(workers) <= |workers|
    ensures (forall w :: 0 <= w < |workers| ==> workers[w].Idle?) ==> Busy(workers) == 0
  {
    if workers != [] {
      BusyAtMost(workers[..|workers| - 1]);
    }
  }

  /** The queue holds the last of the jobs that were sent. */
  ghost predicate QueueFits(c: Call, sent: seq<Job>, queue: seq<Job>)
  {
    && |queue| <= |sent|
    && forall i :: 0 <= i < |queue| ==> queue[i] == Gated(c, sent[|sent| - |queue| + i])
  }

  /** The jobs are sent in the order of the users and taken in the order they were sent. */
  ghost predicate InOrder(c: Call, s: State)
  {
    && |s.workers| == c.workers
    && match s.phase
       case AtUser(i) => i <= |c.users| && s.jobs == JobsOf(c.users[..i])
       case Translating(i) => i <= |c.users| && s.jobs == JobsOf(c.users[..i])
       case Sending(k) =>
         s.jobs == JobsOf(c.users) && k <= |s.jobs| && QueueFits(c, s.jobs[..k], s.queue)
  }

  lemma StepKeepsOrder(c: Call, s: State, a: Action)
    requires Inv(c, s) && InOrder(c, s) && Step(c, s, a).Some?
    ensures InOrder(c, Step(c, s, a).value)
  {
    if a.EndTranslate? {
      TranslateKeepsOrder(c, s);
    } else if a.SpawnBase? {
      assert c.users[..|c.users|] == c.users;
    } else if a.Send? || a.Take? {
      QueueKeepsOrder(c, s, a);
    }
  }

  lemma TranslateKeepsOrder(c: Call, s: State)
    requires Inv(c, s) && InOrder(c, s) && Step(c, s, EndTranslate).Some?
    ensures InOrder(c, Step(c, s, EndTranslate).value)
  {
    assert c.users[..s.phase.i + 1][..s.phase.i] == c.users[..s.phase.i];
  }

  lemma SendFits(c: Call, sent: seq<Job>, queue: seq<Job>, job: Job)
    requires QueueFits(c, sent, queue)
    ensures QueueFits(c, sent + [job], queue + [Gated(c, job)])
  {
  }

  lemma QueueKeepsOrder(c: Call, s: State, a: Action)
    requires InOrder(c, s) && (a.Send? || a.Take?) && Step(c, s, a).Some?
    ensures InOrder(c, Step(c, s, a).value)
  {
    if a.Send? {
      SendFits(c, s.jobs[..s.phase.k], s.queue, s.jobs[s.phase.k]);
      assert s.jobs[..s.phase.k + 1] == s.jobs[..s.phase.k] + [s.jobs[s.phase.k]];
    }
  }

  /** Until the base gate closes, whoever has taken a job waits for that gate. */
  ghost predicate AllWait(s: State)
  {
    s.phase.Sending? && !IsOpen(s, Some(Base)) ==>
      && Busy(s.workers) == s.phase.k - |s.queue|
      && forall w :: 0 <= w < |s.workers| && !s.workers[w].Idle? ==>
           s.workers[w].Holding? && s.workers[w].job.gate == Some(Base)
  }

  lemma TakeKeepsWaiting(c: Call, s: State, w: nat)
    requires c.sharedTile && !OwnAmongFirst(c)
    requires InOrder(c, s) && AllWait(s) && s.phase.Sending? && Step(c, s, Take(w)).Some?
    ensures AllWait(Step(c, s, Take(w)).value)
  {
    if !IsOpen(s, Some(Base)) {
      assert s.queue[0] == Gated(c, JobsOf(c.users)[Busy(s.workers)]);
      BusyAfter(s.workers, w, Holding(s.queue[0]));
    }
  }

  lemma SpawnKeepsWaiting(c: Call, s: State)
    requires Inv(c, s) && Step(c, s, SpawnBase).Some?
    ensures AllWait(Step(c, s, SpawnBase).value)
  {
    BusyAtMost(s.workers);
  }

  lemma StepKeepsWaiting(c: Call, s: State, a: Action)
    requires c.sharedTile && !OwnAmongFirst(c)
    requires Inv(c, s) && InOrder(c, s) && AllWait(s) && Step(c, s, a).Some?
    ensures AllWait(Step(c, s, a).value)
  {
    if a.Take? {
      assert s.phase.Sending?;
      TakeKeepsWaiting(c, s, a.worker);
    } else if a.SpawnBase? {
      SpawnKeepsWaiting(c, s);
    }
  }

  lemma {:induction false} RunWaits(c: Call, actions: seq<Action>)
    requires c.sharedTile && !OwnAmongFirst(c) && Run(c, actions).Some?
    ensures InOrder(c, Run(c, actions).value) && AllWait(Run(c, actions).value)
  {
    if actions != [] {
      var before, a := actions[..|actions| - 1], actions[|actions| - 1];
      RunWaits(c, before);
      RunKeeps(c, before);
      StepKeepsOrder(c, Run(c, before).value, a);
      StepKeepsWaiting(c, Run(c, before).value, a);
    }
  }

  ghost predicate Safe(c: Call)
  {
    forall actions :: Run(c, actions).Some? ==>
      !(ReadsMap(Run(c, actions).value) && WritesMap(Run(c, actions).value))
  }

  /** The guarantee holds for a call exactly when no alert with a tile of its own is
      among the first that the workers take, next to a shared base tile. */
  lemma SafeIff(c: Call)
    ensures Safe(c) <==> !OwnAmongFirst(c)
  {
    if OwnAmongFirst(c) {
      var actions, s := TogetherTheyRace(c);
      assert !Safe(c);
    } else {
      forall actions | Run(c, actions).Some?
        ensures !(ReadsMap(Run(c, actions).value) && WritesMap(Run(c, actions).value))
      {
        RunKeeps(c, actions);
        if c.sharedTile {
          RunWaits(c, actions);
        }
      }
    }
  }

  /** For a pool of any size, it holds exactly when no alert that goes out has a tile of
      its own next to a shared base tile. */
  lemma SafeIffApart(users: seq<User>, sharedTile: bool)
    ensures (forall workers: nat :: Safe(Call(users, sharedTile, workers))) <==> !(sharedTile && Mixed(users))
  {
    if sharedTile && Mixed(users) {
      var i :| 0 <= i < |users| && users[i].ownTile && !users[i].suppressed;
      var k := JobOfUser(users, i);
      FewJobs(users);
      SafeIff(Call(users, sharedTile, |users|));
    } else {
      forall workers: nat ensures Safe(Call(users, sharedTile, workers)) {
        forall k | 0 <= k < |JobsOf(users)| && JobsOf(users)[k].gate.Some? ensures !sharedTile {
          JobHasItsUser(users, k);
        }
        SafeIff(Call(users, sharedTile, workers));
      }
    }
  }
}
