/**
 Raid and egg alerts on one gym and end time, processor/cmd/processor/raid.go: who is
 told again when the RSVPs change, who gets the full template and who the compact
 rsvpChanges one, and what that amounts to over every run of webhooks, deliveries and
 tracker expiries.
 */
module RaidLifecycle {
  import opened Wrappers
  import opened Recipients

  datatype MsgType = Egg | Raid

  // ----- the RSVP filter ---------------------------------------------------------------

  predicate AnyFuture(timeslots: seq<int>, nowMs: nat)
  {
    exists i :: 0 <= i < |timeslots| && timeslots[i] > nowMs
  }

  method HasFutureRsvp(timeslots: seq<int>, nowMs: nat) returns (found: bool)
    ensures found <==> AnyFuture(timeslots, nowMs)
  {
    for i := 0 to |timeslots|
      invariant forall j :: 0 <= j < i ==> timeslots[j] <= nowMs
    {
      if timeslots[i] > nowMs {
        return true;
      }
    }
    return false;
  }

  /** Preference 0 hears of a raid once, preference 2 only of RSVPs to come, the others
      every time. */
  function WantsIt(first: bool, hasRsvps: bool): User -> bool
  {
    (u: User) => (u.rsvpChanges == 0 ==> first) && (u.rsvpChanges == 2 ==> hasRsvps)
  }

  /** filtered := matched[:0], with the two cases that skip a user. */
  method FilterRsvp(matched: array<User>, n: nat, first: bool, hasRsvps: bool) returns (kept: nat)
    requires n <= matched.Length
    modifies matched
    ensures kept <= n && matched[..kept] == Kept(old(matched[..n]), WantsIt(first, hasRsvps))
  {
    kept := 0;
    ghost var was := matched[..n];
    var i := 0;
    while i < n
      invariant kept <= i <= n
      invariant matched[..kept] == Kept(was[..i], WantsIt(first, hasRsvps))
      invariant forall j :: i <= j < n ==> matched[j] == was[j]
    {
      assert was[..i + 1][..i] == was[..i];
      var m := matched[i];
      i := i + 1;
      if m.rsvpChanges == 0 {
        if !first {
          continue;
        }
      } else if m.rsvpChanges == 2 {
        if !hasRsvps {
          continue;
        }
      }
      matched[kept] := m;
      kept := kept + 1;
    }
    assert was[..n] == was;
  }

  /** ceil(ms / 1000) */
  function CeilSec(ms: nat): nat
  {
    (ms + 999) / 1000
  }

  /** The least whole second by which every future timeslot has come, and 0 exactly when
      there is none. */
  predicate IsLatest(latest: nat, timeslots: seq<int>, nowMs: nat)
  {
    && (latest > 0 <==> AnyFuture(timeslots, nowMs))
    && (forall i :: 0 <= i < |timeslots| && timeslots[i] > nowMs ==> timeslots[i] <= latest * 1000)
    && (latest > 0 ==>
          exists i :: 0 <= i < |timeslots| && timeslots[i] > nowMs && timeslots[i] > (latest - 1) * 1000)
  }

  method LatestFutureTimeslotSec(timeslots: seq<int>, nowMs: nat) returns (latest: nat)
    ensures IsLatest(latest, timeslots, nowMs)
  {
    latest := 0;
    for i := 0 to |timeslots|
      invariant forall j :: 0 <= j < i && timeslots[j] > nowMs ==> timeslots[j] <= latest * 1000
      invariant latest > 0 ==> exists j :: 0 <= j < i && timeslots[j] > nowMs && timeslots[j] > (latest - 1) * 1000
    {
      if timeslots[i] <= nowMs {
        continue;
      }
      var sec := CeilSec(timeslots[i]);
      if sec > latest {
        latest := sec;
      }
    }
  }

  // ----- the partition --------------------------------------------------------------------

  predicate IsEdit(clean: nat)
  {
    clean / 2 % 2 == 1
  }

  function PlatformFromType(kind: string): string
  {
    if kind == "webhook" then "discord" else UpToColon(kind)
  }

  function UpToColon(s: string): string
  {
    if s == "" || s[0] == ':' then "" else [s[0]] + UpToColon(s[1..])
  }

  /** Which rsvpChanges templates exist, by platform and literal id; None while no
      renderer is wired. */
  type Templates = Option<(string, string) -> bool>

  /** What the tracker last recorded for a user under this gym and end: the alert type,
      which is "" in entries older than the field. */
  type Tracker = map<string, Option<MsgType>>

  datatype Wiring = Wiring(templates: Templates, defaultTemplateId: string, dispatcher: bool)

  function EffectiveTemplate(u: User, w: Wiring): string
  {
    if u.template == "" then w.defaultTemplateId else u.template
  }

  /** Who gets the compact template. */
  predicate GetsCompact(u: User, t: MsgType, tracker: Tracker, w: Wiring)
  {
    && !IsEdit(u.clean)
    && w.dispatcher && u.id in tracker && tracker[u.id] == Some(t)
    && w.templates.Some?
    && w.templates.value(PlatformFromType(u.kind), EffectiveTemplate(u, w))
  }

  function Compacts(t: MsgType, tracker: Tracker, w: Wiring): User -> bool
  {
    (u: User) => GetsCompact(u, t, tracker, w)
  }

  function Fulls(t: MsgType, tracker: Tracker, w: Wiring): User -> bool
  {
    (u: User) => !GetsCompact(u, t, tracker, w)
  }

  method PartitionRaidUsers(matched: seq<User>, t: MsgType, tracker: Tracker, w: Wiring)
    returns (full: seq<User>, rsvp: seq<User>)
    ensures full == Kept(matched, Fulls(t, tracker, w))
    ensures rsvp == Kept(matched, Compacts(t, tracker, w))
  {
    full, rsvp := [], [];
    for i := 0 to |matched|
      invariant full == Kept(matched[..i], Fulls(t, tracker, w))
      invariant rsvp == Kept(matched[..i], Compacts(t, tracker, w))
    {
      assert matched[..i + 1][..i] == matched[..i];
      var u := matched[i];
      if IsEdit(u.clean) {
        full := full + [u];
        continue;
      }
      if w.templates.None? {
        full := full + [u];
        continue;
      }
      var prior := if w.dispatcher && u.id in tracker then Some(tracker[u.id]) else None;
      if prior.None? || prior.value != Some(t) {
        full := full + [u];
        continue;
      }
      var effectiveId := u.template;
      if effectiveId == "" {
        effectiveId := w.defaultTemplateId;
      }
      if w.templates.value(PlatformFromType(u.kind), effectiveId) {
        rsvp := rsvp + [u];
      } else {
        full := full + [u];
      }
    }
    assert matched[..|matched|] == matched;
  }

  /** `part` can be read off `whole` from left to right. */
  ghost predicate InOrder(part: seq<User>, whole: seq<User>)
  {
    exists at: seq<nat> :: PlacedAt(part, whole, at)
  }

  ghost predicate PlacedAt(part: seq<User>, whole: seq<User>, at: seq<nat>)
  {
    && |at| == |part|
    && (forall i :: 0 <= i < |at| ==> at[i] < |whole| && part[i] == whole[at[i]])
    && (forall i, j :: 0 <= i < j < |at| ==> at[i] < at[j])
  }

  lemma PlacedLonger(part: seq<User>, whole: seq<User>, at: seq<nat>, last: User)
    requires PlacedAt(part, whole, at)
    ensures PlacedAt(part, whole + [last], at)
    ensures PlacedAt(part + [last], whole + [last], at + [|whole|])
  {
  }

  lemma {:induction false} KeptInOrder(users: seq<User>, keep: User -> bool) returns (at: seq<nat>)
    ensures PlacedAt(Kept(users, keep), users, at)
  {
    at := [];
    if users != [] {
      var n := |users| - 1;
      at := KeptInOrder(users[..n], keep);
      PlacedLonger(Kept(users[..n], keep), users[..n], at, users[n]);
      assert users == users[..n] + [users[n]];
      if keep(users[n]) {
        at := at + [n];
      } else {
        assert Kept(users, keep) == Kept(users[..n], keep);
      }
    }
  }

  /** The partition is stable and loses nobody. */
  lemma PartitionConserves(matched: seq<User>, t: MsgType, tracker: Tracker, w: Wiring)
    ensures var full, rsvp := Kept(matched, Fulls(t, tracker, w)), Kept(matched, Compacts(t, tracker, w));
            && multiset(full) + multiset(rsvp) == multiset(matched)
            && InOrder(full, matched) && InOrder(rsvp, matched)
            && (forall u :: u in rsvp ==> GetsCompact(u, t, tracker, w))
            && (forall u :: u in full ==> !GetsCompact(u, t, tracker, w))
  {
    SplitConserves(matched, Compacts(t, tracker, w), Fulls(t, tracker, w));
    var _ := KeptInOrder(matched, Fulls(t, tracker, w));
    var _ := KeptInOrder(matched, Compacts(t, tracker, w));
    OnlyTheKept(matched, Fulls(t, tracker, w));
    OnlyTheKept(matched, Compacts(t, tracker, w));
  }

  lemma {:induction false} OnlyTheKept(users: seq<User>, keep: User -> bool)
    ensures forall u :: u in Kept(users, keep) ==> keep(u) && u in users
  {
    if users != [] {
      OnlyTheKept(users[..|users| - 1], keep);
    }
  }

  // ----- one webhook ---------------------------------------------------------------------

  datatype Webhook = Webhook(
    msgType: MsgType,
    matched: seq<User>,
    first: bool,                   // the duplicate cache has not seen this raid yet
    timeslots: seq<int>,
    nowMs: nat,
    blocked: Option<(string, string) -> bool>,
    validator: Option<User -> Decision>,
    mutes: Option<(string, int) -> bool>,
    wiring: Wiring)

  /** A render job, as far as the lifecycle goes.  cleanAt 0 leaves the default. */
  datatype Job = Job(compact: bool, alertType: MsgType, users: seq<User>, cleanAt: nat)

  function Hearing(h: Webhook): seq<User>
  {
    var wanting := Kept(Kept(h.matched, NotBlocked(h.blocked)), WantsIt(h.first, AnyFuture(h.timeslots, h.nowMs)));
    Kept(Kept(wanting, Permitted(h.validator)), NotMuted(h.mutes))
  }

  /** The filters in front of the partition. */
  method Hear(h: Webhook, matched: array<User>) returns (n: nat)
    requires matched[..] == h.matched
    modifies matched
    ensures n <= matched.Length && matched[..n] == Hearing(h)
  {
    assert matched[..matched.Length] == h.matched;
    n := FilterBlocked(matched, matched.Length, h.blocked);
    var hasRsvps := HasFutureRsvp(h.timeslots, h.nowMs);
    n := FilterRsvp(matched, n, h.first, hasRsvps);
    var valid, _ := FilterValidation(matched, n, h.validator);
    n := FilterMuted(matched, valid, h.mutes);
  }

  /** The jobs for these users: one for each template that anybody gets. */
  function JobsFor(users: seq<User>, t: MsgType, tracker: Tracker, w: Wiring, cleanAt: nat): seq<Job>
  {
    var full, rsvp := Kept(users, Fulls(t, tracker, w)), Kept(users, Compacts(t, tracker, w));
    (if full == [] then [] else [Job(false, t, full, 0)]) +
    (if rsvp == [] then [] else [Job(true, t, rsvp, cleanAt)])
  }

  method ProcessRaid(h: Webhook, matched: array<User>, tracker: Tracker) returns (jobs: seq<Job>, cleanAt: nat)
    requires matched[..] == h.matched
    modifies matched
    ensures jobs == JobsFor(Hearing(h), h.msgType, tracker, h.wiring, cleanAt)
    ensures IsLatest(cleanAt, h.timeslots, h.nowMs)
  {
    jobs := [];
    var n := Hear(h, matched);
    cleanAt := LatestFutureTimeslotSec(h.timeslots, h.nowMs);
    if n == 0 {
      return;
    }
    var full, rsvp := PartitionRaidUsers(matched[..n], h.msgType, tracker, h.wiring);
    if |full| > 0 {
      jobs := jobs + [Job(false, h.msgType, full, 0)];
    }
    if |rsvp| > 0 {
      var job := Job(true, h.msgType, rsvp, 0);
      if cleanAt > 0 {
        job := job.(cleanAt := cleanAt);
      }
      jobs := jobs + [job];
    }
  }

  // ----- every run ------------------------------------------------------------------------

  /** One message for one user. */
  datatype Alert = Alert(user: string, msgType: MsgType, compact: bool)

  datatype Event = Queued(alert: Alert) | Delivered(alert: Alert)

  /** The lifecycle of one gym and end: what the tracker holds, what is on its way, and
      everything that has happened. */
  datatype State = State(tracker: Tracker, pending: seq<Alert>, log: seq<Event>)

  datatype Action =
    | Arrive(h: Webhook, cleanAt: nat)
    | Deliver(i: nat, tracked: bool)     // an edit in place or a spent TTL leaves no new entry
    | Lose(i: nat)                       // no template, rate limit, a sender that fails
    | Expire(user: string)

  function AlertsOf(users: seq<User>, t: MsgType, compact: bool): seq<Alert>
  {
    seq(|users|, i requires 0 <= i < |users| => Alert(users[i].id, t, compact))
  }

  function Alerts(jobs: seq<Job>): seq<Alert>
  {
    if jobs == [] then []
    else AlertsOf(jobs[0].users, jobs[0].alertType, jobs[0].compact) + Alerts(jobs[1..])
  }

  function Queueing(alerts: seq<Alert>): seq<Event>
  {
    seq(|alerts|, i requires 0 <= i < |alerts| => Queued(alerts[i]))
  }

  function Without(alerts: seq<Alert>, i: nat): seq<Alert>
    requires i < |alerts|
  {
    alerts[..i] + alerts[i + 1..]
  }

  function Arriving(s: State, h: Webhook, cleanAt: nat): seq<Alert>
  {
    Alerts(JobsFor(Hearing(h), h.msgType, s.tracker, h.wiring, cleanAt))
  }

  function Step(s: State, a: Action): Option<State>
  {
    match a
    case Arrive(h, cleanAt) =>
      var alerts := Arriving(s, h, cleanAt);
      Some(State(s.tracker, s.pending + alerts, s.log + Queueing(alerts)))
    case Deliver(i, tracked) =>
      if i < |s.pending| then
        var alert := s.pending[i];
        Some(State(if tracked then s.tracker[alert.user := Some(alert.msgType)] else s.tracker,
                   Without(s.pending, i), s.log + [Delivered(alert)]))
      else None
    case Lose(i) => if i < |s.pending| then Some(s.(pending := Without(s.pending, i))) else None
    case Expire(user) => Some(s.(tracker := s.tracker - {user}))
  }

  /** A run from a tracker that knows nothing of this raid, or only entries without a
      type. */
  function Run(known: set<string>, actions: seq<Action>): Option<State>
  {
    if actions == [] then Some(State(map u | u in known :: None, [], []))
    else
      match Run(known, actions[..|actions| - 1])
      case None => None
      case Some(s) => Step(s, actions[|actions| - 1])
  }

  /** The user has had the full alert of this type within the first n events. */
  ghost predicate HadFull(log: seq<Event>, n: nat, user: string, t: MsgType)
  {
    exists j :: 0 <= j < n && j < |log| && log[j] == Delivered(Alert(user, t, false))
  }

  predicate IsCompact(e: Event)
  {
    e.Queued? && e.alert.compact
  }

  /** No compact alert was ever queued before its full one had been delivered. */
  ghost predicate FullFirst(log: seq<Event>)
  {
    forall n :: 0 <= n < |log| && IsCompact(log[n]) ==> HadFull(log, n, log[n].alert.user, log[n].alert.msgType)
  }

  ghost predicate Known(tracker: Tracker, log: seq<Event>)
  {
    forall u :: u in tracker && tracker[u].Some? ==> HadFull(log, |log|, u, tracker[u].value)
  }

  ghost predicate Backed(alerts: seq<Alert>, log: seq<Event>)
  {
    forall i :: 0 <= i < |alerts| && alerts[i].compact ==> HadFull(log, |log|, alerts[i].user, alerts[i].msgType)
  }

  ghost predicate Inv(s: State)
  {
    FullFirst(s.log) && Known(s.tracker, s.log) && Backed(s.pending, s.log)
  }

  lemma HadStays(log: seq<Event>, more: seq<Event>, n: nat, user: string, t: MsgType)
    requires n <= |log| && HadFull(log, n, user, t)
    ensures forall m :: n <= m <= |log + more| ==> HadFull(log + more, m, user, t)
  {
    var j :| 0 <= j < n && j < |log| && log[j] == Delivered(Alert(user, t, false));
    assert (log + more)[j] == log[j];
  }

  lemma LogGrows(s: State, more: seq<Event>)
    requires Inv(s)
    requires forall i :: 0 <= i < |more| && IsCompact(more[i]) ==>
               HadFull(s.log, |s.log|, more[i].alert.user, more[i].alert.msgType)
    ensures Inv(s.(log := s.log + more))
  {
    var log := s.log + more;
    forall n | 0 <= n < |log| && IsCompact(log[n]) ensures HadFull(log, n, log[n].alert.user, log[n].alert.msgType) {
      HadStays(s.log, more, if n < |s.log| then n else |s.log|, log[n].alert.user, log[n].alert.msgType);
    }
    forall u | u in s.tracker && s.tracker[u].Some? ensures HadFull(log, |log|, u, s.tracker[u].value) {
      HadStays(s.log, more, |s.log|, u, s.tracker[u].value);
    }
    forall i | 0 <= i < |s.pending| && s.pending[i].compact
      ensures HadFull(log, |log|, s.pending[i].user, s.pending[i].msgType)
    {
      HadStays(s.log, more, |s.log|, s.pending[i].user, s.pending[i].msgType);
    }
  }

  /** A compact alert is only ever chosen for a user whose full one the tracker knows. */
  lemma CompactIsBacked(s: State, users: seq<User>, t: MsgType, w: Wiring)
    requires Known(s.tracker, s.log)
    ensures Backed(AlertsOf(Kept(users, Compacts(t, s.tracker, w)), t, true), s.log)
  {
    var rsvp := Kept(users, Compacts(t, s.tracker, w));
    OnlyTheKept(users, Compacts(t, s.tracker, w));
    forall i | 0 <= i < |rsvp| ensures HadFull(s.log, |s.log|, rsvp[i].id, t) {
      assert rsvp[i] in rsvp;
    }
  }

  lemma ArrivingIsBacked(s: State, h: Webhook, cleanAt: nat)
    requires Inv(s)
    ensures Backed(Arriving(s, h, cleanAt), s.log)
  {
    var users := Hearing(h);
    var full := Kept(users, Fulls(h.msgType, s.tracker, h.wiring));
    var rsvp := Kept(users, Compacts(h.msgType, s.tracker, h.wiring));
    CompactIsBacked(s, users, h.msgType, h.wiring);
    AlertsOfJobs(full, rsvp, h.msgType, cleanAt);
  }

  lemma AlertsOfJobs(full: seq<User>, rsvp: seq<User>, t: MsgType, cleanAt: nat)
    ensures Alerts((if full == [] then [] else [Job(false, t, full, 0)]) +
                   (if rsvp == [] then [] else [Job(true, t, rsvp, cleanAt)])) ==
            AlertsOf(full, t, false) + AlertsOf(rsvp, t, true)
  {
    var a := if full == [] then [] else [Job(false, t, full, 0)];
    var b := if rsvp == [] then [] else [Job(true, t, rsvp, cleanAt)];
    assert Alerts(b) == AlertsOf(rsvp, t, true) by {
      if rsvp != [] {
        assert b[1..] == [];
      }
    }
    if full == [] {
      assert a + b == b;
    } else {
      assert (a + b)[1..] == b;
    }
  }

  lemma ArriveKeeps(s: State, h: Webhook, cleanAt: nat)
    requires Inv(s)
    ensures Inv(Step(s, Arrive(h, cleanAt)).value)
  {
    var alerts := Arriving(s, h, cleanAt);
    ArrivingIsBacked(s, h, cleanAt);
    LogGrows(s.(pending := s.pending + alerts), Queueing(alerts));
  }

  lemma DeliverKeeps(s: State, i: nat, tracked: bool)
    requires Inv(s) && i < |s.pending|
    ensures Inv(Step(s, Deliver(i, tracked)).value)
  {
    var alert := s.pending[i];
    var more := [Delivered(alert)];
    LogGrows(s.(pending := Without(s.pending, i)), more);
    if alert.compact {
      HadStays(s.log, more, |s.log|, alert.user, alert.msgType);
    } else {
      assert (s.log + more)[|s.log|] == Delivered(alert);
      assert HadFull(s.log + more, |s.log + more|, alert.user, alert.msgType);
    }
  }

  lemma StepKeeps(s: State, a: Action)
    requires Inv(s) && Step(s, a).Some?
    ensures Inv(Step(s, a).value)
  {
    if a.Arrive? {
      ArriveKeeps(s, a.h, a.cleanAt);
    } else if a.Deliver? {
      DeliverKeeps(s, a.i, a.tracked);
    }
  }

  lemma {:induction false} RunKeeps(known: set<string>, actions: seq<Action>)
    requires Run(known, actions).Some?
    ensures Inv(Run(known, actions).value)
  {
    if actions != [] {
      RunKeeps(known, actions[..|actions| - 1]);
      StepKeeps(Run(known, actions[..|actions| - 1]).value, actions[|actions| - 1]);
    }
  }

  /** In every run, a user is sent the compact template for a type only after the full
      alert of that very type has been delivered to them. */
  lemma CompactOnlyAfterFull(known: set<string>, actions: seq<Action>, n: nat)
    requires Run(known, actions).Some?
    requires var log := Run(known, actions).value.log;
             n < |log| && log[n].Queued? && log[n].alert.compact
    ensures var log := Run(known, actions).value.log;
            HadFull(log, n, log[n].alert.user, log[n].alert.msgType)
  {
    RunKeeps(known, actions);
    assert IsCompact(Run(known, actions).value.log[n]);
  }

  /** Whoever has had no full alert of a type yet gets it in full when it comes: in
      particular everybody when the egg turns into a raid. */
  lemma FirstOfATypeIsFull(known: set<string>, actions: seq<Action>, u: User, t: MsgType, w: Wiring)
    requires Run(known, actions).Some?
    requires var log := Run(known, actions).value.log; !HadFull(log, |log|, u.id, t)
    ensures !GetsCompact(u, t, Run(known, actions).value.tracker, w)
  {
    RunKeeps(known, actions);
  }
}
