/** What holds of every run of the reminder schedules. */
module ReminderTheorems {
  import opened Order
  import opened Text
  import opened Reminder

  datatype Event =
    | Add(name: string, route: string, body: string, every: int, until: int, now: int)
    | Claim(name: string, now: int, id: string)
    | Retry(name: string, now: int)
    | CancelOne(name: string)
    | ExpireAll(now: int)
    | Describe(name: string, detail: string)
    | Append(row: Row)
    | Acknowledge(id: string)
    | Post(envelope: Envelope, detail: string)
    | Register(routes: set<string>)

  /** A successful claim or retry. */
  datatype Fire = Fire(name: string, id: string, now: int, retry: bool)

  /** The tables, every fire so far, and when each schedule was added. */
  datatype Trail = Trail(tables: Tables, fires: seq<Fire>, created: map<string, int>)

  function FireOf(t: Tables, e: Event): Option<Fire> {
    match e
    case Claim(name, now, id) => if Claimable(t, name, now) then Some(Fire(name, id, now, false)) else None
    case Retry(name, now) =>
      if Retryable(t, name, now) then Some(Fire(name, t.schedules[name].lastMessage.value, now, true)) else None
    case _ => None
  }

  function Taken(mail: seq<Envelope>, id: string): (r: seq<Envelope>)
    ensures |r| == |mail|
    ensures forall i :: 0 <= i < |mail| ==> r[i] == mail[i].(taken := mail[i].taken || mail[i].id == id)
  {
    seq(|mail|, i requires 0 <= i < |mail| => mail[i].(taken := mail[i].taken || mail[i].id == id))
  }

  function StepTables(t: Tables, e: Event): Tables {
    match e
    case Add(name, route, body, every, until, now) =>
      if AddRefusal(t, name, route, body, every, until, now).Some? then t
      else Added(t, name, route, body, every, until, now)
    case Claim(name, now, id) => if Claimable(t, name, now) then Claimed(t, name, now, id) else t
    case Retry(name, now) => if Retryable(t, name, now) then Retried(t, name, now) else t
    case CancelOne(name) => if Cancellable(t, name) then Cancel(t, name) else t
    case ExpireAll(now) => ExpiredAll(t, now)
    case Describe(name, detail) =>
      if name in t.schedules then t.(schedules := t.schedules[name := t.schedules[name].(detail := detail)]) else t
    case Append(row) => t.(rows := t.rows + [row])
    case Acknowledge(id) => t.(mail := Taken(t.mail, id))
    case Post(envelope, detail) => Posted(t, envelope, detail)
    case Register(routes) => t.(routes := routes)
  }

  function Step(t: Trail, e: Event): Trail {
    var fire := FireOf(t.tables, e);
    Trail(StepTables(t.tables, e),
          if fire.Some? then t.fires + [fire.value] else t.fires,
          if e.Add? && AddRefusal(t.tables, e.name, e.route, e.body, e.every, e.until, e.now).None?
          then t.created[e.name := e.now] else t.created)
  }

  function Run(events: seq<Event>): Trail {
    if events == [] then Trail(Tables({}, map[], [], []), [], map[])
    else Step(Run(events[..|events| - 1]), events[|events| - 1])
  }

  /** Envelope ids are minted once: a posted or claimed id is new to the mailbox
      and to every schedule. */
  predicate FreshIds(t: Trail, e: Event) {
    match e
    case Claim(_, _, id) => Unused(t, id)
    case Post(envelope, _) => Unused(t, envelope.id)
    case _ => true
  }

  predicate Unused(t: Trail, id: string) {
    !HasMail(t.tables.mail, id) && forall i :: 0 <= i < |t.fires| ==> t.fires[i].id != id
  }

  predicate Fresh(events: seq<Event>) {
    events == [] || (Fresh(events[..|events| - 1]) && FreshIds(Run(events[..|events| - 1]), events[|events| - 1]))
  }

  function FiresOf(fires: seq<Fire>, name: string): (f: seq<Fire>)
    ensures forall i :: 0 <= i < |f| ==> f[i].name == name && f[i] in fires
  {
    if fires == [] then []
    else FiresOf(fires[..|fires| - 1], name)
         + if fires[|fires| - 1].name == name then [fires[|fires| - 1]] else []
  }

  // ----------------------------------------------------------- how often it fires

  /** Fire `i` (from 0) of a schedule comes at least `i + 1` intervals after its
      creation and before its end, and the next is not due before that many more. */
  ghost predicate Paced(s: Schedule, created: int, fires: seq<Fire>) {
    && s.everyMs > 0 && created < s.untilMs
    && s.nextMs >= created + (|fires| + 1) * s.everyMs
    && (forall i :: 0 <= i < |fires| ==> created + (i + 1) * s.everyMs <= fires[i].now < s.untilMs)
  }

  ghost predicate AllPaced(t: Trail) {
    && t.created.Keys == t.tables.schedules.Keys
    && (forall i :: 0 <= i < |t.fires| ==> t.fires[i].name in t.tables.schedules)
    && (forall n :: n in t.tables.schedules ==> Paced(t.tables.schedules[n], t.created[n], FiresOf(t.fires, n)))
  }

  lemma {:induction false} NoFires(fires: seq<Fire>, name: string)
    requires forall i :: 0 <= i < |fires| ==> fires[i].name != name
    ensures FiresOf(fires, name) == []
  {
    if fires != [] {
      NoFires(fires[..|fires| - 1], name);
    }
  }

  lemma FireAppended(fires: seq<Fire>, f: Fire, name: string)
    ensures FiresOf(fires + [f], name) == FiresOf(fires, name) + if f.name == name then [f] else []
  {
    assert (fires + [f])[..|fires|] == fires;
  }

  lemma PacedFire(s: Schedule, created: int, fires: seq<Fire>, f: Fire, next: Schedule)
    requires Paced(s, created, fires) && s.nextMs <= f.now < s.untilMs
    requires next.everyMs == s.everyMs && next.untilMs == s.untilMs && next.nextMs == f.now + s.everyMs
    ensures Paced(next, created, fires + [f])
  {
    var n := |fires|;
    assert (n + 2) * s.everyMs == (n + 1) * s.everyMs + s.everyMs;
  }

  /** What a step may change about one schedule: a fire moves its due date and its
      last message, and nothing else moves either. */
  ghost predicate Moved(s: Schedule, u: Schedule, fire: Option<Fire>, name: string) {
    && u.everyMs == s.everyMs && u.untilMs == s.untilMs && u.route == s.route && u.body == s.body
    && (u.status == Active ==> s.status == Active)
    && if fire.Some? && fire.value.name == name then
         && s.nextMs <= fire.value.now < s.untilMs
         && u.nextMs == fire.value.now + s.everyMs && u.lastMessage == Some(fire.value.id)
         && (fire.value.retry ==> s.lastMessage == u.lastMessage)
       else u.nextMs == s.nextMs && u.lastMessage == s.lastMessage
  }

  lemma ScheduleMoves(t: Tables, e: Event, name: string)
    requires name in t.schedules
    ensures name in StepTables(t, e).schedules
    ensures Moved(t.schedules[name], StepTables(t, e).schedules[name], FireOf(t, e), name)
  {
    hide HasOutcome;
    hide LatestIn;
    hide Complete;
    hide Posted;
    PostedSchedules(t, e);
  }

  lemma PostedSchedules(t: Tables, e: Event)
    ensures e.Claim? && Claimable(t, e.name, e.now) ==>
              var s := t.schedules[e.name];
              StepTables(t, e).schedules == t.schedules[e.name := s.(nextMs := e.now + s.everyMs,
                lastMessage := Some(e.id), detail := "claimed; awaiting delivery receipt")]
    ensures e.Post? ==> StepTables(t, e).schedules == t.schedules
  {
    hide HasOutcome;
    hide Complete;
  }

  predicate AddsNow(t: Tables, e: Event) {
    e.Add? && AddRefusal(t, e.name, e.route, e.body, e.every, e.until, e.now).None?
  }

  /** A schedule that was not there before was added just now. */
  lemma NewSchedule(t: Tables, e: Event)
    ensures StepTables(t, e).schedules.Keys == t.schedules.Keys + if AddsNow(t, e) then {e.name} else {}
    ensures AddsNow(t, e) ==>
              StepTables(t, e).schedules == t.schedules[e.name := Schedule(e.route, e.body, e.every, e.until,
                                                                           e.now + e.every, Active, None, "")]
    ensures AddsNow(t, e) ==> e.every > 0 && e.until > e.now && e.name !in t.schedules
    ensures AddsNow(t, e) ==> |ActiveNames(t.schedules)| < MAX_ACTIVE && !RouteTaken(t.schedules, e.route)
    ensures AddsNow(t, e) ==> FireOf(t, e).None?
    ensures FireOf(t, e).Some? ==> FireOf(t, e).value.name in t.schedules
  {
    hide HasOutcome;
    hide LatestIn;
    hide Complete;
    PostedSchedules(t, e);
  }

  function OwnFire(fire: Option<Fire>, name: string): seq<Fire> {
    if fire.Some? && fire.value.name == name then [fire.value] else []
  }

  lemma FiresGrow(t: Trail, e: Event, name: string)
    ensures FiresOf(Step(t, e).fires, name) == FiresOf(t.fires, name) + OwnFire(FireOf(t.tables, e), name)
  {
    hide FireOf;
    hide StepTables;
    hide AddRefusal;
    var fire := FireOf(t.tables, e);
    if fire.Some? {
      FireAppended(t.fires, fire.value, name);
    }
  }

  lemma PacedMove(s: Schedule, u: Schedule, created: int, fires: seq<Fire>, fire: Option<Fire>, name: string)
    requires Paced(s, created, fires) && Moved(s, u, fire, name)
    ensures Paced(u, created, fires + OwnFire(fire, name))
  {
    if fire.Some? && fire.value.name == name {
      PacedFire(s, created, fires, fire.value, u);
    } else {
      assert fires + OwnFire(fire, name) == fires;
    }
  }

  lemma PacedSchedule(t: Trail, e: Event, n: string)
    requires AllPaced(t) && n in Step(t, e).tables.schedules
    requires n in Step(t, e).created
    ensures Paced(Step(t, e).tables.schedules[n], Step(t, e).created[n], FiresOf(Step(t, e).fires, n))
  {
    var next, fire := Step(t, e), FireOf(t.tables, e);
    NewSchedule(t.tables, e);
    FiresGrow(t, e, n);
    assert next.created == if AddsNow(t.tables, e) then t.created[e.name := e.now] else t.created;
    if n in t.tables.schedules {
      assert next.created[n] == t.created[n];
      ScheduleMoves(t.tables, e, n);
      hide *;
      hide AllPaced;
      PacedMove(t.tables.schedules[n], next.tables.schedules[n], t.created[n], FiresOf(t.fires, n), fire, n);
    } else {
      NoFires(t.fires, n);
    }
  }

  lemma PacedStep(t: Trail, e: Event)
    requires AllPaced(t)
    ensures AllPaced(Step(t, e))
  {
    var next := Step(t, e);
    NewSchedule(t.tables, e);
    assert next.created == if AddsNow(t.tables, e) then t.created[e.name := e.now] else t.created;
    assert next.created.Keys == next.tables.schedules.Keys;
    assert next.fires == t.fires + if FireOf(t.tables, e).Some? then [FireOf(t.tables, e).value] else [];
    forall n | n in next.tables.schedules
      ensures Paced(next.tables.schedules[n], next.created[n], FiresOf(next.fires, n))
    {
      PacedSchedule(t, e, n);
    }
    hide Step;
    hide Paced;
  }

  lemma {:induction false} RunIsPaced(events: seq<Event>)
    ensures AllPaced(Run(events))
  {
    if events != [] {
      RunIsPaced(events[..|events| - 1]);
      PacedStep(Run(events[..|events| - 1]), events[|events| - 1]);
    }
  }

  /** The firing bound: fire `i` is no earlier than `i + 1` intervals after creation
      and before the end, so there are at most `(until - created - 1) / every`. */
  lemma FiringBound(events: seq<Event>, name: string)
    requires name in Run(events).tables.schedules
    ensures name in Run(events).created
    ensures var t := Run(events);
            var s, created, fires := t.tables.schedules[name], t.created[name], FiresOf(t.fires, name);
            && s.everyMs > 0
            && (forall i :: 0 <= i < |fires| ==> created + (i + 1) * s.everyMs <= fires[i].now < s.untilMs)
            && |fires| <= (s.untilMs - created - 1) / s.everyMs
  {
    RunIsPaced(events);
    var t := Run(events);
    hide Run;
    BoundFromPace(t.tables.schedules[name], t.created[name], FiresOf(t.fires, name));
  }

  lemma BoundFromPace(s: Schedule, created: int, fires: seq<Fire>)
    requires Paced(s, created, fires)
    ensures |fires| <= (s.untilMs - created - 1) / s.everyMs
  {
    if |fires| > 0 {
      assert created + (|fires| - 1 + 1) * s.everyMs <= fires[|fires| - 1].now;
    }
    QuotientAtLeast(s.untilMs - created - 1, s.everyMs, |fires|);
  }

  lemma QuotientAtLeast(a: int, d: int, q: nat)
    requires d > 0 && q * d <= a
    ensures q <= a / d
  {
    assert a < (a / d + 1) * d;
  }

  // -------------------------------------------------- one active schedule a route

  ghost predicate OneActive(schedules: map<string, Schedule>) {
    && |ActiveNames(schedules)| <= MAX_ACTIVE
    && (forall m, n ::
          && m in schedules && n in schedules && schedules[m].status == Active && schedules[n].status == Active
          && schedules[m].route == schedules[n].route
          ==> m == n)
  }

  lemma FewerActive(a: map<string, Schedule>, b: map<string, Schedule>)
    requires OneActive(a)
    requires forall n :: n in b && b[n].status == Active
               ==> n in a && a[n].status == Active && a[n].route == b[n].route
    ensures OneActive(b)
  {
    assert ActiveNames(b) <= ActiveNames(a);
    CardinalityBound(ActiveNames(b), ActiveNames(a));
  }

  /** At every moment of every run each route has at most one active schedule, and
      at most 32 are active overall. */
  lemma {:induction false} OneActivePerRoute(events: seq<Event>)
    ensures OneActive(Run(events).tables.schedules)
  {
    if events != [] {
      OneActivePerRoute(events[..|events| - 1]);
      OneActiveStep(Run(events[..|events| - 1]).tables, events[|events| - 1]);
    }
  }

  lemma OneActiveStep(t: Tables, e: Event)
    requires OneActive(t.schedules)
    ensures OneActive(StepTables(t, e).schedules)
  {
    NewSchedule(t, e);
    forall n | n in t.schedules {
      ScheduleMoves(t, e, n);
    }
    var a, b := t.schedules, StepTables(t, e).schedules;
    if AddsNow(t, e) {
      hide StepTables;
      hide AddsNow;
      assert ActiveNames(b) == ActiveNames(a) + {e.name};
    } else {
      hide StepTables;
      hide AddsNow;
      FewerActive(a, b);
    }
  }

  // ------------------------------------------------------ envelopes and receipts

  /** The newest fire's envelope is the schedule's last message, a retry repeats the
      envelope before it, and every other envelope is complete. */
  ghost predicate Orderly(t: Tables, s: Schedule, fires: seq<Fire>) {
    && s.lastMessage == (if fires == [] then None else Some(fires[|fires| - 1].id))
    && (forall i :: 0 <= i < |fires| && fires[i].retry ==> i > 0 && fires[i].id == fires[i - 1].id)
    && (forall i :: 0 <= i < |fires| ==> HasMail(t.mail, fires[i].id))
    && (forall i :: 0 <= i < |fires| && Some(fires[i].id) != s.lastMessage ==> Complete(t, fires[i].id, s.route))
  }

  ghost predicate AllOrderly(t: Trail) {
    forall n :: n in t.tables.schedules ==> Orderly(t.tables, t.tables.schedules[n], FiresOf(t.fires, n))
  }

  /** Rows are only appended, and an envelope changes in nothing but being taken. */
  ghost predicate Grown(t: Tables, next: Tables) {
    && |next.rows| >= |t.rows| && (forall i :: 0 <= i < |t.rows| ==> next.rows[i] == t.rows[i])
    && |next.mail| >= |t.mail|
    && forall i :: 0 <= i < |t.mail| ==> next.mail[i].(taken := t.mail[i].taken) == t.mail[i]
  }

  lemma StepGrows(t: Tables, e: Event)
    ensures Grown(t, StepTables(t, e))
  {
    var next := StepTables(t, e);
    assert |next.rows| >= |t.rows| && next.rows[..|t.rows|] == t.rows;
    assert forall i :: 0 <= i < |t.rows| ==> next.rows[i] == t.rows[i];
  }

  lemma OutcomeKept(t: Tables, next: Tables, id: string, outcomes: set<string>)
    requires Grown(t, next) && HasOutcome(t.rows, id, outcomes)
    ensures HasOutcome(next.rows, id, outcomes)
  {
    var i :| 0 <= i < |t.rows| && t.rows[i].message == id && t.rows[i].outcome in outcomes;
    assert next.rows[i].message == id;
  }

  lemma MailKept(t: Tables, next: Tables, id: string, route: string)
    requires Grown(t, next)
    ensures HasMail(t.mail, id) ==> HasMail(next.mail, id)
    ensures Replied(t.mail, id, route) ==> Replied(next.mail, id, route)
  {
    if HasMail(t.mail, id) {
      var i :| 0 <= i < |t.mail| && t.mail[i].id == id;
      assert next.mail[i].id == id;
    }
    if Replied(t.mail, id, route) {
      var i :| 0 <= i < |t.mail| && t.mail[i].replyTo == Some(id) && t.mail[i].kind == "reply" && t.mail[i].from == route;
      assert next.mail[i].replyTo == Some(id);
    }
  }

  /** Receipts, replies and envelopes are never lost. */
  lemma NothingLost(t: Tables, e: Event, id: string, route: string)
    ensures HasMail(t.mail, id) ==> HasMail(StepTables(t, e).mail, id)
    ensures Complete(t, id, route) ==> Complete(StepTables(t, e), id, route)
    ensures forall outcomes :: HasOutcome(t.rows, id, outcomes) ==> HasOutcome(StepTables(t, e).rows, id, outcomes)
  {
    var next := StepTables(t, e);
    StepGrows(t, e);
    hide StepTables;
    hide Grown;
    hide HasMail;
    hide Replied;
    hide HasOutcome;
    MailKept(t, next, id, route);
    forall outcomes | HasOutcome(t.rows, id, outcomes)
      ensures HasOutcome(next.rows, id, outcomes)
    {
      OutcomeKept(t, next, id, outcomes);
    }
  }

  lemma OrderlyFire(t: Tables, s: Schedule, fires: seq<Fire>, next: Tables, u: Schedule, f: Fire)
    requires Orderly(t, s, fires) && u.route == s.route && u.lastMessage == Some(f.id)
    requires f.retry ==> s.lastMessage == Some(f.id)
    requires !f.retry && s.lastMessage.Some? ==> Complete(t, s.lastMessage.value, s.route)
    requires HasMail(next.mail, f.id)
    requires forall i :: 0 <= i < |fires| && HasMail(t.mail, fires[i].id) ==> HasMail(next.mail, fires[i].id)
    requires forall i :: 0 <= i < |fires| && Complete(t, fires[i].id, s.route) ==> Complete(next, fires[i].id, s.route)
    ensures Orderly(next, u, fires + [f])
  {
    hide Complete;
    hide HasMail;
  }

  lemma OrderlyMove(t: Tables, next: Tables, s: Schedule, u: Schedule, fires: seq<Fire>, fire: Option<Fire>, name: string)
    requires Orderly(t, s, fires) && Moved(s, u, fire, name)
    requires forall id :: HasMail(t.mail, id) ==> HasMail(next.mail, id)
    requires forall id :: Complete(t, id, s.route) ==> Complete(next, id, s.route)
    requires fire.Some? ==> HasMail(next.mail, fire.value.id)
    requires fire.Some? && fire.value.name == name && !fire.value.retry && s.lastMessage.Some?
             ==> Complete(t, s.lastMessage.value, s.route)
    ensures Orderly(next, u, fires + OwnFire(fire, name))
  {
    hide Complete;
    hide HasMail;
    if fire.Some? && fire.value.name == name {
      OrderlyFire(t, s, fires, next, u, fire.value);
    } else {
      assert fires + OwnFire(fire, name) == fires;
    }
  }

  lemma OrderlySchedule(t: Trail, e: Event, n: string)
    requires AllOrderly(t) && AllPaced(t) && n in Step(t, e).tables.schedules
    ensures Orderly(Step(t, e).tables, Step(t, e).tables.schedules[n], FiresOf(Step(t, e).fires, n))
  {
    var next, fire := Step(t, e), FireOf(t.tables, e);
    NewSchedule(t.tables, e);
    FiresGrow(t, e, n);
    if n in t.tables.schedules {
      ScheduleMoves(t.tables, e, n);
      assert Orderly(t.tables, t.tables.schedules[n], FiresOf(t.fires, n));
      if fire.Some? {
        FiredMail(t.tables, e);
      }
      assert next.tables == StepTables(t.tables, e);
      hide *;
      forall id
        ensures HasMail(t.tables.mail, id) ==> HasMail(next.tables.mail, id)
        ensures Complete(t.tables, id, t.tables.schedules[n].route) ==> Complete(next.tables, id, t.tables.schedules[n].route)
      {
        NothingLost(t.tables, e, id, t.tables.schedules[n].route);
      }
      OrderlyMove(t.tables, next.tables, t.tables.schedules[n], next.tables.schedules[n], FiresOf(t.fires, n), fire, n);
    } else {
      NoFires(t.fires, n);
    }
  }

  /** What a fire sends is in the mailbox afterwards. */
  lemma FiredMail(t: Tables, e: Event)
    requires FireOf(t, e).Some?
    ensures HasMail(StepTables(t, e).mail, FireOf(t, e).value.id)
    ensures var f := FireOf(t, e).value;
            f.name in t.schedules && var s := t.schedules[f.name];
            !f.retry && s.lastMessage.Some? ==> Complete(t, s.lastMessage.value, s.route)
  {
    hide HasOutcome;
    hide LatestIn;
    var next := StepTables(t, e);
    if e.Claim? {
      assert next.mail[|t.mail|].id == e.id;
    }
  }

  /** Over every run, every claimed envelope but the newest of its schedule has a
      completion receipt or a reply, and a retry repeats the envelope before it. */
  lemma {:induction false} OnlyNewestOpen(events: seq<Event>)
    ensures AllOrderly(Run(events))
  {
    if events != [] {
      OnlyNewestOpen(events[..|events| - 1]);
      RunIsPaced(events[..|events| - 1]);
      forall n | n in Run(events).tables.schedules {
        OrderlySchedule(Run(events[..|events| - 1]), events[|events| - 1], n);
      }
    }
  }

  ghost predicate DistinctClaims(fires: seq<Fire>) {
    forall i, j :: 0 <= i < j < |fires| && !fires[j].retry ==> fires[i].id != fires[j].id
  }

  /** Minted ids make every claim a new envelope: two claims of a run never share
      one, whichever schedules made them. */
  lemma {:induction false} ClaimsAreDistinct(events: seq<Event>)
    requires Fresh(events)
    ensures DistinctClaims(Run(events).fires)
  {
    if events != [] {
      var before, e := Run(events[..|events| - 1]), events[|events| - 1];
      ClaimsAreDistinct(events[..|events| - 1]);
      assert FreshIds(before, e);
      var fire := FireOf(before.tables, e);
      if fire.Some? && !fire.value.retry {
        assert e.Claim? && fire.value.id == e.id;
      }
    }
  }

  /** When a schedule claims, nothing ever fired at its route is still in flight,
      whichever schedule fired it. */
  lemma ClaimFindsRouteQuiet(events: seq<Event>, name: string, now: int, other: string, i: nat)
    requires Claimable(Run(events).tables, name, now)
    requires other in Run(events).tables.schedules
    requires Run(events).tables.schedules[other].route == Run(events).tables.schedules[name].route
    requires i < |FiresOf(Run(events).fires, other)|
    ensures var t := Run(events);
            !InFlight(t.tables, FiresOf(t.fires, other)[i].id, t.tables.schedules[other].route)
  {
    OnlyNewestOpen(events);
    var t := Run(events);
    assert Orderly(t.tables, t.tables.schedules[other], FiresOf(t.fires, other));
  }

  /** Readers hand over at most one reminder envelope for a route at any moment. */
  lemma OneLiveEnvelopePerRoute(events: seq<Event>, a: Envelope, b: Envelope, m: string, n: string, now: int)
    requires a.reference == Some(PREFIX + m) && b.reference == Some(PREFIX + n)
    requires var t := Run(events).tables;
             && m in t.schedules && n in t.schedules && t.schedules[m].route == t.schedules[n].route
             && MessageActive(t, a, now) && MessageActive(t, b, now)
    ensures a.id == b.id
  {
    OneActivePerRoute(events);
    assert (PREFIX + m)[|PREFIX|..] == m && (PREFIX + n)[|PREFIX|..] == n;
    assert HasPrefix(PREFIX + m, PREFIX) && HasPrefix(PREFIX + n, PREFIX);
  }

  // ------------------------------------------------------------ retries, refusals

  function RetriesOf(fires: seq<Fire>, id: string): nat {
    if fires == [] then 0
    else RetriesOf(fires[..|fires| - 1], id)
         + if fires[|fires| - 1].retry && fires[|fires| - 1].id == id then 1 else 0
  }

  function RefusalsOf(rows: seq<Row>, id: string): nat {
    if rows == [] then 0
    else RefusalsOf(rows[..|rows| - 1], id)
         + if rows[|rows| - 1].message == id && rows[|rows| - 1].outcome in REFUSED then 1 else 0
  }

  function OpenRefusal(rows: seq<Row>, id: string): nat {
    if LatestIn(rows, id, REFUSED) then 1 else 0
  }

  lemma RowAppended(rows: seq<Row>, row: Row, id: string)
    ensures RefusalsOf(rows + [row], id)
         == RefusalsOf(rows, id) + if row.message == id && row.outcome in REFUSED then 1 else 0
    ensures LatestOutcome(rows + [row], id) == if row.message == id then Some(row.outcome) else LatestOutcome(rows, id)
  {
    assert (rows + [row])[..|rows|] == rows;
  }

  lemma RetryAppended(fires: seq<Fire>, f: Fire, id: string)
    ensures RetriesOf(fires + [f], id) == RetriesOf(fires, id) + if f.retry && f.id == id then 1 else 0
  {
    assert (fires + [f])[..|fires|] == fires;
  }

  /** The one row a step appends, if it appends any. */
  function RowOf(t: Tables, e: Event): Option<Row> {
    var next := StepTables(t, e);
    if |next.rows| > |t.rows| then Some(next.rows[|t.rows|]) else None
  }

  lemma RowsGrowByOne(t: Tables, e: Event)
    ensures StepTables(t, e).rows == t.rows + (if RowOf(t, e).Some? then [RowOf(t, e).value] else [])
    ensures FireOf(t, e).Some? && FireOf(t, e).value.retry
            ==> RowOf(t, e).Some? && RowOf(t, e).value.outcome == "submitted-to-harness"
                && RowOf(t, e).value.message == FireOf(t, e).value.id
                && LatestIn(t.rows, FireOf(t, e).value.id, REFUSED)
  {
    hide LatestIn;
    hide HasOutcome;
  }

  /** Retries of an envelope never outnumber its refusals, and while the last word
      on it is not a refusal they stay behind by what is unanswered. */
  lemma {:induction false} RetriesAlternate(events: seq<Event>, id: string)
    ensures var t := Run(events);
            RetriesOf(t.fires, id) + OpenRefusal(t.tables.rows, id) <= RefusalsOf(t.tables.rows, id)
  {
    if events != [] {
      var before, e := Run(events[..|events| - 1]), events[|events| - 1];
      RetriesAlternate(events[..|events| - 1], id);
      RowsGrowByOne(before.tables, e);
      var row, fire := RowOf(before.tables, e), FireOf(before.tables, e);
      if row.Some? {
        RowAppended(before.tables.rows, row.value, id);
      }
      if fire.Some? {
        RetryAppended(before.fires, fire.value, id);
      }
      assert Run(events).tables == StepTables(before.tables, e);
      assert Run(events).fires == before.fires + if fire.Some? then [fire.value] else [];
      hide *;
      RetryCounts(before.tables.rows, Run(events).tables.rows, before.fires, Run(events).fires, row, fire, id);
    }
  }

  lemma RetryCounts(rows: seq<Row>, rows': seq<Row>, fires: seq<Fire>, fires': seq<Fire>,
                    row: Option<Row>, fire: Option<Fire>, id: string)
    requires rows' == rows + (if row.Some? then [row.value] else [])
    requires fires' == fires + (if fire.Some? then [fire.value] else [])
    requires fire.Some? && fire.value.retry
             ==> row.Some? && row.value.outcome == "submitted-to-harness" && row.value.message == fire.value.id
                 && LatestIn(rows, fire.value.id, REFUSED)
    requires RetriesOf(fires, id) + OpenRefusal(rows, id) <= RefusalsOf(rows, id)
    ensures RetriesOf(fires', id) + OpenRefusal(rows', id) <= RefusalsOf(rows', id)
  {
    if row.Some? {
      RowAppended(rows, row.value, id);
    } else {
      assert rows' == rows;
    }
    if fire.Some? {
      RetryAppended(fires, fire.value, id);
    } else {
      assert fires' == fires;
    }
  }

  /** Once acceptance or a turn end is recorded for an envelope, it is never
      retried again. */
  lemma {:induction false} NoRetryAfterAcceptance(events: seq<Event>, i: nat, id: string)
    requires i <= |events| && HasOutcome(Run(events[..i]).tables.rows, id, SETTLED)
    ensures HasOutcome(Run(events).tables.rows, id, SETTLED)
    ensures RetriesOf(Run(events).fires, id) == RetriesOf(Run(events[..i]).fires, id)
    decreases |events|
  {
    if i == |events| {
      assert events[..i] == events;
    } else {
      var before, e := Run(events[..|events| - 1]), events[|events| - 1];
      assert events[..|events| - 1][..i] == events[..i];
      NoRetryAfterAcceptance(events[..|events| - 1], i, id);
      NothingLost(before.tables, e, id, "");
      if FireOf(before.tables, e).Some? {
        RetryAppended(before.fires, FireOf(before.tables, e).value, id);
      }
    }
  }
}
