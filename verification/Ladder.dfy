/** The delivery ladder: the rungs a message can land on, the rows each landing
    records, the ledger's queries, and the door budget (`deliver.rs`). */
module Ladder {
  import opened Text
  import CommitRow

  // --------------------------------------------------------------------- ledger

  datatype DeliveryState =
    | Appended | ClaimedBySupervisor | SubmittedToHarness | Steered | SteeringFailed | AcceptedByHarness
    | RejectedByHarness | HeldForTurnBoundary | QueuedInHookInbox | PastedIntoPane | HeldInMailbox
    | TurnStarted | TurnEnded | ReplyAppended | NoReply | ParentDoorDelivered | ParentDoorFailed
    | CooledOff | RouteDead

  /** One delivery transition. */
  datatype Row = Row(message: string, route: string, outcome: DeliveryState, detail: string, at: nat)

  /** One door budget trip. */
  datatype Trip = Trip(route: string, at: nat, cooldown: nat, why: string)
  {
    function Until(): nat {
      if at + cooldown <= U64_MAX then at + cooldown else U64_MAX
    }
  }

  datatype Kind =
    | Result | Completion | Yield | Reparented | Retrying | RetryBudgetExhausted
    | ExitedWithoutCompletion | OpenFailed | HeadRewound | Commit | Plain(word: string)
  {
    predicate SupervisorRow() {
      !Plain?
    }

    predicate LaneEndRow() {
      Result? || Completion? || ExitedWithoutCompletion? || OpenFailed? || RetryBudgetExhausted?
    }

    predicate LaneProgressRow() {
      SupervisorRow() && !LaneEndRow()
    }

    function Spelled(): string {
      match this
      case Result => "result"
      case Completion => "completion"
      case Yield => "yield"
      case Reparented => "reparented"
      case Retrying => "retrying"
      case RetryBudgetExhausted => "retry_budget_exhausted"
      case ExitedWithoutCompletion => "exited_without_completion"
      case OpenFailed => "open_failed"
      case HeadRewound => "head_rewound"
      case Commit => "commit"
      case Plain(word) => word
    }
  }

  datatype Message = Message(id: string, sender: string, recipient: string, kind: Kind,
                             detail: Option<string>, body: string, reference: Option<string>)

  /** A commit head one lane pushed at one subscriber. */
  datatype Push = Push(lane: string, subscriber: string, head: string)

  datatype Db = Db(mail: seq<Message>, acked: set<string>, rows: seq<Row>, trips: seq<Trip>, pushes: set<Push>)

  predicate PushDetail(detail: string) {
    detail == "door" || detail == "door queue" || detail == "acpx queue"
  }

  predicate Accepts(r: Row) {
    r.outcome == AcceptedByHarness || r.detail == "door queue"
  }

  predicate Pastes(r: Row) {
    r.outcome == PastedIntoPane
  }

  predicate Of(r: Row, id: string, route: string) {
    r.message == id && r.route == route
  }

  predicate DeliveryAccepted(rows: seq<Row>, id: string, route: string) {
    exists i :: 0 <= i < |rows| && Of(rows[i], id, route) && Accepts(rows[i])
  }

  predicate NoticePasted(rows: seq<Row>, id: string, route: string) {
    exists i :: 0 <= i < |rows| && Of(rows[i], id, route) && Pastes(rows[i])
  }

  predicate HasTransition(rows: seq<Row>, id: string) {
    exists i :: 0 <= i < |rows| && rows[i].message == id
  }

  predicate PushAt(r: Row, route: string, since: nat) {
    r.route == route && r.at >= since && PushDetail(r.detail)
  }

  function PushesSince(rows: seq<Row>, route: string, since: nat): nat {
    if rows == [] then 0
    else PushesSince(rows[..|rows| - 1], route, since) + if PushAt(rows[|rows| - 1], route, since) then 1 else 0
  }

  predicate HasBody(mail: seq<Message>, id: string, body: string) {
    exists j :: 0 <= j < |mail| && mail[j].id == id && mail[j].body == body
  }

  predicate PushedBodySince(rows: seq<Row>, mail: seq<Message>, route: string, body: string, since: nat) {
    exists i :: 0 <= i < |rows| && PushAt(rows[i], route, since) && HasBody(mail, rows[i].message, body)
  }

  /** The newest trip: the latest instant, the last recorded among equals. */
  function LatestTrip(trips: seq<Trip>, route: string): (t: Option<Trip>)
    ensures t.Some? ==> t.value.route == route
  {
    if trips == [] then None
    else
      var best, t := LatestTrip(trips[..|trips| - 1], route), trips[|trips| - 1];
      if t.route != route || (best.Some? && best.value.at > t.at) then best else Some(t)
  }

  predicate CoolingOff(trips: seq<Trip>, route: string, now: nat) {
    LatestTrip(trips, route).Some? && LatestTrip(trips, route).value.Until() > now
  }

  // ------------------------------------------------------------------- landings

  datatype Rung =
    | AlreadyAccepted | Door | DoorQueue | Acpx | TurnBoundary | HookInbox | PanePaste
    | MailboxOnly | Mailbox | CoolOff
  {
    function State(): DeliveryState {
      match this
      case AlreadyAccepted => AcceptedByHarness
      case Door => AcceptedByHarness
      case Acpx => AcceptedByHarness
      case DoorQueue => HeldForTurnBoundary
      case TurnBoundary => HeldForTurnBoundary
      case HookInbox => QueuedInHookInbox
      case PanePaste => PastedIntoPane
      case MailboxOnly => HeldInMailbox
      case Mailbox => HeldInMailbox
      case CoolOff => CooledOff
    }

    predicate CarriedTheBody() {
      AlreadyAccepted? || Door? || DoorQueue? || Acpx?
    }
  }

  datatype Landing = Landing(rung: Rung, detail: string, reply: Option<string>,
                             state: Option<DeliveryState>, carried: bool)
  {
    function Outcome(): DeliveryState {
      if state.Some? then state.value else rung.State()
    }

    function Receipt(message: string, route: string, at: nat): Row {
      Row(message, route, Outcome(), detail, at)
    }
  }

  function Land(rung: Rung, detail: string): Landing {
    Landing(rung, detail, None, None, rung.CarriedTheBody())
  }

  function AcpxLanding(reply: string): Landing {
    Landing(Acpx, "acpx queue", Some(reply), None, true)
  }

  function PaneSubmit(pane: string, why: string): Landing {
    Landing(PanePaste, why + "; pane " + pane, None, Some(AcceptedByHarness), true)
  }

  // The landings an attempt is answered with before it reaches the ladder.

  function ReminderGone(): Landing {
    Land(MailboxOnly, "reminder cancelled or expired")
  }

  function LockTaken(): Landing {
    Land(Mailbox, "another delivery attempt is in flight")
  }

  function AcceptedBefore(): Landing {
    Land(AlreadyAccepted, "previously accepted by harness or its queue")
  }

  function NoticedBefore(): Landing {
    Land(PanePaste, "pane notice already delivered")
  }

  // --------------------------------------------------------------------- routes

  datatype Harness = Harness(id: string, keystrokes: bool, submitKey: bool)

  datatype Route = Route(kind: string, mode: Option<string>, harness: Option<Harness>, parent: Option<string>)

  datatype Budget = Budget(window: nat, cooldown: nat, floor: nat)

  function ChildrenOf(parent: string, routes: map<string, Route>): set<string> {
    set n | n in routes && routes[n].parent == Some(parent) && n != parent
  }

  /** The larger of the floor and the number of lanes that name the route as parent. */
  function Allowance(budget: Budget, route: string, routes: map<string, Route>): (allowed: nat)
    ensures allowed >= budget.floor && allowed >= |ChildrenOf(route, routes)|
    ensures allowed == budget.floor || allowed == |ChildrenOf(route, routes)|
  {
    var children := |ChildrenOf(route, routes)|;
    if children >= budget.floor then children else budget.floor
  }

  /** Where the window that ends now begins. */
  function Since(now: nat, window: nat): nat {
    SaturatingSub(now, window)
  }

  datatype Verdict =
    | Open
    | Cooling(until: nat)
    | Blowout(pushes: nat, budget: nat, why: string)

  function DoorVerdict(db: Db, route: string, routes: map<string, Route>, body: string, budget: Budget, now: nat): Verdict {
    var trip := LatestTrip(db.trips, route);
    if trip.Some? && trip.value.Until() > now then Cooling(trip.value.Until())
    else
      var since := Since(now, budget.window);
      var pushes := PushesSince(db.rows, route, since);
      var allowed := Allowance(budget, route, routes);
      if pushes >= allowed then
        Blowout(pushes, allowed, Decimal(pushes) + " door pushes in " + Decimal(budget.window / 1000)
                                 + "s against " + Decimal(allowed) + " live connects")
      else if PushedBodySince(db.rows, db.mail, route, body, since) then
        Blowout(pushes, allowed, "the same body already" + " went through the door inside "
                                 + Decimal(budget.window / 1000) + "s")
      else Open
  }

  /** The landing a gate records instead of a push, if it does not open. */
  function Gated(verdict: Verdict, now: nat): Option<Landing> {
    match verdict
    case Open => None
    case Cooling(until) =>
      Some(Land(CoolOff, "cooling off for " + Decimal(SaturatingSub(until, now) / 1000) + "s more"))
    case Blowout(_, _, why) => Some(Land(CoolOff, why))
  }

  /** A fresh trip is written; a route already cooling off writes nothing. */
  function GateTrips(trips: seq<Trip>, route: string, verdict: Verdict, budget: Budget, now: nat): seq<Trip> {
    if verdict.Blowout? then trips + [Trip(route, now, budget.cooldown, verdict.why)] else trips
  }

  // -------------------------------------------------------------- outside answers

  datatype DoorAnswer = Injected | QueuedForTurnBoundary | Unreachable(why: string) | DoorError(why: string)

  datatype Lookup = Found | Absent | LookupFails

  /** Everything outside the store that one attempt meets: clocks, configuration,
      panes, hooks and the transports' answers. */
  datatype World = World(
    reminderActive: bool, heldAt: nat, appendedAt: nat, gateAt: nat, recordAt: nat,
    subscription: Option<string>, hook: bool, pane: Option<string>, pasteTakes: bool, submitTakes: bool,
    live: Lookup, answer: DoorAnswer, acpxReply: Option<string>, failureCooldown: nat)

  /** What the recipient got: nothing, the body itself, a notice in its pane, or the
      body typed at its prompt and left there unsubmitted. */
  datatype Effect = Nothing | Body | Notice | Typed

  /** Where the ladder stops before any door: at a landing, at the door of a named
      harness or at the acpx queue, or in an error. */
  datatype Stop =
    | Lands(landing: Landing, effect: Effect)
    | AtDoor(door: Option<string>)
    | Errs

  predicate CommitByDoor(subscription: Option<string>, routes: map<string, Route>, subscriber: string) {
    if subscription.Some? then subscription.value != "mailbox"
    else subscriber in routes
         && (routes[subscriber].kind == "coordinator" || routes[subscriber].kind == "native"
             || routes[subscriber].mode == Some("acpx"))
  }

  const KEYSTROKES: string := "harness takes no door mail"

  function BelowTheDoor(hook: bool, why: string): Landing {
    if hook then Land(HookInbox, why) else Land(Mailbox, why)
  }

  function Pasted(w: World, why: string): Stop {
    if w.pane.Some? && w.pasteTakes then Lands(Land(PanePaste, why + "; pane " + w.pane.value), Notice)
    else Lands(Land(Mailbox, why), Nothing)
  }

  function NoDoorRoute(w: World, why: string): Stop {
    if w.hook then Lands(Land(HookInbox, why), Nothing) else Pasted(w, why)
  }

  function KeystrokeRoute(w: World, submitKey: bool): Stop {
    if w.hook then Lands(Land(HookInbox, "installed inbox hook"), Nothing)
    else if w.pane.None? then Lands(Land(Mailbox, KEYSTROKES), Nothing)
    else if submitKey then
      if w.pasteTakes && w.submitTakes then Lands(PaneSubmit(w.pane.value, KEYSTROKES), Body)
      else Lands(Land(Mailbox, KEYSTROKES), if w.pasteTakes then Typed else Nothing)
    else Pasted(w, KEYSTROKES)
  }

  /** The ladder down to the door, on the commit pushes recorded so far. */
  function Walk(pushes: set<Push>, routes: map<string, Route>, m: Message, w: World): Stop {
    var to_ := m.recipient;
    var head := CommitRow.CommitHead(m.body);
    if m.kind.Commit? && m.detail == Some("done") then
      Lands(Land(MailboxOnly, "commit " + head + " row; done stays in the mailbox"), Nothing)
    else if m.kind.Commit? && !CommitByDoor(w.subscription, routes, to_) then
      Lands(Land(MailboxOnly, "commit row; subscriber reads the mailbox"), Nothing)
    else if m.kind.Commit? && Push(m.sender, to_, head) in pushes then
      Lands(Land(MailboxOnly, "commit " + head + " already pushed to " + to_), Nothing)
    else if m.kind.LaneProgressRow() && !m.kind.Commit? then
      Lands(Land(MailboxOnly, m.kind.Spelled() + " row; no door"), Nothing)
    else RouteWalk(routes, m, w)
  }

  function RouteWalk(routes: map<string, Route>, m: Message, w: World): Stop {
    var to_ := m.recipient;
    if to_ !in routes then
      Lands(Land(Mailbox, "no registry route for " + to_), Nothing)
    else
      var route := routes[to_];
      if route.kind == "lane" then
        Lands(if w.hook then Land(HookInbox, "installed inbox hook") else Land(TurnBoundary, "lane supervisor"), Nothing)
      else if route.mode == Some("acpx") then AtDoor(None)
      else if route.harness.None? then NoDoorRoute(w, "route " + to_ + " names no harness")
      else if route.harness.value.keystrokes then KeystrokeRoute(w, route.harness.value.submitKey)
      else
        match w.live
        case LookupFails => Errs
        case Absent =>
          Lands(BelowTheDoor(w.hook, "no live " + route.harness.value.id + " session for " + to_), Nothing)
        case Found => AtDoor(Some(route.harness.value.id))
  }

  /** The body is left typed at a prompt exactly when a harness with a submit key took
      the text in a live pane and not the key. */
  lemma LeftTypedIff(routes: map<string, Route>, m: Message, w: World)
    ensures var s := RouteWalk(routes, m, w);
            (s.Lands? && s.effect == Typed) <==>
              && m.recipient in routes && routes[m.recipient].kind != "lane" && routes[m.recipient].mode != Some("acpx")
              && routes[m.recipient].harness.Some? && routes[m.recipient].harness.value.keystrokes
              && routes[m.recipient].harness.value.submitKey
              && !w.hook && w.pane.Some? && w.pasteTakes && !w.submitTakes
  {
  }

  // -------------------------------------------------------------------- the door

  function Lower(s: string): string {
    if s == "" then ""
    else [if 'A' <= s[0] <= 'Z' then s[0] - 'A' + 'a' else s[0]] + Lower(s[1..])
  }

  predicate ContainsText(s: string, needle: string) {
    HasPrefix(s, needle) || (s != "" && ContainsText(s[1..], needle))
  }

  const TRANSPORT_WORDS: seq<string> :=
    ["connect", "socket", "refused", "unreachable", "app-server", "app server", "timed out", "timeout",
     "broken pipe", "connection reset", "no such file"]

  /** Whether a door's answer is a dead transport, not a live door declining. */
  predicate TransportFailure(why: string) {
    var lower := Lower(why);
    !ContainsText(lower, "names no messaging socket")
    && exists i :: 0 <= i < |TRANSPORT_WORDS| && ContainsText(lower, TRANSPORT_WORDS[i])
  }

  /** What a push came to: a landing, and the failure that trips the route, if any. */
  datatype Pushed =
    | Took(landing: Landing)
    | Declined(landing: Landing, trip: Option<Trip>)
    | PushErrs

  function PushAtDoor(door: Option<string>, m: Message, w: World): Pushed {
    if door.None? then (if w.acpxReply.Some? then Took(AcpxLanding(w.acpxReply.value)) else PushErrs)
    else
      match w.answer
      case Injected => Took(Land(Door, "door"))
      case QueuedForTurnBoundary => Took(Land(DoorQueue, "door queue"))
      case Unreachable(why) => Refused(door.value, m, w, why)
      case DoorError(why) => Refused(door.value, m, w, why)
  }

  /** The answers with which a door, or the acpx queue, takes a body. */
  predicate Takes(door: Option<string>, w: World) {
    if door.None? then w.acpxReply.Some? else w.answer.Injected? || w.answer.QueuedForTurnBoundary?
  }

  function Refused(door: string, m: Message, w: World, answer: string): Pushed {
    var why := door + " door for " + m.recipient + ": " + answer;
    Declined(BelowTheDoor(w.hook, why),
             if TransportFailure(why) then Some(Trip(m.recipient, w.gateAt, w.failureCooldown, "door-unreachable: " + why))
             else None)
  }

  /** A push is taken exactly by those answers, and errs exactly without a reply. */
  lemma TakesIff(door: Option<string>, m: Message, w: World)
    ensures PushAtDoor(door, m, w).Took? <==> Takes(door, w)
    ensures PushAtDoor(door, m, w).PushErrs? <==> door.None? && w.acpxReply.None?
  {
    hide TransportFailure;
  }

  lemma {:induction false} LowerIs(s: string)
    ensures |Lower(s)| == |s|
    ensures forall i :: 0 <= i < |s| ==> Lower(s)[i] == if 'A' <= s[i] <= 'Z' then s[i] - 'A' + 'a' else s[i]
  {
    if s != "" {
      LowerIs(s[1..]);
    }
  }

  /** The text occurs at some position. */
  lemma {:induction false} ContainsIff(s: string, needle: string)
    ensures ContainsText(s, needle) <==> exists i :: 0 <= i <= |s| && HasPrefix(s[i..], needle)
  {
    assert s[0..] == s;
    if s != "" {
      ContainsIff(s[1..], needle);
      assert forall i :: 0 <= i <= |s[1..]| ==> s[1..][i..] == s[i + 1..];
      if i :| 0 < i <= |s| && HasPrefix(s[i..], needle) {
        assert HasPrefix(s[1..][i - 1..], needle);
      }
    }
  }

  /** A gate opens exactly when no trip is in force, the window holds fewer pushes
      than the allowance, and none of them is this body's. */
  lemma GateOpensIff(db: Db, route: string, routes: map<string, Route>, body: string, budget: Budget, now: nat)
    ensures var since := Since(now, budget.window);
            DoorVerdict(db, route, routes, body, budget, now).Open? <==>
              && !CoolingOff(db.trips, route, now)
              && PushesSince(db.rows, route, since) < Allowance(budget, route, routes)
              && !PushedBodySince(db.rows, db.mail, route, body, since)
  {
    hide LatestTrip;
    hide PushesSince;
    hide PushedBodySince;
  }

  /** A blown budget cools its route off from now for exactly its term, up to the end of
      the clock. */
  lemma BlowoutCools(db: Db, route: string, routes: map<string, Route>, body: string, budget: Budget, now: nat, t: nat)
    requires DoorVerdict(db, route, routes, body, budget, now).Blowout? && now < U64_MAX
    ensures var v := DoorVerdict(db, route, routes, body, budget, now);
            CoolingOff(GateTrips(db.trips, route, v, budget, now), route, t) <==> t < now + budget.cooldown && t < U64_MAX
  {
    hide PushesSince;
    hide PushedBodySince;
    hide Allowance;
    var trips := GateTrips(db.trips, route, DoorVerdict(db, route, routes, body, budget, now), budget, now);
    assert trips[..|trips| - 1] == db.trips;
  }

  /** The subscriber asked for commits at the door, or did not say and is a coordinator,
      a native session or reached by acpx. */
  predicate WantsCommits(subscription: Option<string>, routes: map<string, Route>, subscriber: string) {
    (subscription.Some? && subscription.value != "mailbox")
    || (subscription.None? && subscriber in routes
        && (routes[subscriber].kind in {"coordinator", "native"} || routes[subscriber].mode == Some("acpx")))
  }

  /** The kind of the message keeps it in the mailbox: a row of a lane still going on, or
      a commit row that is done, not wanted at the door, or of a head already pushed. */
  predicate KeptByKind(pushes: set<Push>, routes: map<string, Route>, m: Message, w: World) {
    m.kind in {Yield, Reparented, Retrying, HeadRewound}
    || (m.kind == Commit
        && (m.detail == Some("done") || !WantsCommits(w.subscription, routes, m.recipient)
            || Push(m.sender, m.recipient, CommitRow.CommitHead(m.body)) in pushes))
  }

  lemma KindFirst(pushes: set<Push>, routes: map<string, Route>, m: Message, w: World)
    ensures var s := Walk(pushes, routes, m, w);
            if KeptByKind(pushes, routes, m, w) then s.Lands? && s.landing.rung.MailboxOnly? && s.effect.Nothing?
            else s == RouteWalk(routes, m, w)
  {
    hide RouteWalk;
    hide CommitRow.CommitHead;
  }

  /** A message reaches a door exactly when its route has one to try and no rule keeps
      it in the mailbox: lanes read their own, progress rows stay, a commit row needs
      door mode, unfinished work and a head not yet pushed. The door is the acpx queue
      or the live session of the route's harness. */
  lemma DoorReachedIff(pushes: set<Push>, routes: map<string, Route>, m: Message, w: World)
    ensures var s := Walk(pushes, routes, m, w);
            && (s.AtDoor? <==>
                  && m.recipient in routes && routes[m.recipient].kind != "lane"
                  && !KeptByKind(pushes, routes, m, w)
                  && (routes[m.recipient].mode == Some("acpx")
                      || (routes[m.recipient].harness.Some? && !routes[m.recipient].harness.value.keystrokes && w.live.Found?)))
            && (s.AtDoor? ==>
                  s.door == if routes[m.recipient].mode == Some("acpx") then None
                            else Some(routes[m.recipient].harness.value.id))
  {
    KindFirst(pushes, routes, m, w);
    hide Walk;
    hide KeptByKind;
  }

  /** Where a message lands short of a door, landing by landing: each exactly when. */
  lemma LandsWhere(pushes: set<Push>, routes: map<string, Route>, m: Message, w: World)
    ensures var s, kept, known := Walk(pushes, routes, m, w), KeptByKind(pushes, routes, m, w), m.recipient in routes;
            var lane := known && routes[m.recipient].kind == "lane";
            var open := known && !lane && !kept && routes[m.recipient].mode != Some("acpx");
            var harness := if known then routes[m.recipient].harness else None;
            var typed := harness.Some? && harness.value.keystrokes;
            && (s.Lands? && s.landing.rung.MailboxOnly? <==> kept)
            && (s.Lands? && s.landing.rung.TurnBoundary? <==> !kept && lane && !w.hook)
            && (s.Lands? && s.landing.rung.HookInbox? <==>
                  w.hook && ((lane && !kept) || (open && (harness.None? || typed || w.live.Absent?))))
            && (s.Lands? && s.landing.rung.PanePaste? && s.effect.Notice? <==>
                  open && !w.hook && w.pane.Some? && w.pasteTakes && (harness.None? || (typed && !harness.value.submitKey)))
            && (s.Lands? && s.landing.rung.PanePaste? && s.effect.Body? <==>
                  open && !w.hook && w.pane.Some? && w.pasteTakes && w.submitTakes && typed && harness.value.submitKey)
            && (s.Errs? <==> open && harness.Some? && !typed && w.live.LookupFails?)
            && (s.Lands? && !s.landing.rung.PanePaste? ==> s.effect.Nothing? || s.effect.Typed?)
            && (s.Lands? ==> s.landing.rung in {MailboxOnly, TurnBoundary, HookInbox, PanePaste, Mailbox})
  {
    KindFirst(pushes, routes, m, w);
    hide Walk;
    hide KeptByKind;
  }

  /** A route whose harness has no live session: the hold says so, for the drain to
      count. */
  lemma AbsentSession(pushes: set<Push>, routes: map<string, Route>, m: Message, w: World)
    requires m.recipient in routes && !KeptByKind(pushes, routes, m, w) && w.live.Absent?
    requires var route := routes[m.recipient];
             route.kind != "lane" && route.mode != Some("acpx") && route.harness.Some? && !route.harness.value.keystrokes
    ensures var s := Walk(pushes, routes, m, w);
            && s.Lands? && s.landing.rung == (if w.hook then HookInbox else Mailbox)
            && s.landing.detail == "no live " + routes[m.recipient].harness.value.id + " session for " + m.recipient
  {
    KindFirst(pushes, routes, m, w);
    hide Walk;
    hide KeptByKind;
  }

  // ------------------------------------------------- what a landing's row tells

  /** The row a landing records says what the recipient got: the ledger calls it
      accepted exactly when the body went over, and pasted exactly when a notice did. */
  predicate Tells(landing: Landing, effect: Effect) {
    && (effect == Body <==> landing.carried)
    && (effect == Body <==> landing.Outcome() == AcceptedByHarness || landing.detail == "door queue")
    && (effect == Notice <==> landing.Outcome() == PastedIntoPane)
  }

  predicate FirstIsNot(s: string, a: char, b: char) {
    s != "" && s[0] != a && s[0] != b
  }

  lemma FirstDecides(s: string)
    requires FirstIsNot(s, 'd', 'a')
    ensures !PushDetail(s)
  {
  }

  lemma ColonDecides(s: string, i: nat)
    requires i < |s| && s[i] == ':'
    ensures !PushDetail(s)
  {
  }

  lemma {:induction false} DecimalStarts(n: nat)
    ensures Decimal(n) != "" && IsDigit(Decimal(n)[0])
  {
    if n >= 10 {
      DecimalStarts(n / 10);
    }
  }

  lemma SpelledStarts(k: Kind)
    requires k.LaneProgressRow() && !k.Commit?
    ensures FirstIsNot(k.Spelled(), 'd', 'a')
  {
  }

  lemma AppendStarts(s: string, t: string)
    requires FirstIsNot(s, 'd', 'a')
    ensures FirstIsNot(s + t, 'd', 'a')
  {
  }

  lemma WhyStarts(why: string, pane: string)
    requires FirstIsNot(why, 'd', 'a')
    ensures !PushDetail(why) && !PushDetail(why + "; pane " + pane)
  {
    AppendStarts(why, "; pane ");
    AppendStarts(why + "; pane ", pane);
  }

  predicate Honest(s: Stop) {
    s.Lands? ==> Tells(s.landing, s.effect) && !PushDetail(s.landing.detail)
  }

  /** A rung that carries nothing and pastes nothing tells as much. */
  lemma QuietTells(rung: Rung, detail: string)
    requires rung in {TurnBoundary, HookInbox, MailboxOnly, Mailbox, CoolOff} && !PushDetail(detail)
    ensures Tells(Land(rung, detail), Nothing) && Tells(Land(rung, detail), Typed)
  {
  }

  lemma PastedTells(w: World, why: string)
    requires FirstIsNot(why, 'd', 'a')
    ensures Honest(Pasted(w, why))
  {
    WhyStarts(why, if w.pane.Some? then w.pane.value else "");
  }

  lemma NoDoorTells(w: World, why: string)
    requires FirstIsNot(why, 'd', 'a')
    ensures Honest(NoDoorRoute(w, why))
  {
    PastedTells(w, why);
    FirstDecides(why);
  }

  lemma KeystrokesTell(w: World, submitKey: bool)
    ensures Honest(KeystrokeRoute(w, submitKey))
  {
    assert FirstIsNot(KEYSTROKES, 'd', 'a') && FirstIsNot("installed inbox hook", 'd', 'a');
    PastedTells(w, KEYSTROKES);
    FirstDecides(KEYSTROKES);
    FirstDecides("installed inbox hook");
    WhyStarts(KEYSTROKES, if w.pane.Some? then w.pane.value else "");
  }

  lemma Leads(head: string, middle: string, tail: string)
    requires FirstIsNot(head, 'd', 'a')
    ensures FirstIsNot(head + middle + tail, 'd', 'a') && !PushDetail(head + middle + tail)
  {
    AppendStarts(head, middle);
    AppendStarts(head + middle, tail);
    FirstDecides(head + middle + tail);
  }

  lemma CommitDetails(head: string, to_: string)
    ensures !PushDetail("commit " + head + " row; done stays in the mailbox")
    ensures !PushDetail("commit row; subscriber reads the mailbox")
    ensures !PushDetail("commit " + head + " already pushed to " + to_)
  {
    assert "commit "[0] == 'c' && "commit row; subscriber reads the mailbox"[0] == 'c';
    Leads("commit ", head, " row; done stays in the mailbox");
    FirstDecides("commit row; subscriber reads the mailbox");
    Leads("commit ", head, " already pushed to ");
    Leads("commit " + head + " already pushed to ", to_, "");
    assert "commit " + head + " already pushed to " + to_ + "" == "commit " + head + " already pushed to " + to_;
  }

  lemma RouteDetails(kind: Kind, to_: string, id: string)
    ensures kind.LaneProgressRow() && !kind.Commit? ==> !PushDetail(kind.Spelled() + " row; no door")
    ensures !PushDetail("no registry route for " + to_)
    ensures !PushDetail("installed inbox hook") && !PushDetail("lane supervisor")
    ensures FirstIsNot("route " + to_ + " names no harness", 'd', 'a')
    ensures !PushDetail("no live " + id + " session for " + to_)
  {
    if kind.LaneProgressRow() && !kind.Commit? {
      SpelledStarts(kind);
      Leads(kind.Spelled(), " row; no door", "");
      assert kind.Spelled() + " row; no door" + "" == kind.Spelled() + " row; no door";
    }
    Leads("no registry route for ", to_, "");
    assert "no registry route for " + to_ + "" == "no registry route for " + to_;
    FirstDecides("installed inbox hook");
    FirstDecides("lane supervisor");
    Leads("route ", to_, " names no harness");
    Leads("no live ", id, " session for ");
    Leads("no live " + id + " session for ", to_, "");
    assert "no live " + id + " session for " + to_ + "" == "no live " + id + " session for " + to_;
  }

  lemma RouteWalkTells(routes: map<string, Route>, m: Message, w: World)
    ensures Honest(RouteWalk(routes, m, w))
  {
    var to_ := m.recipient;
    var id := if to_ in routes && routes[to_].harness.Some? then routes[to_].harness.value.id else "";
    RouteDetails(m.kind, to_, id);
    NoDoorTells(w, "route " + to_ + " names no harness");
    if to_ in routes && routes[to_].harness.Some? {
      KeystrokesTell(w, routes[to_].harness.value.submitKey);
    }
    forall rung, detail | rung in {TurnBoundary, HookInbox, MailboxOnly, Mailbox, CoolOff} && !PushDetail(detail) {
      QuietTells(rung, detail);
    }
    hide PushDetail;
    hide Tells;
    hide NoDoorRoute;
    hide KeystrokeRoute;
  }

  /** Every landing short of a door tells its effect, and none reads as a push. */
  lemma WalkTells(pushes: set<Push>, routes: map<string, Route>, m: Message, w: World)
    ensures Honest(Walk(pushes, routes, m, w))
  {
    var head, to_ := CommitRow.CommitHead(m.body), m.recipient;
    CommitDetails(head, to_);
    RouteDetails(m.kind, to_, "");
    RouteWalkTells(routes, m, w);
    forall rung, detail | rung in {TurnBoundary, HookInbox, MailboxOnly, Mailbox, CoolOff} && !PushDetail(detail) {
      QuietTells(rung, detail);
    }
    hide PushDetail;
    hide Tells;
    hide RouteWalk;
    hide CommitByDoor;
    hide CommitRow.CommitHead;
  }

  /** A push that was taken carries the body and counts against the budget; one that
      was declined does neither. */
  lemma PushTells(door: Option<string>, m: Message, w: World)
    ensures var p := PushAtDoor(door, m, w);
            && (p.Took? ==> Tells(p.landing, Body) && PushDetail(p.landing.detail))
            && (p.Declined? ==> Tells(p.landing, Nothing) && !PushDetail(p.landing.detail))
            && (p.Declined? && p.trip.Some? ==>
                  p.trip.value == Trip(m.recipient, w.gateAt, w.failureCooldown, p.trip.value.why))
  {
    hide TransportFailure;
    if door.Some? && (w.answer.Unreachable? || w.answer.DoorError?) {
      var head := door.value + " door for " + m.recipient;
      var why := head + ": " + w.answer.why;
      assert why[|head|] == ':';
      ColonDecides(why, |head|);
      QuietTells(HookInbox, why);
      QuietTells(Mailbox, why);
      hide PushDetail;
      hide Tells;
    }
  }

  /** A gate that holds the body lands it in the cool-off, which counts for nothing. */
  lemma GateTells(db: Db, route: string, routes: map<string, Route>, body: string, budget: Budget, now: nat)
    ensures var landing := Gated(DoorVerdict(db, route, routes, body, budget, now), now);
            landing.Some? ==> Tells(landing.value, Nothing) && !PushDetail(landing.value.detail)
                              && landing.value.rung == CoolOff
  {
    var v := DoorVerdict(db, route, routes, body, budget, now);
    hide LatestTrip;
    hide PushesSince;
    hide PushedBodySince;
    hide Allowance;
    if v.Cooling? {
      CoolingDetail(SaturatingSub(v.until, now) / 1000);
    } else if v.Blowout? {
      BlowoutDetail(v.pushes, v.budget, budget.window / 1000);
      ReplayDetail(budget.window / 1000);
    }
    forall detail | !PushDetail(detail) {
      QuietTells(CoolOff, detail);
    }
    hide PushDetail;
    hide Tells;
    hide Decimal;
  }

  lemma CoolingDetail(seconds: nat)
    ensures !PushDetail("cooling off for " + Decimal(seconds) + "s more")
  {
    hide Decimal;
    Leads("cooling off for ", Decimal(seconds), "s more");
  }

  lemma BlowoutDetail(pushes: nat, allowed: nat, seconds: nat)
    ensures !PushDetail(Decimal(pushes) + " door pushes in " + Decimal(seconds) + "s against "
                        + Decimal(allowed) + " live connects")
  {
    DecimalStarts(pushes);
    hide Decimal;
    Leads(Decimal(pushes), " door pushes in ", Decimal(seconds));
    Leads(Decimal(pushes) + " door pushes in " + Decimal(seconds), "s against ", Decimal(allowed));
    Leads(Decimal(pushes) + " door pushes in " + Decimal(seconds) + "s against " + Decimal(allowed), " live connects", "");
    assert Decimal(pushes) + " door pushes in " + Decimal(seconds) + "s against " + Decimal(allowed) + " live connects" + ""
        == Decimal(pushes) + " door pushes in " + Decimal(seconds) + "s against " + Decimal(allowed) + " live connects";
  }

  lemma ReplayDetail(seconds: nat)
    ensures !PushDetail("the same body already" + " went through the door inside " + Decimal(seconds) + "s")
  {
    hide Decimal;
    assert "the same body already"[0] == 't';
    AppendStarts("the same body already", " went through the door inside ");
    Leads("the same body already" + " went through the door inside ", Decimal(seconds), "s");
  }

  lemma HeldDetails()
    ensures !PushDetail(ReminderGone().detail) && !PushDetail(LockTaken().detail)
    ensures Tells(ReminderGone(), Nothing) && Tells(LockTaken(), Nothing)
  {
    assert ReminderGone().detail[0] == 'r' && LockTaken().detail[1] == 'n';
    FirstDecides(ReminderGone().detail);
    assert !PushDetail(LockTaken().detail);
    hide PushDetail;
    QuietTells(MailboxOnly, ReminderGone().detail);
    QuietTells(Mailbox, LockTaken().detail);
  }
}
