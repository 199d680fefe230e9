/** Durable reminder schedules over the mailbox: a schedule fires by claiming a new
    envelope or by retrying a refused one (`Store::reminder_*`). */
module Reminder {
  import opened Text

  const I64_MAX: int := 0x7FFF_FFFF_FFFF_FFFF
  const MAX_ACTIVE: nat := 32
  const PREFIX: string := "reminder:"

  datatype Status = Active | Cancelled | Expired

  datatype Schedule = Schedule(route: string, body: string, everyMs: int, untilMs: int, nextMs: int,
                               status: Status, lastMessage: Option<string>, detail: string)

  datatype Envelope = Envelope(id: string, from: string, recipient: string, kind: string,
                               replyTo: Option<string>, body: string, reference: Option<string>, taken: bool)

  /** One delivery transition, newest last. */
  datatype Row = Row(message: string, route: string, outcome: string, detail: string)

  datatype Tables = Tables(routes: set<string>, schedules: map<string, Schedule>,
                           mail: seq<Envelope>, rows: seq<Row>)

  datatype AddError = EmptyText | BadInterval | UnknownRoute | TooMany | Overflow | Duplicate

  // ------------------------------------------------------------------ queries

  const COMPLETED: set<string> := {"turn-ended", "reply-appended"}
  const RUNNING: set<string> := {"appended", "submitted-to-harness", "accepted-by-harness"}
  const REFUSED: set<string> := {"held-in-mailbox", "held-for-turn-boundary", "cooled-off", "rejected-by-harness"}
  const SETTLED: set<string> := {"accepted-by-harness", "turn-ended"}

  predicate HasOutcome(rows: seq<Row>, id: string, outcomes: set<string>) {
    exists i :: 0 <= i < |rows| && rows[i].message == id && rows[i].outcome in outcomes
  }

  function LatestOutcome(rows: seq<Row>, id: string): Option<string> {
    if rows == [] then None
    else if rows[|rows| - 1].message == id then Some(rows[|rows| - 1].outcome)
    else LatestOutcome(rows[..|rows| - 1], id)
  }

  predicate LatestIn(rows: seq<Row>, id: string, outcomes: set<string>) {
    LatestOutcome(rows, id).Some? && LatestOutcome(rows, id).value in outcomes
  }

  predicate Replied(mail: seq<Envelope>, id: string, route: string) {
    exists i :: 0 <= i < |mail| && mail[i].replyTo == Some(id) && mail[i].kind == "reply" && mail[i].from == route
  }

  predicate HasMail(mail: seq<Envelope>, id: string) {
    exists i :: 0 <= i < |mail| && mail[i].id == id
  }

  predicate Unread(mail: seq<Envelope>, id: string) {
    exists i :: 0 <= i < |mail| && mail[i].id == id && !mail[i].taken
  }

  /** The envelope has a completion receipt, or its recipient replied to it. */
  predicate Complete(t: Tables, id: string, route: string) {
    HasOutcome(t.rows, id, COMPLETED) || Replied(t.mail, id, route)
  }

  /** The envelope may be at work in a harness right now. */
  predicate InFlight(t: Tables, id: string, route: string) {
    !Complete(t, id, route) && LatestIn(t.rows, id, RUNNING)
  }

  function ActiveNames(schedules: map<string, Schedule>): set<string> {
    set n | n in schedules && schedules[n].status == Active
  }

  predicate RouteTaken(schedules: map<string, Schedule>, route: string) {
    exists n :: n in schedules && schedules[n].status == Active && schedules[n].route == route
  }

  predicate Blank(s: string) {
    forall i :: 0 <= i < |s| ==> IsWhitespace(s[i])
  }

  predicate Due(s: Schedule, now: int) {
    s.status == Active && s.nextMs <= now < s.untilMs
  }

  predicate Claimable(t: Tables, name: string, now: int) {
    && name in t.schedules
    && var s := t.schedules[name];
    && Due(s, now)
    && (s.lastMessage.Some? ==> Complete(t, s.lastMessage.value, s.route))
    && forall other :: other in t.schedules && other != name && t.schedules[other].route == s.route
         && t.schedules[other].lastMessage.Some?
         ==> !InFlight(t, t.schedules[other].lastMessage.value, t.schedules[other].route)
  }

  predicate Retryable(t: Tables, name: string, now: int) {
    && name in t.schedules
    && var s := t.schedules[name];
    && Due(s, now) && s.lastMessage.Some?
    && LatestIn(t.rows, s.lastMessage.value, REFUSED)
    && Unread(t.mail, s.lastMessage.value)
    && !HasOutcome(t.rows, s.lastMessage.value, SETTLED)
  }

  /** A mail reader's question: may this envelope still be handed over? */
  predicate MessageActive(t: Tables, m: Envelope, now: int) {
    if m.reference.None? || !HasPrefix(m.reference.value, PREFIX) then true
    else
      var name := m.reference.value[|PREFIX|..];
      name in t.schedules && t.schedules[name].status == Active && t.schedules[name].untilMs > now
      && t.schedules[name].lastMessage == Some(m.id)
  }

  /** The first envelope with this id. */
  function FindMail(mail: seq<Envelope>, id: string): (m: Option<Envelope>)
    ensures m.None? <==> !HasMail(mail, id)
    ensures m.Some? ==> m.value.id == id && m.value in mail
  {
    if mail == [] then None
    else if mail[0].id == id then Some(mail[0])
    else
      var rest := FindMail(mail[1..], id);
      assert forall i :: 0 <= i < |mail[1..]| ==> mail[1..][i] == mail[i + 1];
      assert rest.None? ==> forall i :: 0 < i < |mail| ==> mail[i] == mail[1..][i - 1];
      rest
  }

  // -------------------------------------------------------------------- steps

  function AddRefusal(t: Tables, name: string, route: string, body: string, every: int, until: int, now: int):
    Option<AddError>
  {
    if Blank(name) || Blank(body) then Some(EmptyText)
    else if every <= 0 || until <= now then Some(BadInterval)
    else if route !in t.routes then Some(UnknownRoute)
    else if |ActiveNames(t.schedules)| >= MAX_ACTIVE then Some(TooMany)
    else if now + every > I64_MAX then Some(Overflow)
    else if name in t.schedules || RouteTaken(t.schedules, route) then Some(Duplicate)
    else None
  }

  function Added(t: Tables, name: string, route: string, body: string, every: int, until: int, now: int): Tables {
    t.(schedules := t.schedules[name := Schedule(route, body, every, until, now + every, Active, None, "")])
  }

  /** The envelope a claim writes. */
  function Minted(s: Schedule, name: string, id: string): Envelope {
    Envelope(id, PREFIX + name, s.route, "request", None, s.body, Some(PREFIX + name), false)
  }

  /** A new envelope joins the mailbox with its first transition. */
  function Posted(t: Tables, m: Envelope, detail: string): Tables {
    t.(mail := t.mail + [m],
       rows := if exists i :: 0 <= i < |t.rows| && t.rows[i].message == m.id then t.rows
               else t.rows + [Row(m.id, m.recipient, "appended", detail)])
  }

  function Claimed(t: Tables, name: string, now: int, id: string): Tables
    requires name in t.schedules
  {
    var s := t.schedules[name];
    var claimed := s.(nextMs := now + s.everyMs, lastMessage := Some(id),
                      detail := "claimed; awaiting delivery receipt");
    Posted(t.(schedules := t.schedules[name := claimed]), Minted(s, name, id), "reminder")
  }

  function Retried(t: Tables, name: string, now: int): Tables
    requires name in t.schedules && t.schedules[name].lastMessage.Some?
    requires HasMail(t.mail, t.schedules[name].lastMessage.value)
  {
    var s := t.schedules[name];
    var id := s.lastMessage.value;
    t.(schedules := t.schedules[name := s.(nextMs := now + s.everyMs)],
       rows := t.rows + [Row(id, FindMail(t.mail, id).value.recipient, "submitted-to-harness",
                             "reminder retry claimed; outcome uncertain until receipt")])
  }

  function Expire(s: Schedule, now: int): Schedule {
    if s.status == Active && s.untilMs <= now then s.(status := Expired, detail := "expiry reached") else s
  }

  function ExpiredAll(t: Tables, now: int): Tables {
    t.(schedules := map n | n in t.schedules :: Expire(t.schedules[n], now))
  }

  predicate Cancellable(t: Tables, name: string) {
    name in t.schedules && t.schedules[name].status == Active
  }

  function Cancel(t: Tables, name: string): Tables
    requires name in t.schedules
  {
    t.(schedules := t.schedules[name := t.schedules[name].(status := Cancelled, detail := "cancelled by caller")])
  }

  // ------------------------------------------------------------- the database

  class Store {
    var routes: set<string>
    var schedules: map<string, Schedule>
    var mail: seq<Envelope>
    var rows: seq<Row>

    ghost function State(): Tables
      reads this
    {
      Tables(routes, schedules, mail, rows)
    }

    constructor (routes: set<string>)
      ensures State() == Tables(routes, map[], [], [])
    {
      this.routes, schedules, mail, rows := routes, map[], [], [];
    }

    method Add(name: string, route: string, body: string, every: int, until: int, now: int)
      returns (refusal: Option<AddError>)
      modifies this`schedules
      ensures refusal == AddRefusal(old(State()), name, route, body, every, until, now)
      ensures State() == if refusal.Some? then old(State())
                         else Added(old(State()), name, route, body, every, until, now)
    {
      if Blank(name) || Blank(body) {
        return Some(EmptyText);
      }
      if every <= 0 || until <= now {
        return Some(BadInterval);
      }
      if route !in routes {
        return Some(UnknownRoute);
      }
      if |ActiveNames(schedules)| >= MAX_ACTIVE {
        return Some(TooMany);
      }
      if now + every > I64_MAX {
        return Some(Overflow);
      }
      if name in schedules || RouteTaken(schedules, route) {
        return Some(Duplicate);
      }
      schedules := schedules[name := Schedule(route, body, every, until, now + every, Active, None, "")];
      return None;
    }

    /** The due time and the envelope commit together. */
    method Claim(name: string, now: int, id: string) returns (message: Option<Envelope>)
      modifies this`schedules, this`mail, this`rows
      ensures message.Some? <==> Claimable(old(State()), name, now)
      ensures message.Some? ==>
                var s, m := old(schedules)[name], message.value;
                && m.id == id && m.recipient == s.route && m.body == s.body && m.kind == "request"
                && m.from == PREFIX + name && m.reference == Some(PREFIX + name) && m.replyTo.None? && !m.taken
                && mail == old(mail) + [m]
      ensures State() == if message.Some? then Claimed(old(State()), name, now, id) else old(State())
    {
      if !Claimable(Tables(routes, schedules, mail, rows), name, now) {
        return None;
      }
      var s := schedules[name];
      schedules := schedules[name := s.(nextMs := now + s.everyMs, lastMessage := Some(id),
                                        detail := "claimed; awaiting delivery receipt")];
      var envelope := Minted(s, name, id);
      WriteMessage(envelope, "reminder");
      return Some(envelope);
    }

    method WriteMessage(m: Envelope, detail: string)
      modifies this`mail, this`rows
      ensures State() == Posted(old(State()), m, detail)
    {
      if !(exists i :: 0 <= i < |rows| && rows[i].message == m.id) {
        rows := rows + [Row(m.id, m.recipient, "appended", detail)];
      }
      mail := mail + [m];
    }

    /** Retry a recorded refusal with the same envelope, persisted before the door
        is crossed. */
    method Retry(name: string, now: int) returns (message: Option<Envelope>)
      modifies this`schedules, this`rows
      ensures message.Some? <==> Retryable(old(State()), name, now)
      ensures message.Some? ==> message.value in mail && Some(message.value.id) == old(schedules)[name].lastMessage
      ensures State() == if message.Some? then Retried(old(State()), name, now) else old(State())
    {
      if !Retryable(Tables(routes, schedules, mail, rows), name, now) {
        return None;
      }
      var s := schedules[name];
      var id := s.lastMessage.value;
      schedules := schedules[name := s.(nextMs := now + s.everyMs)];
      message := FindMail(mail, id);
      rows := rows + [Row(id, message.value.recipient, "submitted-to-harness",
                          "reminder retry claimed; outcome uncertain until receipt")];
    }

    method CancelSchedule(name: string) returns (done: bool)
      modifies this`schedules
      ensures done <==> Cancellable(old(State()), name)
      ensures State() == if done then Cancel(old(State()), name) else old(State())
    {
      done := name in schedules && schedules[name].status == Active;
      if done {
        schedules := schedules[name := schedules[name].(status := Cancelled, detail := "cancelled by caller")];
      }
    }

    method ExpireDue(now: int)
      modifies this`schedules
      ensures State() == ExpiredAll(old(State()), now)
    {
      schedules := map n | n in schedules :: Expire(schedules[n], now);
    }
  }
}
