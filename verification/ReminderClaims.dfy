/** What a claim sends: which envelope, to whom, saying what, and how long readers may
    hand it over. */
module ReminderClaims {
  import opened Text
  import opened Reminder
  import opened ReminderTheorems

  /** A reminder of this schedule, not yet taken. */
  predicate RemindsOf(m: Envelope, s: Schedule, name: string, id: string) {
    && m.id == id && m.from == PREFIX + name && m.recipient == s.route && m.kind == "request"
    && m.replyTo.None? && m.body == s.body && m.reference == Some(PREFIX + name)
  }

  predicate HasRows(rows: seq<Row>, id: string) {
    exists i :: 0 <= i < |rows| && rows[i].message == id
  }

  /** A successful claim puts one envelope in the mailbox, to the schedule's route with
      the schedule's text, and opens its ledger there unless it has rows already. */
  lemma ClaimSends(t: Tables, name: string, now: int, id: string)
    requires Claimable(t, name, now)
    ensures var s, next := t.schedules[name], StepTables(t, Claim(name, now, id));
            && |next.mail| == |t.mail| + 1 && next.mail[..|t.mail|] == t.mail
            && RemindsOf(next.mail[|t.mail|], s, name, id) && !next.mail[|t.mail|].taken
            && next.rows == t.rows + (if HasRows(t.rows, id) then [] else [Row(id, s.route, "appended", "reminder")])
            && next.routes == t.routes && next.schedules.Keys == t.schedules.Keys
            && (forall n :: n in t.schedules && n != name ==> next.schedules[n] == t.schedules[n])
            && next.schedules[name] == s.(nextMs := now + s.everyMs, lastMessage := Some(id),
                                          detail := "claimed; awaiting delivery receipt")
  {
    assert name in t.schedules;
    PostedSchedules(t, Claim(name, now, id));
    hide Claimable;
    assert t.rows + [] == t.rows;
  }

  // ----------------------------------------------------------------- over runs

  /** The schedule is active and this envelope is its last. */
  predicate Live(t: Tables, name: string, id: string) {
    name in t.schedules && t.schedules[name].status == Active && t.schedules[name].lastMessage == Some(id)
  }

  /** What supersedes an envelope or ends its schedule: a cancel, an expiry past the
      schedule's end, or its next claim. */
  predicate Stops(t: Tables, e: Event, name: string)
    requires name in t.schedules
  {
    match e
    case CancelOne(n) => n == name
    case ExpireAll(now) => t.schedules[name].untilMs <= now
    case Claim(n, now, _) => n == name && Claimable(t, n, now)
    case _ => false
  }

  lemma StatusMoves(t: Tables, e: Event, name: string)
    requires name in t.schedules
    ensures name in StepTables(t, e).schedules
    ensures var s, u := t.schedules[name], StepTables(t, e).schedules[name];
            u.status == Active <==>
              s.status == Active && !(e.CancelOne? && e.name == name) && !(e.ExpireAll? && s.untilMs <= e.now)
  {
    hide HasOutcome;
    hide LatestIn;
    hide Complete;
    hide Posted;
    PostedSchedules(t, e);
  }

  lemma LiveStep(t: Trail, e: Event, name: string, id: string)
    requires name in t.tables.schedules && FreshIds(t, e) && HasMail(t.tables.mail, id)
    ensures Live(StepTables(t.tables, e), name, id) <==> Live(t.tables, name, id) && !Stops(t.tables, e, name)
    ensures HasMail(StepTables(t.tables, e).mail, id)
  {
    ScheduleMoves(t.tables, e, name);
    StatusMoves(t.tables, e, name);
    NothingLost(t.tables, e, id, "");
    hide StepTables;
    hide HasMail;
    hide Complete;
    hide Claimable;
    hide Retryable;
  }

  /** Some later event stopped it. */
  ghost predicate Stopped(events: seq<Event>, after: seq<Event>, name: string) {
    exists k :: 0 <= k < |after| && StopsAt(events, after, name, k)
  }

  ghost predicate StopsAt(events: seq<Event>, after: seq<Event>, name: string, k: nat)
    requires k < |after|
  {
    var t := Run(events + after[..k]).tables;
    name in t.schedules && Stops(t, after[k], name)
  }

  lemma RunSplits(all: seq<Event>, init: seq<Event>, e: Event)
    requires all == init + [e]
    ensures Run(all) == Step(Run(init), e)
    ensures Fresh(all) ==> Fresh(init) && FreshIds(Run(init), e)
  {
    assert all[..|all| - 1] == init;
    hide Step;
    hide FreshIds;
  }

  lemma RunSnoc(events: seq<Event>, after: seq<Event>)
    requires after != []
    ensures Run(events + after) == Step(Run(events + after[..|after| - 1]), after[|after| - 1])
    ensures Fresh(events + after) ==>
              Fresh(events + after[..|after| - 1]) && FreshIds(Run(events + after[..|after| - 1]), after[|after| - 1])
  {
    hide *;
    assert events + after == events + after[..|after| - 1] + [after[|after| - 1]];
    RunSplits(events + after, events + after[..|after| - 1], after[|after| - 1]);
  }

  lemma StoppedSnoc(events: seq<Event>, after: seq<Event>, name: string)
    requires after != []
    ensures Stopped(events, after, name) <==>
              Stopped(events, after[..|after| - 1], name) || StopsAt(events, after, name, |after| - 1)
  {
    var init := after[..|after| - 1];
    forall k | 0 <= k < |init|
      ensures StopsAt(events, init, name, k) <==> StopsAt(events, after, name, k)
    {
      assert init[..k] == after[..k];
    }
    hide StopsAt;
  }

  /** An envelope that was live stays so exactly until something stops it. */
  lemma {:induction false} LiveIff(events: seq<Event>, after: seq<Event>, name: string, id: string)
    requires Fresh(events + after)
    requires var t := Run(events).tables; Live(t, name, id) && HasMail(t.mail, id)
    ensures var t := Run(events + after).tables;
            && name in t.schedules && HasMail(t.mail, id)
            && (Live(t, name, id) <==> !Stopped(events, after, name))
            && t.schedules[name].untilMs == Run(events).tables.schedules[name].untilMs
            && t.schedules[name].route == Run(events).tables.schedules[name].route
            && t.schedules[name].body == Run(events).tables.schedules[name].body
    decreases |after|
  {
    if after == [] {
      assert events + after == events;
    } else {
      var n := |after| - 1;
      RunSnoc(events, after);
      LiveIff(events, after[..n], name, id);
      StoppedSnoc(events, after, name);
      var before := Run(events + after[..n]);
      LiveStep(before, after[n], name, id);
      ScheduleMoves(before.tables, after[n], name);
      hide Run;
      hide Fresh;
      hide FreshIds;
      hide StepTables;
      hide Stops;
      hide Live;
      hide HasMail;
      hide Stopped;
    }
  }

  // ------------------------------------------------------------- the claim's own

  /** The envelope stands here and nowhere else. */
  ghost predicate OnlyHere(mail: seq<Envelope>, id: string, i: nat) {
    i < |mail| && mail[i].id == id && forall j :: 0 <= j < |mail| && j != i ==> mail[j].id != id
  }

  lemma OnlyHereStep(t: Trail, e: Event, id: string, i: nat)
    requires FreshIds(t, e) && OnlyHere(t.tables.mail, id, i)
    ensures var next := StepTables(t.tables, e);
            OnlyHere(next.mail, id, i) && next.mail[i].(taken := t.tables.mail[i].taken) == t.tables.mail[i]
  {
    StepGrows(t.tables, e);
    assert HasMail(t.tables.mail, id);
    MailStep(t.tables, e);
    hide StepTables;
  }

  /** A step adds at most one envelope, whose id the event names. */
  lemma MailStep(t: Tables, e: Event)
    ensures var next := StepTables(t, e);
            |next.mail| == |t.mail|
            || (|next.mail| == |t.mail| + 1
                && ((e.Claim? && next.mail[|t.mail|].id == e.id) || (e.Post? && next.mail[|t.mail|].id == e.envelope.id)))
  {
    hide HasOutcome;
    hide LatestIn;
    hide Complete;
  }

  lemma {:induction false} OnlyHereStays(events: seq<Event>, after: seq<Event>, id: string, i: nat)
    requires Fresh(events + after) && OnlyHere(Run(events).tables.mail, id, i)
    ensures var mail := Run(events + after).tables.mail;
            && OnlyHere(mail, id, i)
            && mail[i].(taken := Run(events).tables.mail[i].taken) == Run(events).tables.mail[i]
    decreases |after|
  {
    if after == [] {
      assert events + after == events;
    } else {
      RunSnoc(events, after);
      OnlyHereStays(events, after[..|after| - 1], id, i);
      OnlyHereStep(Run(events + after[..|after| - 1]), after[|after| - 1], id, i);
      hide Run;
      hide Fresh;
      hide FreshIds;
      hide StepTables;
      hide OnlyHere;
    }
  }

  /** Over every run: a claim that succeeded has its envelope in the mailbox once, to the
      schedule's route with the schedule's text, whatever came after. */
  lemma ClaimedOnce(events: seq<Event>, name: string, now: int, id: string, after: seq<Event>)
    requires Claimable(Run(events).tables, name, now) && Fresh(events + [Claim(name, now, id)] + after)
    ensures var t, mail := Run(events).tables, Run(events + [Claim(name, now, id)] + after).tables.mail;
            OnlyHere(mail, id, |t.mail|) && RemindsOf(mail[|t.mail|], t.schedules[name], name, id)
  {
    var base := events + [Claim(name, now, id)];
    FreshPrefix(base, after);
    RunSnoc(events, [Claim(name, now, id)]);
    assert events + [] == events && [Claim(name, now, id)][..0] == [];
    var t := Run(events).tables;
    ClaimSends(t, name, now, id);
    assert Run(base).tables == StepTables(t, Claim(name, now, id));
    hide Run;
    hide Fresh;
    hide StepTables;
    hide Claimable;
    var mail := Run(base).tables.mail;
    assert forall j :: 0 <= j < |t.mail| ==> mail[j] == mail[..|t.mail|][j];
    assert OnlyHere(mail, id, |t.mail|);
    OnlyHereStays(base, after, id, |t.mail|);
  }

  lemma {:induction false} FreshPrefix(events: seq<Event>, after: seq<Event>)
    requires Fresh(events + after)
    ensures Fresh(events)
    decreases |after|
  {
    if after == [] {
      assert events + after == events;
    } else {
      RunSnoc(events, after);
      hide Fresh;
      FreshPrefix(events, after[..|after| - 1]);
    }
  }

  /** Readers may hand a claimed envelope over from the claim until it is superseded, or
      its schedule is cancelled or expires, and not after. */
  lemma ClaimedIsActive(events: seq<Event>, name: string, now: int, id: string, after: seq<Event>, m: Envelope, then_: int)
    requires Claimable(Run(events).tables, name, now) && Fresh(events + [Claim(name, now, id)] + after)
    requires m.id == id && m.reference == Some(PREFIX + name)
    ensures MessageActive(Run(events + [Claim(name, now, id)] + after).tables, m, then_)
       <==> !Stopped(events + [Claim(name, now, id)], after, name) && then_ < Run(events).tables.schedules[name].untilMs
  {
    var base := events + [Claim(name, now, id)];
    RunSnoc(events, [Claim(name, now, id)]);
    assert events + [] == events && [Claim(name, now, id)][..0] == [];
    var t := Run(events).tables;
    ClaimSends(t, name, now, id);
    assert Run(base).tables == StepTables(t, Claim(name, now, id));
    var next := Run(base).tables;
    assert next.mail[|t.mail|].id == id && HasMail(next.mail, id);
    assert Live(next, name, id);
    hide StepTables;
    LiveIff(base, after, name, id);
    hide Run;
    hide Fresh;
    hide Stopped;
    assert HasPrefix(PREFIX + name, PREFIX) && (PREFIX + name)[|PREFIX|..] == name;
  }

  // ------------------------------------------------------------------- the retry

  /** The last envelope of each schedule is a reminder of it, the first with its id. */
  ghost predicate LastReminds(t: Tables) {
    forall n :: n in t.schedules && t.schedules[n].lastMessage.Some? ==>
      var id := t.schedules[n].lastMessage.value;
      FindMail(t.mail, id).Some? && RemindsOf(FindMail(t.mail, id).value, t.schedules[n], n, id)
  }

  lemma {:induction false} FindGrown(mail: seq<Envelope>, next: seq<Envelope>, id: string)
    requires HasMail(mail, id) && |mail| <= |next|
    requires forall i :: 0 <= i < |mail| ==> next[i].(taken := mail[i].taken) == mail[i]
    ensures FindMail(next, id).Some? && FindMail(next, id).value.(taken := FindMail(mail, id).value.taken) == FindMail(mail, id).value
  {
    if mail[0].id != id {
      assert forall i :: 0 <= i < |mail[1..]| ==> mail[1..][i] == mail[i + 1] && next[1..][i] == next[i + 1];
      FindGrown(mail[1..], next[1..], id);
    }
  }

  lemma {:induction false} FindNew(mail: seq<Envelope>, m: Envelope)
    requires !HasMail(mail, m.id)
    ensures FindMail(mail + [m], m.id) == Some(m)
  {
    if mail == [] {
      assert mail + [m] == [m];
    } else {
      assert (mail + [m])[1..] == mail[1..] + [m];
      assert forall i :: 0 <= i < |mail[1..]| ==> mail[1..][i] == mail[i + 1];
      FindNew(mail[1..], m);
    }
  }

  lemma LastStep(t: Trail, e: Event, n: string)
    requires LastReminds(t.tables) && FreshIds(t, e) && n in StepTables(t.tables, e).schedules
    requires StepTables(t.tables, e).schedules[n].lastMessage.Some?
    ensures var next := StepTables(t.tables, e);
            var id := next.schedules[n].lastMessage.value;
            FindMail(next.mail, id).Some? && RemindsOf(FindMail(next.mail, id).value, next.schedules[n], n, id)
  {
    var next := StepTables(t.tables, e);
    NewSchedule(t.tables, e);
    StepGrows(t.tables, e);
    assert n in t.tables.schedules;
    ScheduleMoves(t.tables, e, n);
    var id := next.schedules[n].lastMessage.value;
    if e.Claim? && e.name == n && Claimable(t.tables, n, e.now) {
      ClaimSends(t.tables, n, e.now, e.id);
      var m := next.mail[|t.tables.mail|];
      assert next.mail == t.tables.mail + [m];
      FindNew(t.tables.mail, m);
    } else {
      hide StepTables;
      assert t.tables.schedules[n].lastMessage == Some(id);
      FindGrown(t.tables.mail, next.mail, id);
    }
  }

  lemma {:induction false} LastRemindsRun(events: seq<Event>)
    requires Fresh(events)
    ensures LastReminds(Run(events).tables)
  {
    if events != [] {
      var before, e := Run(events[..|events| - 1]), events[|events| - 1];
      LastRemindsRun(events[..|events| - 1]);
      forall n | n in StepTables(before.tables, e).schedules && StepTables(before.tables, e).schedules[n].lastMessage.Some?
        ensures var next := StepTables(before.tables, e);
                var id := next.schedules[n].lastMessage.value;
                FindMail(next.mail, id).Some? && RemindsOf(FindMail(next.mail, id).value, next.schedules[n], n, id)
      {
        LastStep(before, e, n);
      }
      hide StepTables;
      hide FreshIds;
      hide RemindsOf;
    }
  }

  /** What a retry sends again, and where the row that precedes it stands. */
  ghost predicate SendsAgain(t: Tables, name: string, now: int) {
    && name in t.schedules
    && var s, next := t.schedules[name], StepTables(t, Retry(name, now));
    && s.lastMessage.Some? && FindMail(t.mail, s.lastMessage.value).Some?
    && RemindsOf(FindMail(t.mail, s.lastMessage.value).value, s, name, s.lastMessage.value)
    && next.mail == t.mail
    && next.rows == t.rows + [Row(s.lastMessage.value, s.route, "submitted-to-harness",
                                  "reminder retry claimed; outcome uncertain until receipt")]
    && next.schedules == t.schedules[name := s.(nextMs := now + s.everyMs)]
  }

  lemma RetryStep(t: Tables, name: string, now: int)
    requires LastReminds(t) && Retryable(t, name, now)
    ensures SendsAgain(t, name, now)
  {
    hide HasOutcome;
    hide LatestIn;
    hide FindMail;
  }

  /** Over every run a retry goes to the schedule's route, with the schedule's text in the
      envelope of its last claim, and writes one row there before the door is tried. */
  lemma RetrySends(events: seq<Event>, name: string, now: int)
    requires Fresh(events) && Retryable(Run(events).tables, name, now)
    ensures SendsAgain(Run(events).tables, name, now)
  {
    hide *;
    LastRemindsRun(events);
    RetryStep(Run(events).tables, name, now);
  }

  // ----------------------------------------------------- when a schedule may fire

  /** The newest row of a message says one of these. */
  ghost predicate NewestSays(rows: seq<Row>, id: string, outcomes: set<string>) {
    exists i: nat :: NewestAt(rows, id, i) && rows[i].outcome in outcomes
  }

  ghost predicate NewestAt(rows: seq<Row>, id: string, i: nat) {
    i < |rows| && rows[i].message == id && forall j :: i < j < |rows| ==> rows[j].message != id
  }

  lemma {:induction false} LatestIsNewest(rows: seq<Row>, id: string, outcomes: set<string>)
    ensures LatestIn(rows, id, outcomes) <==> NewestSays(rows, id, outcomes)
  {
    if rows != [] {
      var init, last := rows[..|rows| - 1], rows[|rows| - 1];
      LatestIsNewest(init, id, outcomes);
      if last.message == id {
        assert NewestAt(rows, id, |rows| - 1);
      } else {
        NewestBefore(rows, id, outcomes);
      }
    }
  }

  lemma NewestBefore(rows: seq<Row>, id: string, outcomes: set<string>)
    requires rows != [] && rows[|rows| - 1].message != id
    ensures NewestSays(rows, id, outcomes) <==> NewestSays(rows[..|rows| - 1], id, outcomes)
  {
    var init := rows[..|rows| - 1];
    if NewestSays(rows, id, outcomes) {
      var i: nat :| NewestAt(rows, id, i) && rows[i].outcome in outcomes;
      assert NewestAt(init, id, i) && init[i] == rows[i];
    }
    if NewestSays(init, id, outcomes) {
      var i: nat :| NewestAt(init, id, i) && init[i].outcome in outcomes;
      assert NewestAt(rows, id, i) && init[i] == rows[i];
    }
  }

  /** Every envelope the schedule ever fired has its completion. */
  ghost predicate AllComplete(t: Trail, name: string)
    requires name in t.tables.schedules
  {
    forall f :: f in FiresOf(t.fires, name) ==> Complete(t.tables, f.id, t.tables.schedules[name].route)
  }

  /** No envelope the schedule ever fired is at work in a harness. */
  ghost predicate AllQuiet(t: Trail, name: string)
    requires name in t.tables.schedules
  {
    forall f :: f in FiresOf(t.fires, name) ==> !InFlight(t.tables, f.id, t.tables.schedules[name].route)
  }

  /** Of what a schedule fired only the newest can be open, so it decides for all. */
  lemma NewestDecides(t: Trail, name: string)
    requires AllOrderly(t) && name in t.tables.schedules
    ensures var s := t.tables.schedules[name];
            if s.lastMessage.None? then AllComplete(t, name) && AllQuiet(t, name)
            else
              && (Complete(t.tables, s.lastMessage.value, s.route) <==> AllComplete(t, name))
              && (InFlight(t.tables, s.lastMessage.value, s.route) <==> !AllQuiet(t, name))
  {
    hide Complete;
    hide LatestIn;
    var s, fires := t.tables.schedules[name], FiresOf(t.fires, name);
    assert Orderly(t.tables, s, fires);
    if s.lastMessage.Some? {
      var last := fires[|fires| - 1];
      assert last in fires && s.lastMessage == Some(last.id);
      forall f | f in fires && f.id != last.id
        ensures Complete(t.tables, f.id, s.route)
      {
        var i :| 0 <= i < |fires| && fires[i] == f;
      }
    }
  }

  /** Over every run a schedule may claim exactly when it is active and due, every
      envelope it ever fired is complete, and no envelope another schedule ever fired at
      its route is in flight. */
  lemma ClaimableIff(events: seq<Event>, name: string, now: int)
    ensures var t := Run(events);
            Claimable(t.tables, name, now) <==>
              && name in t.tables.schedules
              && var s := t.tables.schedules[name];
              && s.status == Active && s.nextMs <= now && now < s.untilMs && AllComplete(t, name)
              && forall other :: other in t.tables.schedules && other != name && t.tables.schedules[other].route == s.route
                   ==> AllQuiet(t, other)
  {
    OnlyNewestOpen(events);
    hide Run;
    ClaimableOn(Run(events), name, now);
  }

  lemma ClaimableOn(t: Trail, name: string, now: int)
    requires AllOrderly(t)
    ensures Claimable(t.tables, name, now) <==>
              && name in t.tables.schedules
              && var s := t.tables.schedules[name];
              && s.status == Active && s.nextMs <= now && now < s.untilMs && AllComplete(t, name)
              && forall other :: other in t.tables.schedules && other != name && t.tables.schedules[other].route == s.route
                   ==> AllQuiet(t, other)
  {
    hide Complete;
    hide InFlight;
    hide AllOrderly;
    hide AllComplete;
    hide AllQuiet;
    forall n | n in t.tables.schedules {
      NewestDecides(t, n);
    }
  }

  /** A retry is due exactly when the newest word on the last envelope refuses it, it is
      still unread, and no harness ever accepted it. */
  lemma RetryableIff(t: Tables, name: string, now: int)
    ensures Retryable(t, name, now) <==>
              && name in t.schedules
              && var s := t.schedules[name];
              && s.status == Active && s.nextMs <= now && now < s.untilMs && s.lastMessage.Some?
              && NewestSays(t.rows, s.lastMessage.value,
                            {"held-in-mailbox", "held-for-turn-boundary", "cooled-off", "rejected-by-harness"})
              && (exists i :: 0 <= i < |t.mail| && t.mail[i].id == s.lastMessage.value && !t.mail[i].taken)
              && (forall i :: 0 <= i < |t.rows| && t.rows[i].message == s.lastMessage.value
                    ==> t.rows[i].outcome != "accepted-by-harness" && t.rows[i].outcome != "turn-ended")
  {
    if name in t.schedules && t.schedules[name].lastMessage.Some? {
      LatestIsNewest(t.rows, t.schedules[name].lastMessage.value, REFUSED);
    }
    hide LatestIn;
    hide NewestSays;
  }
}
