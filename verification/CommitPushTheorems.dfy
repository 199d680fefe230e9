/** One push per lane, subscriber and head: what the commit push ledger keeps over
    every interleaving, and what a crash leaves behind. */
module CommitPushTheorems {
  import opened Text
  import opened Ladder
  import opened Admission
  import opened AdmissionTheorems
  import CommitRow

  /** The effect does not stand for its head: its receipt or its filing was lost. */
  predicate Dropped(e: Entry) {
    e.fate == Lost || e.fate == Unfiled
  }

  /** Of two bodies of one head of one lane at one subscriber, one was dropped. */
  ghost predicate OnePush(entries: seq<Entry>) {
    forall i, j :: 0 <= i < j < |entries| && entries[i].push.Some? && entries[i].push == entries[j].push
                   && entries[i].effect == Body && entries[j].effect == Body
             ==> Dropped(entries[i]) || Dropped(entries[j])
  }

  /** Past the ladder's check of the commit ledger, with the push still to be filed. */
  predicate PastCheck(pc: Pc) {
    pc.AtGate? || pc.PushNow? || (pc.Record? && pc.effect == Body) || pc.Ack? || pc.CommitNow?
  }

  /** The effect stands for this head: its body went over and its receipt is written. */
  predicate StandsFor(e: Entry, x: Push) {
    e.push == Some(x) && e.effect == Body && e.fate == Receipted
  }

  ghost predicate Backed(entries: seq<Entry>, x: Push) {
    exists i :: 0 <= i < |entries| && StandsFor(entries[i], x)
  }

  /** Every push on file has an effect that stands for it. */
  ghost predicate AllBacked(s: System) {
    forall x :: x in s.db.pushes ==> Backed(s.entries, x)
  }

  ghost predicate Unpushed(pushes: set<Push>, a: Attempt, pc: Pc) {
    PastCheck(pc) && PushOf(a.message).Some? ==> PushOf(a.message).value !in pushes
  }

  ghost predicate ByHolder(s: System, i: nat, e: Entry) {
    && e.route in s.locks && s.locks[e.route] < |s.procs|
    && var p := s.procs[s.locks[e.route]];
    HoldsFiling(p.attempt, p.pc) && p.entry == i
  }

  /** A receipted body of a commit is on file, or its attempt is about to file it. */
  ghost predicate FiledOk(s: System, i: nat)
    requires i < |s.entries|
  {
    var e := s.entries[i];
    && (e.push.Some? ==> e.push.value.subscriber == e.route)
    && (e.push.Some? && e.effect == Body && e.fate == Receipted ==> e.push.value in s.db.pushes || ByHolder(s, i, e))
  }

  ghost predicate PushInv(s: System) {
    && (forall p :: 0 <= p < |s.procs| ==> Unpushed(s.db.pushes, s.procs[p].attempt, s.procs[p].pc))
    && (forall i :: 0 <= i < |s.entries| ==> FiledOk(s, i))
    && OnePush(s.entries)
    && AllBacked(s)
  }

  // ------------------------------------------------------------------ one action

  /** The ladder hands a commit's body over only when its head is not on file. */
  lemma WalkChecks(pushes: set<Push>, routes: map<string, Route>, m: Message, w: World)
    requires PushOf(m).Some? && PushOf(m).value in pushes
    ensures var s := Walk(pushes, routes, m, w); s.Lands? && s.effect == Nothing
  {
    hide RouteWalk;
    hide CommitByDoor;
    hide CommitRow.CommitHead;
  }

  lemma AdmittingPushes(db: Db, a: Attempt, pc: Pc, lockFree: bool)
    requires Admits(pc)
    ensures var mv := Admitting(db, a, pc, lockFree);
            mv.db.pushes == db.pushes && mv.effect == Nothing && !PastCheck(mv.pc)
  {
    hide ReminderGone;
    hide LockTaken;
    hide DeliveryAccepted;
    hide NoticePasted;
    hide HasTransition;
  }

  lemma DeliveringPushes(db: Db, a: Attempt, pc: Pc)
    requires !Admits(pc) && Unpushed(db.pushes, a, pc) && (pc.Record? ==> Tells(pc.landing, pc.effect))
    ensures var mv := Delivering(db, a, pc);
            && Unpushed(mv.db.pushes, a, mv.pc)
            && mv.db.pushes == (if pc.CommitNow?
                                then db.pushes + {Push(a.message.sender, a.message.recipient, CommitRow.CommitHead(a.message.body))}
                                else db.pushes)
            && (mv.effect == Body && PushOf(a.message).Some? ==> PushOf(a.message).value !in db.pushes)
  {
    if PushOf(a.message).Some? && PushOf(a.message).value in db.pushes {
      WalkChecks(db.pushes, a.routes, a.message, a.world);
    }
    hide GateOf;
    hide Walk;
    hide DoorVerdict;
    hide PushAtDoor;
    hide Gated;
    hide CommitRow.CommitHead;
  }

  lemma ActPushes(db: Db, a: Attempt, pc: Pc, lockFree: bool)
    requires Unpushed(db.pushes, a, pc) && Sane(db.mail, a, pc)
    ensures var mv := Act(db, a, pc, lockFree);
            && Unpushed(mv.db.pushes, a, mv.pc)
            && mv.db.pushes == (if pc.CommitNow?
                                then db.pushes + {Push(a.message.sender, a.message.recipient, CommitRow.CommitHead(a.message.body))}
                                else db.pushes)
            && (mv.effect == Body && PushOf(a.message).Some? ==> PushOf(a.message).value !in db.pushes)
  {
    hide Admitting;
    hide Delivering;
    hide Tells;
    hide PushOf;
    hide CommitRow.CommitHead;
    if Admits(pc) {
      AdmittingPushes(db, a, pc, lockFree);
    } else {
      DeliveringPushes(db, a, pc);
    }
  }

  /** How one action moves the filing. */
  lemma ActFiles(db: Db, a: Attempt, pc: Pc, lockFree: bool)
    requires Sane(db.mail, a, pc)
    ensures var next := Act(db, a, pc, lockFree).pc;
            && (HoldsFiling(a, pc) ==> HoldsFiling(a, next) || pc.CommitNow?)
            && (HoldsEffect(pc) && pc.effect == Body && a.message.kind.Commit? ==> HoldsFiling(a, next))
  {
    hide Walk;
    hide DoorVerdict;
    hide PushAtDoor;
    hide Gated;
    hide PushDetail;
  }

  // ------------------------------------------------------------------- the steps

  lemma RunUnpushed(s: System, p: nat)
    requires p < |s.procs| && LocksOk(s) && PushInv(s) && Sane(s.db.mail, s.procs[p].attempt, s.procs[p].pc)
    ensures var n := RunStep(s, p);
            forall q :: 0 <= q < |n.procs| ==> Unpushed(n.db.pushes, n.procs[q].attempt, n.procs[q].pc)
  {
    var a, pc := s.procs[p].attempt, s.procs[p].pc;
    ActPushes(s.db, a, pc, a.message.recipient !in s.locks);
    var n := RunStep(s, p);
    hide Act;
    hide CommitRow.CommitHead;
    forall q | 0 <= q < |n.procs|
      ensures Unpushed(n.db.pushes, n.procs[q].attempt, n.procs[q].pc)
    {
      assert Unpushed(s.db.pushes, s.procs[q].attempt, s.procs[q].pc);
      if q != p && pc.CommitNow? && PastCheck(s.procs[q].pc) {
        OtherRoute(s, p, q);
      }
    }
  }

  /** A new body of a head that an earlier effect stands for cannot be. */
  lemma NoneStands(s: System, p: nat, i: nat)
    requires p < |s.procs| && i < |s.entries| && LocksOk(s) && EntryOk(s, i) && FiledOk(s, i)
    requires var a, pc := s.procs[p].attempt, s.procs[p].pc;
             Locked(pc) && !HoldsEffect(pc) && !HoldsFiling(a, pc)
             && PushOf(a.message).Some? && PushOf(a.message).value !in s.db.pushes
             && s.entries[i].push == PushOf(a.message) && s.entries[i].effect == Body
    ensures Dropped(s.entries[i])
  {
    hide Receipt;
    hide CommitRow.CommitHead;
  }

  lemma BackedStays(entries: seq<Entry>, next: seq<Entry>, k: nat, x: Push)
    requires Backed(entries, x) && |entries| <= |next|
    requires forall i :: 0 <= i < |entries| && i != k ==> next[i] == entries[i]
    requires k < |entries| && StandsFor(entries[k], x) ==> StandsFor(next[k], x)
    ensures Backed(next, x)
  {
    var i :| 0 <= i < |entries| && StandsFor(entries[i], x);
    assert StandsFor(next[i], x);
  }

  lemma BackedGrows(s: System, n: System, e: Entry)
    requires AllBacked(s) && n.entries == s.entries + [e] && n.db.pushes == s.db.pushes
    ensures AllBacked(n)
  {
    forall x | x in n.db.pushes
      ensures Backed(n.entries, x)
    {
      BackedStays(s.entries, n.entries, |s.entries|, x);
    }
  }

  lemma RunNewEntry(s: System, p: nat)
    requires p < |s.procs| && LocksOk(s) && EntriesOk(s) && PushInv(s)
    requires var a, pc := s.procs[p].attempt, s.procs[p].pc;
             Sane(s.db.mail, a, pc) && Act(s.db, a, pc, a.message.recipient !in s.locks).effect != Nothing
    ensures PushInv(RunStep(s, p))
  {
    RunUnpushed(s, p);
    var a, pc := s.procs[p].attempt, s.procs[p].pc;
    var m, lockFree := a.message, a.message.recipient !in s.locks;
    ActEffect(s.db, a, pc, lockFree);
    ActPushes(s.db, a, pc, lockFree);
    var mv := Act(s.db, a, pc, lockFree);
    var n := RunStep(s, p);
    var e := Entry(m.id, m.recipient, mv.effect, PushOf(m), InHand);
    RunStepped(s, p);
    BackedGrows(s, n, e);
    hide AllBacked;
    hide Sane;
    hide Act;
    hide RunStep;
    hide CommitRow.CommitHead;
    hide EntryOk;
    forall i | 0 <= i < |s.entries| && e.push.Some? && s.entries[i].push == e.push && s.entries[i].effect == Body && e.effect == Body
      ensures Dropped(s.entries[i])
    {
      NoneStands(s, p, i);
    }
    forall i | 0 <= i < |n.entries|
      ensures FiledOk(n, i)
    {
      if i < |s.entries| {
        assert FiledOk(s, i);
      }
    }
    assert OnePush(n.entries);
  }

  lemma RunOldEntries(s: System, p: nat)
    requires p < |s.procs| && LocksOk(s) && EntriesOk(s) && PushInv(s)
    requires var a, pc := s.procs[p].attempt, s.procs[p].pc;
             Sane(s.db.mail, a, pc) && Act(s.db, a, pc, a.message.recipient !in s.locks).effect == Nothing
    ensures PushInv(RunStep(s, p))
  {
    RunUnpushed(s, p);
    var a, pc, k := s.procs[p].attempt, s.procs[p].pc, s.procs[p].entry;
    var m, lockFree := a.message, a.message.recipient !in s.locks;
    ActEffect(s.db, a, pc, lockFree);
    ActPushes(s.db, a, pc, lockFree);
    ActFiles(s.db, a, pc, lockFree);
    var mv := Act(s.db, a, pc, lockFree);
    var n := RunStep(s, p);
    RunStepped(s, p);
    assert HolderOk(s, p);
    hide Act;
    hide RunStep;
    hide CommitRow.CommitHead;
    hide EntryOk;
    hide LedgerOk;
    hide ProcsOk;
    forall i | 0 <= i < |n.entries|
      ensures FiledOk(n, i)
    {
      assert FiledOk(s, i);
      FiledKept(s, n, p, i, a, mv.pc);
    }
    assert OnePush(n.entries);
    RunBacked(s, n, p);
  }

  /** A push is filed for a receipted body, and receipts are never taken back. */
  lemma RunBacked(s: System, n: System, p: nat)
    requires p < |s.procs| && HolderOk(s, p) && AllBacked(s) && Sane(s.db.mail, s.procs[p].attempt, s.procs[p].pc)
    requires var a, pc, k := s.procs[p].attempt, s.procs[p].pc, s.procs[p].entry;
             && n.entries == (if HoldsEffect(pc) then Marked(s.entries, k, Receipted) else s.entries)
             && n.db.pushes == (if pc.CommitNow?
                                then s.db.pushes + {Push(a.message.sender, a.message.recipient, CommitRow.CommitHead(a.message.body))}
                                else s.db.pushes)
    ensures AllBacked(n)
  {
    var k := s.procs[p].entry;
    hide CommitRow.CommitHead;
    hide Tells;
    hide PushDetail;
    forall x | x in n.db.pushes
      ensures Backed(n.entries, x)
    {
      if x in s.db.pushes {
        BackedStays(s.entries, n.entries, k, x);
      } else {
        assert StandsFor(n.entries[k], x);
      }
    }
  }

  /** An entry that stood for its head, or had its filing still to come, does after
      the holder's step as well. */
  lemma FiledKept(s: System, n: System, p: nat, i: nat, a: Attempt, next: Pc)
    requires p < |s.procs| && i < |s.entries| && LocksOk(s) && FiledOk(s, i) && a == s.procs[p].attempt
    requires EntriesOk(s)
    requires var pc, k, m := s.procs[p].pc, s.procs[p].entry, a.message;
             && n.procs == s.procs[p := Proc(a, next, k)]
             && n.entries == (if HoldsEffect(pc) then Marked(s.entries, k, Receipted) else s.entries)
             && (n.locks == s.locks
                 || (!Locked(pc) && m.recipient !in s.locks && n.locks == s.locks[m.recipient := p])
                 || (pc.Release? && n.locks == Without(s.locks, m.recipient)))
             && s.db.pushes <= n.db.pushes
             && (pc.CommitNow? && PushOf(m).Some? ==> PushOf(m).value in n.db.pushes)
             && (HoldsFiling(a, pc) ==> HoldsFiling(a, next) || pc.CommitNow?)
             && (HoldsEffect(pc) && pc.effect == Body && m.kind.Commit? ==> HoldsFiling(a, next) && n.locks == s.locks)
             && HolderOk(s, p)
    ensures i < |n.entries| && FiledOk(n, i)
  {
    hide CommitRow.CommitHead;
    hide EntryOk;
  }

  lemma CrashPushes(s: System, p: nat)
    requires p < |s.procs| && LocksOk(s) && EntriesOk(s) && PushInv(s)
    ensures PushInv(CrashStep(s, p))
  {
    var n := CrashStep(s, p);
    var a, pc, k := s.procs[p].attempt, s.procs[p].pc, s.procs[p].entry;
    hide CommitRow.CommitHead;
    hide EntryOk;
    assert HolderOk(s, p);
    forall q | 0 <= q < |n.procs|
      ensures Unpushed(n.db.pushes, n.procs[q].attempt, n.procs[q].pc)
    {
      assert Unpushed(s.db.pushes, s.procs[q].attempt, s.procs[q].pc);
    }
    forall i | 0 <= i < |n.entries|
      ensures FiledOk(n, i)
    {
      assert FiledOk(s, i);
    }
    assert OnePush(n.entries);
    assert Unpushed(s.db.pushes, a, pc);
    forall x | x in n.db.pushes
      ensures Backed(n.entries, x)
    {
      BackedStays(s.entries, n.entries, k, x);
    }
  }

  lemma NextPushes(s: System, e: Step)
    requires Inv(s) && PushInv(s) && Allowed(s, e)
    ensures PushInv(Next(s, e))
  {
    if e.Run? {
      var a, pc := s.procs[e.p].attempt, s.procs[e.p].pc;
      assert Sane(s.db.mail, a, pc);
      hide RunStep;
      hide PushInv;
      hide Act;
      hide Sane;
      hide LedgerOk;
      hide EntriesOk;
      hide LocksOk;
      if Act(s.db, a, pc, a.message.recipient !in s.locks).effect != Nothing {
        RunNewEntry(s, e.p);
      } else {
        RunOldEntries(s, e.p);
      }
    } else if e.Crash? {
      CrashPushes(s, e.p);
    } else {
      OthersPush(s, e);
    }
  }

  lemma OthersPush(s: System, e: Step)
    requires Inv(s) && PushInv(s) && Allowed(s, e) && !e.Run? && !e.Crash?
    ensures PushInv(Next(s, e))
  {
    hide CommitRow.CommitHead;
    hide EntryOk;
    hide LedgerOk;
    hide ProcsOk;
    var n := Next(s, e);
    assert n.entries == s.entries && n.locks == s.locks && n.db.pushes == s.db.pushes;
    assert forall q :: 0 <= q < |s.procs| ==> n.procs[q] == s.procs[q];
    forall i | 0 <= i < |n.entries|
      ensures FiledOk(n, i)
    {
      assert FiledOk(s, i);
    }
  }

  lemma {:induction false} RunsPush(s: System, steps: seq<Step>, t: System)
    requires Inv(s) && PushInv(s) && Reaches(s, steps, t)
    ensures PushInv(t)
    decreases |steps|
  {
    hide Inv;
    hide PushInv;
    hide Next;
    if steps != [] {
      NextKeeps(s, steps[0]);
      NextPushes(s, steps[0]);
      RunsPush(Next(s, steps[0]), steps[1..], t);
    }
  }

  /** Over every interleaving, two bodies of one head of a lane at one subscriber,
      in whatever messages, mean a crash between a transport's answer and the filing
      of its commit push. */
  lemma OnePushPerHead(mail: seq<Message>, steps: seq<Step>, s: System)
    requires Reaches(Initial(mail), steps, s)
    ensures OnePush(s.entries)
    ensures forall i :: 0 <= i < |s.entries| ==> FiledOk(s, i)
  {
    RunsPush(Initial(mail), steps, s);
  }

  /** Between attempts the ledger of commit pushes is exactly the receipted bodies: a
      head is on file if and only if an effect stands for it. */
  lemma OnFileIff(mail: seq<Message>, steps: seq<Step>, s: System, x: Push)
    requires Reaches(Initial(mail), steps, s) && x.subscriber !in s.locks
    ensures x in s.db.pushes <==> Backed(s.entries, x)
  {
    RunsPush(Initial(mail), steps, s);
    hide CommitRow.CommitHead;
    if Backed(s.entries, x) {
      var i :| 0 <= i < |s.entries| && StandsFor(s.entries[i], x);
      assert FiledOk(s, i);
    }
  }
}
