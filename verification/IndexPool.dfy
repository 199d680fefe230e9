/** The index pool of the exact lookup: workers draw group indexes from one shared
    counter, and the joined lists are put back in index order. */
module IndexPool {

  /** What one worker is doing, and the indexes it has listed, in its own order. */
  datatype Worker = Drawing(done: seq<nat>) | Walking(done: seq<nat>, index: nat) | Returned(done: seq<nat>)

  /** The shared counter, the end of the range, and every worker. */
  datatype Pool = Pool(next: nat, end: nat, workers: seq<Worker>)

  function Start(begin: nat, end: nat, workers: nat): Pool {
    Pool(begin, end, seq(workers, _ => Drawing([])))
  }

  /** One step of worker `w`: draw the next index atomically, or finish its walk. */
  function StepWorker(p: Pool, w: nat): Pool
    requires w < |p.workers|
  {
    match p.workers[w]
    case Drawing(done) =>
      if p.next >= p.end then Pool(p.next + 1, p.end, p.workers[w := Returned(done)])
      else Pool(p.next + 1, p.end, p.workers[w := Walking(done, p.next)])
    case Walking(done, index) => p.(workers := p.workers[w := Drawing(done + [index])])
    case Returned(_) => p
  }

  /** Any schedule: the workers named, one step each, in this order. */
  function RunPool(p: Pool, schedule: seq<nat>): Pool
    requires forall i :: 0 <= i < |schedule| ==> schedule[i] < |p.workers|
    decreases |schedule|
  {
    if schedule == [] then p else RunPool(StepWorker(p, schedule[0]), schedule[1..])
  }

  predicate AllReturned(p: Pool) {
    forall w :: 0 <= w < |p.workers| ==> p.workers[w].Returned?
  }

  /** The workers' lists, joined in worker order. */
  function Joined(workers: seq<Worker>): seq<nat> {
    if workers == [] then [] else Joined(workers[..|workers| - 1]) + workers[|workers| - 1].done
  }

  function Range(begin: nat, end: nat): (r: seq<nat>)
    ensures |r| == if begin <= end then end - begin else 0
    ensures forall i :: 0 <= i < |r| ==> r[i] == begin + i
    decreases end - begin
  {
    if begin >= end then [] else Range(begin, end - 1) + [end - 1]
  }

  // ------------------------------------------------------------------ sorting

  /** Insertion before the later elements that are larger. */
  function Insert(x: nat, s: seq<nat>): seq<nat> {
    if s == [] || s[|s| - 1] <= x then s + [x] else Insert(x, s[..|s| - 1]) + [s[|s| - 1]]
  }

  function Sorted(s: seq<nat>): seq<nat> {
    if s == [] then [] else Insert(s[|s| - 1], Sorted(s[..|s| - 1]))
  }

  function Count(s: seq<nat>, x: nat): nat {
    if s == [] then 0 else Count(s[..|s| - 1], x) + if s[|s| - 1] == x then 1 else 0
  }

  ghost predicate Ordered(s: seq<nat>) {
    forall i, j :: 0 <= i < j < |s| ==> s[i] <= s[j]
  }

  lemma CountSnoc(s: seq<nat>, y: nat, x: nat)
    ensures Count(s + [y], x) == Count(s, x) + if x == y then 1 else 0
  {
    assert (s + [y])[..|s|] == s;
  }

  lemma {:induction false} CountIn(s: seq<nat>, i: nat)
    requires i < |s|
    ensures Count(s, s[i]) >= 1
  {
    if i < |s| - 1 {
      CountIn(s[..|s| - 1], i);
    }
  }

  lemma {:induction false} CountFinds(s: seq<nat>, x: nat) returns (i: nat)
    requires Count(s, x) >= 1
    ensures i < |s| && s[i] == x
  {
    if s[|s| - 1] == x {
      i := |s| - 1;
    } else {
      i := CountFinds(s[..|s| - 1], x);
    }
  }

  lemma {:induction false} CountJoin(a: seq<nat>, b: seq<nat>, x: nat)
    ensures Count(a + b, x) == Count(a, x) + Count(b, x)
  {
    if b == [] {
      assert a + b == a;
    } else {
      CountJoin(a, b[..|b| - 1], x);
      assert (a + b)[..|a + b| - 1] == a + b[..|b| - 1];
    }
  }

  lemma {:induction false} InsertOrdered(x: nat, s: seq<nat>)
    requires Ordered(s)
    ensures Ordered(Insert(x, s)) && |Insert(x, s)| == |s| + 1
    ensures forall i :: 0 <= i < |Insert(x, s)| ==> Insert(x, s)[i] == x || Insert(x, s)[i] in s
    ensures forall y: nat :: Count(Insert(x, s), y) == Count(s, y) + if x == y then 1 else 0
  {
    if s == [] || s[|s| - 1] <= x {
      forall y: nat
        ensures Count(s + [x], y) == Count(s, y) + if x == y then 1 else 0
      {
        CountSnoc(s, x, y);
      }
    } else {
      InsertOrdered(x, s[..|s| - 1]);
      forall y: nat
        ensures Count(Insert(x, s), y) == Count(s, y) + if x == y then 1 else 0
      {
        CountSnoc(Insert(x, s[..|s| - 1]), s[|s| - 1], y);
      }
    }
  }

  /** Sorting orders the list and keeps every element as often as it occurred. */
  lemma {:induction false} SortedIsOrdered(s: seq<nat>)
    ensures Ordered(Sorted(s))
    ensures forall x: nat :: Count(Sorted(s), x) == Count(s, x)
  {
    if s != [] {
      SortedIsOrdered(s[..|s| - 1]);
      InsertOrdered(s[|s| - 1], Sorted(s[..|s| - 1]));
    }
  }

  ghost predicate OnceEach(s: seq<nat>, begin: nat, end: nat) {
    forall x: nat :: Count(s, x) == if begin <= x < end then 1 else 0
  }

  /** An ordered list holding each index of a range once is the range. */
  lemma {:induction false} OrderedRange(s: seq<nat>, begin: nat, end: nat)
    requires Ordered(s) && begin <= end && OnceEach(s, begin, end)
    ensures s == Range(begin, end)
    decreases end
  {
    if s == [] {
      assert Count(s, begin) == 0;
    } else {
      var n := |s| - 1;
      CountIn(s, n);
      var i := CountFinds(s, end - 1);
      assert s[n] == end - 1;
      forall x: nat
        ensures Count(s[..n], x) == if begin <= x < end - 1 then 1 else 0
      {
        assert Count(s, x) == if begin <= x < end then 1 else 0;
      }
      OrderedRange(s[..n], begin, end - 1);
    }
  }

  // ------------------------------------------------------------ every schedule

  /** How often one worker has drawn an index: listed it, or is walking it. */
  function Draws(w: Worker, x: nat): nat {
    Count(w.done, x) + if w.Walking? && w.index == x then 1 else 0
  }

  function AllDraws(workers: seq<Worker>, x: nat): nat {
    if workers == [] then 0 else AllDraws(workers[..|workers| - 1], x) + Draws(workers[|workers| - 1], x)
  }

  lemma {:induction false} DrawsUpdate(workers: seq<Worker>, w: nat, next: Worker, x: nat)
    requires w < |workers|
    ensures AllDraws(workers[w := next], x) + Draws(workers[w], x) == AllDraws(workers, x) + Draws(next, x)
  {
    var n := |workers| - 1;
    if w < n {
      DrawsUpdate(workers[..n], w, next, x);
      assert workers[w := next][..n] == workers[..n][w := next];
    } else {
      assert workers[w := next][..n] == workers[..n];
    }
  }

  /** What the pool has drawn is exactly the indexes the counter has passed, each
      once, whoever drew them. */
  ghost predicate Accounted(p: Pool, begin: nat) {
    && begin <= p.next
    && (forall x: nat :: AllDraws(p.workers, x) == if begin <= x < p.next && x < p.end then 1 else 0)
    && (forall w :: 0 <= w < |p.workers| && p.workers[w].Returned? ==> p.next >= p.end)
  }

  lemma StepKeepsAccount(p: Pool, begin: nat, w: nat)
    requires Accounted(p, begin) && w < |p.workers|
    ensures Accounted(StepWorker(p, w), begin)
  {
    var next := StepWorker(p, w);
    assert p.workers[w := next.workers[w]] == next.workers;
    forall x: nat
      ensures AllDraws(next.workers, x) == if begin <= x < next.next && x < next.end then 1 else 0
    {
      DrawsUpdate(p.workers, w, next.workers[w], x);
      if p.workers[w].Walking? {
        CountSnoc(p.workers[w].done, p.workers[w].index, x);
      }
    }
  }

  lemma {:induction false} RunKeepsAccount(p: Pool, begin: nat, schedule: seq<nat>)
    requires Accounted(p, begin)
    requires forall i :: 0 <= i < |schedule| ==> schedule[i] < |p.workers|
    ensures Accounted(RunPool(p, schedule), begin)
    ensures |RunPool(p, schedule).workers| == |p.workers| && RunPool(p, schedule).end == p.end
    decreases |schedule|
  {
    if schedule != [] {
      StepKeepsAccount(p, begin, schedule[0]);
      RunKeepsAccount(StepWorker(p, schedule[0]), begin, schedule[1..]);
    }
  }

  lemma {:induction false} NothingDrawnAtStart(begin: nat, end: nat, n: nat, x: nat)
    ensures AllDraws(Start(begin, end, n).workers, x) == 0
  {
    if n > 0 {
      NothingDrawnAtStart(begin, end, n - 1, x);
      assert Start(begin, end, n).workers[..n - 1] == Start(begin, end, n - 1).workers;
    }
  }

  lemma {:induction false} JoinedDraws(workers: seq<Worker>, x: nat)
    requires forall w :: 0 <= w < |workers| ==> workers[w].Returned?
    ensures Count(Joined(workers), x) == AllDraws(workers, x)
  {
    if workers != [] {
      JoinedDraws(workers[..|workers| - 1], x);
      CountJoin(Joined(workers[..|workers| - 1]), workers[|workers| - 1].done, x);
    }
  }

  lemma StartAccounted(begin: nat, end: nat, workers: nat)
    ensures Accounted(Start(begin, end, workers), begin)
  {
    forall x: nat
      ensures AllDraws(Start(begin, end, workers).workers, x) == 0
    {
      NothingDrawnAtStart(begin, end, workers, x);
    }
  }

  /** Once all have returned, the joined lists hold each index of the range once,
      and sorting them gives the range. */
  lemma ReturnedAccounted(p: Pool, begin: nat)
    requires Accounted(p, begin) && begin <= p.end && AllReturned(p) && p.workers != []
    ensures OnceEach(Joined(p.workers), begin, p.end)
    ensures Sorted(Joined(p.workers)) == Range(begin, p.end)
  {
    assert p.workers[0].Returned?;
    forall x: nat
      ensures Count(Joined(p.workers), x) == if begin <= x < p.end then 1 else 0
    {
      JoinedDraws(p.workers, x);
    }
    SortedIsOrdered(Joined(p.workers));
    OrderedRange(Sorted(Joined(p.workers)), begin, p.end);
  }

  /** For every number of workers and every interleaving that lets them all
      return, each index was drawn exactly once, and sorting the joined lists
      gives the sequential list. */
  lemma ScheduleIndependence(begin: nat, end: nat, workers: nat, schedule: seq<nat>)
    requires begin <= end && workers > 0
    requires forall i :: 0 <= i < |schedule| ==> schedule[i] < workers
    requires AllReturned(RunPool(Start(begin, end, workers), schedule))
    ensures var done := Joined(RunPool(Start(begin, end, workers), schedule).workers);
            OnceEach(done, begin, end) && Sorted(done) == Range(begin, end)
  {
    StartAccounted(begin, end, workers);
    RunKeepsAccount(Start(begin, end, workers), begin, schedule);
    ReturnedAccounted(RunPool(Start(begin, end, workers), schedule), begin);
  }

  /** The pool always finishes: a step of a worker that has not returned brings
      the end nearer. */
  function Remaining(p: Pool): nat {
    2 * (if p.next < p.end then p.end - p.next else 0) + Busy(p.workers)
  }

  function Busy(workers: seq<Worker>): nat {
    if workers == [] then 0
    else Busy(workers[..|workers| - 1]) + Load(workers[|workers| - 1])
  }

  function Load(w: Worker): nat {
    match w
    case Drawing(_) => 1
    case Walking(_, _) => 2
    case Returned(_) => 0
  }

  lemma {:induction false} BusyUpdate(workers: seq<Worker>, w: nat, next: Worker)
    requires w < |workers|
    ensures Busy(workers[w := next]) + Load(workers[w]) == Busy(workers) + Load(next)
  {
    var n := |workers| - 1;
    if w < n {
      BusyUpdate(workers[..n], w, next);
      assert workers[w := next][..n] == workers[..n][w := next];
    } else {
      assert workers[w := next][..n] == workers[..n];
    }
  }

  lemma StepProgress(p: Pool, w: nat)
    requires w < |p.workers| && !p.workers[w].Returned?
    ensures Remaining(StepWorker(p, w)) < Remaining(p)
  {
    BusyUpdate(p.workers, w, StepWorker(p, w).workers[w]);
  }

  /** Running the pool, the scheduler choosing freely which worker moves. */
  method Indexes(begin: nat, end: nat, workers: nat) returns (order: seq<nat>)
    requires begin <= end && workers > 0
    ensures order == Range(begin, end)
  {
    var p := Start(begin, end, workers);
    StartAccounted(begin, end, workers);
    while !AllReturned(p)
      invariant |p.workers| == workers && p.end == end && Accounted(p, begin)
      decreases Remaining(p)
    {
      var w: nat :| w < |p.workers| && !p.workers[w].Returned?;
      StepKeepsAccount(p, begin, w);
      StepProgress(p, w);
      p := StepWorker(p, w);
    }
    ReturnedAccounted(p, begin);
    order := Sorted(Joined(p.workers));
  }
}
