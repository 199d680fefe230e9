/** Watching a branch head: bursts of commits coalesced into one move, rewinds
    told apart from advances (`HeadWatch::tick`). */
module HeadWatch {
  import opened Text

  /** The commit graph, as the ancestors of each commit, itself included. */
  datatype History = History(ancestors: string -> set<string>)
  {
    ghost predicate Sound() {
      && (forall c :: c in ancestors(c))
      && (forall c, d :: d in ancestors(c) ==> ancestors(d) <= ancestors(c))
    }

    /** `git merge-base --is-ancestor`. */
    predicate Descends(ancestor: string, candidate: string) {
      ancestor in ancestors(candidate)
    }

    /** `git rev-list --count old..new`. */
    function Count(old_: string, new_: string): nat {
      |ancestors(new_) - ancestors(old_)|
    }
  }

  datatype Burst = Burst(firstOld: string, latest: string, lastChange: nat, count: nat)

  datatype HeadMove =
    | Advanced(old_: string, new_: string, count: nat)
    | Rewound(old_: string, new_: string)

  /** What one tick sees: the reflog time, the head (if git answers), and the
      reflog time again after reading the head. */
  datatype Sight = Sight(mtime: Option<int>, head: Option<string>, mtimeAfter: Option<int>)

  datatype State = State(lastMtime: Option<int>, reported: Option<string>, burst: Option<Burst>, nudged: bool)

  datatype Stepped = Stepped(state: State, move: Option<HeadMove>)

  // ------------------------------------------------------------ specification

  /** The head that was read, when it is news. */
  function News(s: State, head: string): bool {
    match s.burst
    case Some(burst) => burst.latest != head
    case None => s.reported != Some(head)
  }

  /** Report the open burst once it has been quiet long enough. */
  function Settle(s: State, now: nat, quiet: nat): Stepped {
    match s.burst
    case None => Stepped(s, None)
    case Some(burst) =>
      if SaturatingSub(now, burst.lastChange) >= quiet then
        Stepped(s.(reported := Some(burst.latest), burst := None),
                Some(Advanced(burst.firstOld, burst.latest, burst.count)))
      else Stepped(s, None)
  }

  /** Take in one head. `Some` is the rewind it amounts to. */
  function Absorb(h: History, s: State, head: string, now: nat): Stepped {
    if !News(s, head) then Stepped(s, None)
    else
      match s.reported
      case None => Stepped(s.(reported := Some(head)), None)
      case Some(prev) =>
        if !h.Descends(prev, head) then
          Stepped(s.(reported := Some(head), burst := None), Some(Rewound(prev, head)))
        else
          var firstOld := if s.burst.Some? then s.burst.value.firstOld else prev;
          Stepped(s.(burst := Some(Burst(firstOld, head, now, h.Count(firstOld, head)))), None)
  }

  function TickStep(h: History, s: State, sight: Sight, now: nat, quiet: nat): Stepped {
    if !s.nudged && sight.mtime == s.lastMtime then Settle(s, now, quiet)
    else
      var calm := s.(nudged := false);
      if sight.head.None? then Settle(calm, now, quiet)
      else
        var absorbed := Absorb(h, calm.(lastMtime := sight.mtimeAfter), sight.head.value, now);
        if absorbed.move.Some? then absorbed else Settle(absorbed.state, now, quiet)
  }

  // -------------------------------------------------------------- the watcher

  class Watch {
    var lastMtime: Option<int>
    var reported: Option<string>
    var burst: Option<Burst>
    var nudged: bool
    const quiet: nat

    function Now(): State
      reads this
    {
      State(lastMtime, reported, burst, nudged)
    }

    /** Without a head already reported, the head at start is the baseline. */
    constructor (reported: Option<string>, headAtStart: Option<string>, mtime: Option<int>, quiet: nat)
      ensures this.quiet == quiet
      ensures Now() == State(mtime, if reported.Some? then reported else headAtStart, None, false)
    {
      this.lastMtime := mtime;
      this.reported := if reported.Some? then reported else headAtStart;
      this.burst := None;
      this.nudged := false;
      this.quiet := quiet;
    }

    method Nudge()
      modifies this
      ensures Now() == old(Now()).(nudged := true)
    {
      nudged := true;
    }

    method Tick(h: History, sight: Sight, now: nat) returns (move: Option<HeadMove>)
      modifies this
      ensures Stepped(Now(), move) == TickStep(h, old(Now()), sight, now, quiet)
    {
      var changed := nudged || sight.mtime != lastMtime;
      if changed {
        nudged := false;
        if sight.head.Some? {
          var head := sight.head.value;
          lastMtime := sight.mtimeAfter;
          var same := match burst
            case Some(b) => b.latest == head
            case None => reported == Some(head);
          if !same {
            match reported {
              case Some(prev) =>
                if !h.Descends(prev, head) {
                  reported := Some(head);
                  burst := None;
                  return Some(Rewound(prev, head));
                }
                var firstOld := if burst.Some? then burst.value.firstOld else prev;
                burst := Some(Burst(firstOld, head, now, h.Count(firstOld, head)));
              case None =>
                reported := Some(head);
            }
          }
        }
      }
      if burst.Some? && SaturatingSub(now, burst.value.lastChange) >= quiet {
        var b := burst.value;
        burst := None;
        reported := Some(b.latest);
        return Some(Advanced(b.firstOld, b.latest, b.count));
      }
      return None;
    }
  }

  // --------------------------------------------------------------------- runs

  datatype Input = Nudged | Ticked(sight: Sight, now: nat)

  datatype Outcome = Outcome(state: State, moves: seq<HeadMove>)

  function Step(h: History, s: State, input: Input, quiet: nat): Stepped {
    match input
    case Nudged => Stepped(s.(nudged := true), None)
    case Ticked(sight, now) => TickStep(h, s, sight, now, quiet)
  }

  /** The state and the moves after any sequence of nudges and ticks. */
  function Run(h: History, s: State, inputs: seq<Input>, quiet: nat): Outcome {
    if inputs == [] then Outcome(s, [])
    else
      var before := Run(h, s, inputs[..|inputs| - 1], quiet);
      var stepped := Step(h, before.state, inputs[|inputs| - 1], quiet);
      Outcome(stepped.state, before.moves + if stepped.move.Some? then [stepped.move.value] else [])
  }

  /** An open burst starts at the reported head and ends at one of its descendants. */
  ghost predicate Consistent(h: History, s: State) {
    s.burst.Some? ==>
      && s.reported == Some(s.burst.value.firstOld)
      && h.Descends(s.burst.value.firstOld, s.burst.value.latest)
      && s.burst.value.count == h.Count(s.burst.value.firstOld, s.burst.value.latest)
  }

  /** What each move says is true of the graph. */
  ghost predicate Truthful(h: History, move: HeadMove) {
    match move
    case Advanced(old_, new_, count) => h.Descends(old_, new_) && count == h.Count(old_, new_)
    case Rewound(old_, new_) => !h.Descends(old_, new_)
  }

  lemma StepKeeps(h: History, s: State, input: Input, quiet: nat)
    requires Consistent(h, s)
    ensures var stepped := Step(h, s, input, quiet);
            && Consistent(h, stepped.state)
            && (stepped.move.Some? ==>
                  && Truthful(h, stepped.move.value)
                  && stepped.state.reported == Some(stepped.move.value.new_)
                  && (s.reported.Some? ==> s.reported == Some(stepped.move.value.old_)))
            && (stepped.move.None? && s.reported.Some? ==> stepped.state.reported == s.reported)
            && (s.reported.None? ==> stepped.move.None?)
  {
  }

  /** Each move starts where the one before ended, the first at the baseline. */
  ghost predicate Chained(baseline: Option<string>, moves: seq<HeadMove>, reported: Option<string>) {
    && (forall i :: 0 < i < |moves| ==> moves[i].old_ == moves[i - 1].new_)
    && (moves != [] ==> reported == Some(moves[|moves| - 1].new_))
    && (baseline.Some? && moves != [] ==> baseline == Some(moves[0].old_))
    && (baseline.Some? && moves == [] ==> reported == baseline)
  }

  /** Over every run the moves form a chain from the baseline to the reported
      head, and each is truthful about the graph. */
  lemma {:induction false} MovesFormAChain(h: History, s: State, inputs: seq<Input>, quiet: nat)
    requires Consistent(h, s)
    ensures var out := Run(h, s, inputs, quiet);
            && Consistent(h, out.state)
            && Chained(s.reported, out.moves, out.state.reported)
            && forall i :: 0 <= i < |out.moves| ==> Truthful(h, out.moves[i])
  {
    if inputs != [] {
      var init := inputs[..|inputs| - 1];
      MovesFormAChain(h, s, init, quiet);
      StepKeeps(h, Run(h, s, init, quiet).state, inputs[|inputs| - 1], quiet);
    }
  }

  // -------------------------------------------------------------- telescoping

  function TotalCount(moves: seq<HeadMove>): nat
    requires forall i :: 0 <= i < |moves| ==> moves[i].Advanced?
  {
    if moves == [] then 0 else TotalCount(moves[..|moves| - 1]) + moves[|moves| - 1].count
  }

  lemma CountsAdd(h: History, a: string, b: string, c: string)
    requires h.Sound() && h.Descends(a, b) && h.Descends(b, c)
    ensures h.Descends(a, c) && h.Count(a, b) + h.Count(b, c) == h.Count(a, c)
  {
    var (x, y, z) := (h.ancestors(a), h.ancestors(b), h.ancestors(c));
    assert x <= y <= z;
    assert z - x == (y - x) + (z - y);
    assert (y - x) !! (z - y);
  }

  /** Consecutive advances count, all together, exactly the commits between the
      first head and the last. */
  lemma {:induction false} AdvancesTelescope(h: History, moves: seq<HeadMove>)
    requires h.Sound() && moves != []
    requires forall i :: 0 <= i < |moves| ==> moves[i].Advanced? && Truthful(h, moves[i])
    requires forall i :: 0 < i < |moves| ==> moves[i].old_ == moves[i - 1].new_
    ensures h.Descends(moves[0].old_, moves[|moves| - 1].new_)
    ensures TotalCount(moves) == h.Count(moves[0].old_, moves[|moves| - 1].new_)
  {
    var last := moves[|moves| - 1];
    if |moves| == 1 {
      assert TotalCount(moves[..0]) == 0;
    } else {
      AdvancesTelescope(h, moves[..|moves| - 1]);
      CountsAdd(h, moves[0].old_, last.old_, last.new_);
    }
  }

  lemma StretchTelescopes(h: History, moves: seq<HeadMove>, lo: nat, hi: nat)
    requires h.Sound() && lo < hi <= |moves|
    requires forall i :: 0 <= i < |moves| ==> Truthful(h, moves[i])
    requires forall i :: 0 < i < |moves| ==> moves[i].old_ == moves[i - 1].new_
    requires forall i :: lo <= i < hi ==> moves[i].Advanced?
    ensures TotalCount(moves[lo..hi]) == h.Count(moves[lo].old_, moves[hi - 1].new_)
  {
    var stretch := moves[lo..hi];
    hide Truthful;
    hide TotalCount;
    hide History.Count;
    hide History.Descends;
    hide History.Sound;
    forall i | 0 <= i < |stretch| ensures stretch[i].Advanced? && Truthful(h, stretch[i]) {
      assert stretch[i] == moves[lo + i];
    }
    forall i | 0 < i < |stretch| ensures stretch[i].old_ == stretch[i - 1].new_ {
      assert stretch[i] == moves[lo + i] && stretch[i - 1] == moves[lo + i - 1];
    }
    AdvancesTelescope(h, stretch);
  }

  /** On any run, any stretch of advances counts every commit once. */
  lemma RunTelescopes(h: History, s: State, inputs: seq<Input>, quiet: nat, moves: seq<HeadMove>, lo: nat, hi: nat)
    requires h.Sound() && Consistent(h, s) && moves == Run(h, s, inputs, quiet).moves
    requires lo < hi <= |moves|
    requires forall i :: lo <= i < hi ==> moves[i].Advanced?
    ensures TotalCount(moves[lo..hi]) == h.Count(moves[lo].old_, moves[hi - 1].new_)
  {
    MovesFormAChain(h, s, inputs, quiet);
    StretchTelescopes(h, moves, lo, hi);
  }

  // ------------------------------------------------------- what ticks take in

  /** The head last read, or the baseline. */
  function Known(s: State): Option<string> {
    if s.burst.Some? then Some(s.burst.value.latest) else s.reported
  }

  /** A tick reads the head when a nudge armed it or the reflog time moved, and git
      answers. */
  predicate Reads(s: State, input: Input) {
    input.Ticked? && (s.nudged || input.sight.mtime != s.lastMtime) && input.sight.head.Some?
  }

  /** The head read differs from the one known. */
  predicate Changes(s: State, input: Input) {
    Reads(s, input) && input.sight.head != Known(s)
  }

  /** What a tick remembers: the head it read, and the reflog time after reading it;
      a nudge lasts until the next tick. */
  lemma StepRemembers(h: History, s: State, input: Input, quiet: nat)
    requires Consistent(h, s)
    ensures var next := Step(h, s, input, quiet).state;
            && Known(next) == (if Reads(s, input) then input.sight.head else Known(s))
            && next.lastMtime == (if Reads(s, input) then input.sight.mtimeAfter else s.lastMtime)
            && next.nudged == input.Nudged?
  {
  }

  /** A new head is a rewind at once, or opens or moves the burst from the reported
      head; nothing else touches the burst but its report. */
  lemma StepBurst(h: History, s: State, input: Input, quiet: nat)
    requires Consistent(h, s)
    ensures var stepped := Step(h, s, input, quiet);
            && (Changes(s, input) && stepped.state.burst.Some? ==>
                  stepped.state.burst.value.latest == input.sight.head.value && stepped.state.burst.value.lastChange == input.now)
            && (Changes(s, input) && s.reported.Some? ==>
                  var prev, head := s.reported.value, input.sight.head.value;
                  if !h.Descends(prev, head) then stepped.move == Some(Rewound(prev, head)) && stepped.state.burst == None
                  else quiet > 0 ==> stepped.move == None
                                     && stepped.state.burst == Some(Burst(prev, head, input.now, h.Count(prev, head))))
            && (!Changes(s, input) && stepped.state.burst.Some? ==> s.burst == stepped.state.burst)
            && (stepped.move.Some? && stepped.move.value.Advanced? ==>
                  && input.Ticked?
                  && if Changes(s, input) then stepped.move.value.new_ == input.sight.head.value && quiet == 0
                     else s.burst.Some? && stepped.move.value.new_ == s.burst.value.latest
                          && SaturatingSub(input.now, s.burst.value.lastChange) >= quiet)
  {
  }

  // ----------------------------------------------------------------- settling

  /** The last of these inputs to change the head. */
  ghost predicate LastChange(h: History, s: State, inputs: seq<Input>, quiet: nat, i: nat) {
    && i < |inputs| && ChangesAt(h, s, inputs, quiet, i)
    && forall k :: i < k < |inputs| ==> !ChangesAt(h, s, inputs, quiet, k)
  }

  predicate ChangesAt(h: History, s: State, inputs: seq<Input>, quiet: nat, i: nat)
    requires i < |inputs|
  {
    Changes(Run(h, s, inputs[..i], quiet).state, inputs[i])
  }

  lemma LastChangeStays(h: History, s: State, inputs: seq<Input>, quiet: nat, i: nat)
    requires inputs != [] && LastChange(h, s, inputs[..|inputs| - 1], quiet, i)
    requires !ChangesAt(h, s, inputs, quiet, |inputs| - 1)
    ensures LastChange(h, s, inputs, quiet, i)
  {
    var init := inputs[..|inputs| - 1];
    forall k | 0 <= k < |init|
      ensures ChangesAt(h, s, inputs, quiet, k) == ChangesAt(h, s, init, quiet, k)
    {
      assert init[..k] == inputs[..k];
    }
    hide ChangesAt;
  }

  /** An open burst ends at the last head read, and dates from when it was read. */
  lemma {:induction false} BurstIsLastChange(h: History, s: State, inputs: seq<Input>, quiet: nat) returns (i: nat)
    requires s.burst.None? && Run(h, s, inputs, quiet).state.burst.Some?
    ensures LastChange(h, s, inputs, quiet, i)
    ensures var burst := Run(h, s, inputs, quiet).state.burst.value;
            burst.latest == inputs[i].sight.head.value && burst.lastChange == inputs[i].now
  {
    var n := |inputs| - 1;
    var before := Run(h, s, inputs[..n], quiet).state;
    MovesFormAChain(h, s, inputs[..n], quiet);
    StepBurst(h, before, inputs[n], quiet);
    if ChangesAt(h, s, inputs, quiet, n) {
      i := n;
    } else {
      i := BurstIsLastChange(h, s, inputs[..n], quiet);
      LastChangeStays(h, s, inputs, quiet, i);
    }
  }

  /** The move of one input of a run. */
  function MoveAt(h: History, s: State, inputs: seq<Input>, quiet: nat, j: nat): Option<HeadMove>
    requires j < |inputs|
  {
    Step(h, Run(h, s, inputs[..j], quiet).state, inputs[j], quiet).move
  }

  /** Over every run, an advance ends at the last head read and comes no earlier than a
      quiet time after that head was read. */
  lemma AdvanceIsQuiet(h: History, s: State, inputs: seq<Input>, quiet: nat, j: nat) returns (i: nat)
    requires s.burst.None? && j < |inputs|
    requires var move := MoveAt(h, s, inputs, quiet, j); move.Some? && move.value.Advanced?
    ensures LastChange(h, s, inputs[..j + 1], quiet, i) && inputs[j].Ticked?
    ensures inputs[i].sight.head == Some(MoveAt(h, s, inputs, quiet, j).value.new_)
    ensures SaturatingSub(inputs[j].now, inputs[i].now) >= quiet
  {
    var upto := inputs[..j + 1];
    assert upto[..j] == inputs[..j] && upto[j] == inputs[j];
    MovesFormAChain(h, s, inputs[..j], quiet);
    StepBurst(h, Run(h, s, inputs[..j], quiet).state, inputs[j], quiet);
    if ChangesAt(h, s, upto, quiet, j) {
      i := j;
    } else {
      i := BurstIsLastChange(h, s, inputs[..j], quiet);
      LastChangeStays(h, s, upto, quiet, i);
    }
  }

  lemma OneLastChange(h: History, s: State, inputs: seq<Input>, quiet: nat, i: nat, k: nat)
    requires LastChange(h, s, inputs, quiet, i) && LastChange(h, s, inputs, quiet, k)
    ensures i == k
  {
    hide ChangesAt;
  }

  /** Heads read closer together than the quiet time share one advance: none is sent
      between them. */
  lemma CloseChangesShare(h: History, s: State, inputs: seq<Input>, quiet: nat, i: nat, j: nat)
    requires s.burst.None? && i <= j < |inputs| && LastChange(h, s, inputs[..j + 1], quiet, i)
    requires inputs[j].Ticked? ==> inputs[i].now <= inputs[j].now < inputs[i].now + quiet
    ensures var move := MoveAt(h, s, inputs, quiet, j); move.None? || move.value.Rewound?
  {
    var move := MoveAt(h, s, inputs, quiet, j);
    if move.Some? && move.value.Advanced? {
      var k := AdvanceIsQuiet(h, s, inputs, quiet, j);
      hide MoveAt;
      OneLastChange(h, s, inputs[..j + 1], quiet, i, k);
    }
  }

  /** None of the inputs changes the head. */
  ghost predicate Steady(h: History, s: State, inputs: seq<Input>, quiet: nat) {
    forall i :: 0 <= i < |inputs| ==> !ChangesAt(h, s, inputs, quiet, i)
  }

  predicate QuietTick(input: Input, since: nat, quiet: nat) {
    input.Ticked? && SaturatingSub(input.now, since) >= quiet
  }

  /** An open burst is reported once, by the first tick a quiet time after its last
      change, if the head stays until then; and not before. */
  lemma {:induction false} BurstIsReported(h: History, s: State, inputs: seq<Input>, quiet: nat)
    requires s.burst.Some? && Steady(h, s, inputs, quiet)
    ensures var burst, out := s.burst.value, Run(h, s, inputs, quiet);
            if exists i :: 0 <= i < |inputs| && QuietTick(inputs[i], burst.lastChange, quiet)
            then out.moves == [Advanced(burst.firstOld, burst.latest, burst.count)]
                 && out.state.burst == None && out.state.reported == Some(burst.latest)
            else out.moves == [] && out.state.burst == s.burst && out.state.reported == s.reported
  {
    if inputs != [] {
      var n := |inputs| - 1;
      var init := inputs[..n];
      forall i | 0 <= i < n
        ensures !ChangesAt(h, s, init, quiet, i)
      {
        assert init[..i] == inputs[..i] && !ChangesAt(h, s, inputs, quiet, i);
      }
      BurstIsReported(h, s, init, quiet);
      assert !ChangesAt(h, s, inputs, quiet, n);
      assert forall i :: 0 <= i < n ==> init[i] == inputs[i];
      SteadyStep(h, Run(h, s, init, quiet).state, inputs[n], quiet);
    }
  }

  /** A step that changes nothing only settles. */
  lemma SteadyStep(h: History, s: State, input: Input, quiet: nat)
    requires !Changes(s, input)
    ensures var stepped := Step(h, s, input, quiet);
            if s.burst.Some? && QuietTick(input, s.burst.value.lastChange, quiet)
            then stepped.move == Some(Advanced(s.burst.value.firstOld, s.burst.value.latest, s.burst.value.count))
                 && stepped.state.burst == None && stepped.state.reported == Some(s.burst.value.latest)
            else stepped.move == None && stepped.state.burst == s.burst && stepped.state.reported == s.reported
  {
  }

  /** What a head that stays amounts to, seen from the reported one. */
  function MoveTo(h: History, s: State, head: string): seq<HeadMove> {
    if s.reported.None? || (s.burst.None? && s.reported == Some(head)) then []
    else
      var prev := s.reported.value;
      if h.Descends(prev, head) then [Advanced(prev, head, h.Count(prev, head))] else [Rewound(prev, head)]
  }

  function MovesOf(move: Option<HeadMove>): seq<HeadMove> {
    if move.Some? then [move.value] else []
  }

  /** A head that stays put is reported, whether a nudge or the reflog's time announced
      it: one tick that reads it, then one a quiet time later, and exactly the move from
      the reported head comes out. A rewind comes at the first tick, and so does an
      advance only if that very head had been read before or no quiet time is asked. */
  lemma SteadyHeadIsReported(h: History, s: State, head: string, first: Sight, then_: Sight, now: nat, later: nat, quiet: nat)
    requires Consistent(h, s) && (s.nudged || first.mtime != s.lastMtime)
    requires first.head == Some(head) && (then_.head == Some(head) || then_.head == None)
    requires later >= now + quiet
    requires s.burst.Some? ==> s.burst.value.lastChange <= now
    ensures var one := Step(h, s, Ticked(first, now), quiet);
            var two := Step(h, one.state, Ticked(then_, later), quiet);
            && two.state.reported == Some(head) && two.state.burst == None
            && MovesOf(one.move) + MovesOf(two.move) == MoveTo(h, s, head)
            && (one.move.None? || one.move.value.Rewound? || quiet == 0 || Known(s) == Some(head))
            && (two.move.Some? ==> two.move.value.Advanced?)
  {
    hide History.Count;
  }
}
