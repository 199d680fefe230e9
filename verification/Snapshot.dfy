/** Rebuilding a terminal grid from two readings of it (`rows_from_capture`): the
    physical rows, and the same rows already joined where the terminal wrapped. */
module Snapshot {
  import opened Text

  // --------------------------------------------------------------------- text

  /** Bytes of one character in UTF-8. */
  function CharBytes(c: char): nat {
    var n := c as int;
    if n < 0x80 then 1 else if n < 0x800 then 2 else if n < 0x10000 then 3 else 4
  }

  /** Rust's `str::len`. */
  function Bytes(s: string): nat {
    if s == "" then 0 else Bytes(s[..|s| - 1]) + CharBytes(s[|s| - 1])
  }

  function StripWs(s: string): string {
    if s == "" then ""
    else StripWs(s[..|s| - 1]) + if IsWhitespace(s[|s| - 1]) then "" else [s[|s| - 1]]
  }

  /** Stripping drops the whitespace and nothing else: character by character, piece by
      piece. */
  lemma {:induction false} StripsWhitespace(a: string, b: string, c: char)
    ensures StripWs([c]) == if IsWhitespace(c) then "" else [c]
    ensures StripWs(a + b) == StripWs(a) + StripWs(b)
    decreases |b|
  {
    assert [c][..0] == "";
    if b == "" {
      assert a + b == a;
    } else {
      assert (a + b)[..|a + b| - 1] == a + b[..|b| - 1];
      StripsWhitespace(a, b[..|b| - 1], c);
    }
  }

  /** Rust's `split('\n')`: one piece more than there are newlines. */
  function SplitLines(s: string): (r: seq<string>)
    ensures r != []
  {
    if s == "" then [""]
    else
      var head, last := SplitLines(s[..|s| - 1]), s[|s| - 1];
      if last == '\n' then head + [""]
      else head[..|head| - 1] + [head[|head| - 1] + [last]]
  }

  /** The rows of one capture, its single trailing newline dropped. */
  function CaptureRows(capture: string): seq<string> {
    var rows := SplitLines(capture);
    if rows[|rows| - 1] == "" then rows[..|rows| - 1] else rows
  }

  function LastPiece(pieces: seq<string>): string
    requires pieces != []
  {
    pieces[|pieces| - 1]
  }

  /** The pieces with `t` joined to the last one. */
  function Extend(pieces: seq<string>, t: string): seq<string>
    requires pieces != []
  {
    pieces[..|pieces| - 1] + [LastPiece(pieces) + t]
  }

  lemma ExtendTwice(pieces: seq<string>, t: string, u: string)
    requires pieces != []
    ensures Extend(Extend(pieces, t), u) == Extend(pieces, t + u)
  {
    assert LastPiece(pieces) + t + u == LastPiece(pieces) + (t + u);
  }

  lemma SplitChar(s: string, c: char)
    ensures SplitLines(s + [c]) == if c == '\n' then SplitLines(s) + [""] else Extend(SplitLines(s), [c])
  {
    assert (s + [c])[..|s + [c]| - 1] == s;
  }

  lemma ExtendByNothing(pieces: seq<string>)
    requires pieces != []
    ensures Extend(pieces, "") == pieces
  {
    assert LastPiece(pieces) + "" == LastPiece(pieces);
  }

  lemma LastChar(s: string, t: string)
    requires t != ""
    ensures s + t == s + t[..|t| - 1] + [t[|t| - 1]] && t[..|t| - 1] + [t[|t| - 1]] == t
  {
  }

  lemma {:induction false} SplitAppend(s: string, t: string, pieces: seq<string>)
    requires NoNewline(t) && pieces == SplitLines(s)
    ensures SplitLines(s + t) == Extend(pieces, t)
    decreases |t|
  {
    if t == "" {
      assert s + t == s;
      ExtendByNothing(pieces);
    } else {
      var init, c := t[..|t| - 1], t[|t| - 1];
      SplitAppend(s, init, pieces);
      SplitChar(s + init, c);
      ExtendTwice(pieces, init, [c]);
      LastChar(s, t);
    }
  }

  lemma {:induction false} SplitUnlines(rows: seq<string>)
    requires forall i :: 0 <= i < |rows| ==> NoNewline(rows[i])
    ensures SplitLines(Unlines(rows)) == rows + [""]
  {
    if rows != [] {
      var init, last := rows[..|rows| - 1], rows[|rows| - 1];
      SplitUnlines(init);
      assert rows == init + [last];
      UnlinesSnoc(init, last);
      SplitAppend(Unlines(init), last, init + [""]);
      assert "" + last == last;
      assert Extend(init + [""], last) == rows;
      SplitChar(Unlines(init) + last, '\n');
    }
  }

  /** Reading rows back from the text that prints them. */
  lemma CaptureReadsRows(rows: seq<string>)
    requires forall i :: 0 <= i < |rows| ==> NoNewline(rows[i])
    ensures CaptureRows(Unlines(rows)) == rows
  {
    SplitUnlines(rows);
  }

  lemma {:induction false} BytesAppend(a: string, b: string)
    ensures Bytes(a + b) == Bytes(a) + Bytes(b)
  {
    if b == "" {
      assert a + b == a;
    } else {
      assert (a + b)[..|a + b| - 1] == a + b[..|b| - 1];
      BytesAppend(a, b[..|b| - 1]);
    }
  }

  // ------------------------------------------------------------------- groups

  // `rows` below are rows already stripped of whitespace.

  /** Rows `lo..hi` joined: one logical line's content. */
  function Joined(rows: seq<string>, lo: nat, hi: nat): string
    requires lo <= hi <= |rows|
    decreases hi - lo
  {
    if lo == hi then "" else Joined(rows, lo, hi - 1) + rows[hi - 1]
  }

  lemma {:induction false} JoinedSplit(rows: seq<string>, lo: nat, mid: nat, hi: nat)
    requires lo <= mid <= hi <= |rows|
    ensures Joined(rows, lo, hi) == Joined(rows, lo, mid) + Joined(rows, mid, hi)
    ensures Bytes(Joined(rows, lo, hi)) == Bytes(Joined(rows, lo, mid)) + Bytes(Joined(rows, mid, hi))
    decreases hi - mid
  {
    if mid < hi {
      JoinedSplit(rows, lo, mid, hi - 1);
    }
    assert Joined(rows, lo, hi) == Joined(rows, lo, mid) + Joined(rows, mid, hi);
    BytesAppend(Joined(rows, lo, mid), Joined(rows, mid, hi));
  }

  /** `lens` cuts rows `index..` into consecutive groups whose stripped content
      is what the joined view shows, line by line. */
  predicate Groups(rows: seq<string>, index: nat, targets: seq<string>, lens: seq<nat>)
    decreases |lens|
  {
    |lens| == |targets|
    && if lens == [] then index == |rows|
       else lens[0] > 0 && index + lens[0] <= |rows|
            && targets[0] == Joined(rows, index, index + lens[0])
            && Groups(rows, index + lens[0], targets[1..], lens[1..])
  }

  function Repeat(b: bool, n: nat): (r: seq<bool>)
    ensures |r| == n && forall i :: 0 <= i < n ==> r[i] == b
  {
    seq(n, _ => b)
  }

  /** The flags the terminal held: every row of a group but the first continues it. */
  function TrueFlags(lens: seq<nat>): seq<bool>
    requires forall k :: 0 <= k < |lens| ==> lens[k] > 0
  {
    if lens == [] then [] else [false] + Repeat(true, lens[0] - 1) + TrueFlags(lens[1..])
  }

  /** No group of several rows ends in a blank one. */
  predicate NoBlankEnds(rows: seq<string>, index: nat, lens: seq<nat>)
    decreases |lens|
  {
    lens == []
    || (0 < index + lens[0] <= |rows| && (lens[0] > 1 ==> rows[index + lens[0] - 1] != "")
        && NoBlankEnds(rows, index + lens[0], lens[1..]))
  }

  // ----------------------------------------------------------- the walk itself

  /** Where one logical line's walk stops, having taken rows `start..i`. */
  function WalkEnd(rows: seq<string>, target: string, start: nat, i: nat): (e: nat)
    requires start < i <= |rows|
    ensures i <= e <= |rows|
    decreases |rows| - i
  {
    if i < |rows| && Joined(rows, start, i) != target
       && Bytes(Joined(rows, start, i)) + Bytes(rows[i]) <= Bytes(target)
    then WalkEnd(rows, target, start, i + 1)
    else i
  }

  /** The flags of rows `index..` after walking every remaining logical line. */
  function WalkFlags(rows: seq<string>, targets: seq<string>, index: nat): (flags: seq<bool>)
    requires index <= |rows|
    ensures |flags| == |rows| - index
    decreases |targets|
  {
    if index == |rows| || targets == [] then Repeat(false, |rows| - index)
    else
      var e := WalkEnd(rows, targets[0], index, index + 1);
      [false] + Repeat(true, e - index - 1) + WalkFlags(rows, targets[1..], e)
  }

  lemma JoinedParts(rows: seq<string>, start: nat, i: nat, end: nat, taken: string, rest: string)
    requires start < i < end <= |rows| && taken == Joined(rows, start, i) && rest == Joined(rows, i + 1, end)
    ensures Joined(rows, start, end) == taken + rows[i] + rest
  {
    JoinedSplit(rows, start, i + 1, end);
  }

  lemma BytesOfParts(taken: string, next: string, rest: string, target: string)
    requires target == taken + next + rest
    ensures Bytes(taken) + Bytes(next) <= Bytes(target)
  {
    BytesAppend(taken + next, rest);
    BytesAppend(taken, next);
  }

  lemma CompleteWhenRestEmpty(rows: seq<string>, start: nat, i: nat, end: nat)
    requires start < i < end <= |rows|
    ensures Joined(rows, start, i) == Joined(rows, start, end) <==> Joined(rows, i, end) == ""
  {
    JoinedSplit(rows, start, i, end);
    var a, b := Joined(rows, start, i), Joined(rows, i, end);
    assert |a + b| == |a| + |b|;
  }

  lemma RestEmpty(rows: seq<string>, i: nat, end: nat)
    requires i < end <= |rows|
    ensures rows[end - 1] != "" ==> Joined(rows, i, end) != ""
    ensures i + 1 == end && rows[end - 1] == "" ==> Joined(rows, i, end) == ""
  {
  }

  lemma WalkStep(rows: seq<string>, target: string, start: nat, i: nat)
    requires start < i < |rows|
    ensures Joined(rows, start, i) == target ==> WalkEnd(rows, target, start, i) == i
    ensures Joined(rows, start, i) != target && Bytes(Joined(rows, start, i)) + Bytes(rows[i]) <= Bytes(target)
        ==> WalkEnd(rows, target, start, i) == WalkEnd(rows, target, start, i + 1)
  {
  }

  lemma WalkInside(rows: seq<string>, target: string, start: nat, i: nat, end: nat, e: nat)
    requires start < i < end <= |rows| && target == Joined(rows, start, end)
    requires e == WalkEnd(rows, target, start, i)
    ensures Joined(rows, i, end) == "" ==> e == i
    ensures Joined(rows, i, end) != "" ==> e == WalkEnd(rows, target, start, i + 1)
  {
    CompleteWhenRestEmpty(rows, start, i, end);
    JoinedParts(rows, start, i, end, Joined(rows, start, i), Joined(rows, i + 1, end));
    BytesOfParts(Joined(rows, start, i), rows[i], Joined(rows, i + 1, end), target);
    WalkStep(rows, target, start, i);
  }

  lemma WalkStops(rows: seq<string>, target: string, start: nat, end: nat, e: nat)
    requires start < end <= |rows| && target == Joined(rows, start, end)
    requires e == WalkEnd(rows, target, start, end)
    ensures e == end
  {
  }

  /** `e` is where the walk over group `start..end` stops, having reached row `i`. */
  predicate StopsAt(rows: seq<string>, start: nat, i: nat, end: nat, e: nat) {
    start < i <= end <= |rows| && e == WalkEnd(rows, Joined(rows, start, end), start, i)
  }

  lemma StopsInside(rows: seq<string>, start: nat, i: nat, end: nat, e: nat)
    requires StopsAt(rows, start, i, end, e) && i < end
    ensures if Joined(rows, i, end) == "" then e == i else StopsAt(rows, start, i + 1, end, e)
  {
    WalkInside(rows, Joined(rows, start, end), start, i, end, e);
  }

  lemma StopsHere(rows: seq<string>, start: nat, end: nat, e: nat)
    requires StopsAt(rows, start, end, end, e)
    ensures e == end
  {
    WalkStops(rows, Joined(rows, start, end), start, end, e);
  }

  /** A walk over a whole group stops at its end, unless the group ends in a
      blank continuation row: then it stops earlier. */
  lemma {:induction false} WalkOverGroup(rows: seq<string>, start: nat, i: nat, end: nat, e: nat)
    requires StopsAt(rows, start, i, end, e)
    ensures if i < end && rows[end - 1] == "" then e < end else e == end
    decreases end - i
  {
    hide WalkEnd;
    hide Joined;
    if i == end {
      StopsHere(rows, start, end, e);
    } else {
      StopsInside(rows, start, i, end, e);
      RestEmpty(rows, i, end);
      if StopsAt(rows, start, i + 1, end, e) {
        WalkOverGroup(rows, start, i + 1, end, e);
      }
    }
  }

  lemma {:induction false} GroupsPositive(rows: seq<string>, index: nat, targets: seq<string>, lens: seq<nat>)
    requires Groups(rows, index, targets, lens)
    ensures index <= |rows| && forall k :: 0 <= k < |lens| ==> lens[k] > 0
    decreases |lens|
  {
    if lens != [] {
      GroupsPositive(rows, index + lens[0], targets[1..], lens[1..]);
      assert lens == [lens[0]] + lens[1..];
    }
  }

  lemma SameTail(head: seq<bool>, a: seq<bool>, b: seq<bool>)
    ensures head + a == head + b <==> a == b
  {
    if head + a == head + b {
      assert a == (head + a)[|head|..] && b == (head + b)[|head|..];
    }
  }

  /** A walk cut short inside a group loses the flag of the row it stopped at. */
  lemma CutShort(truth: seq<bool>, flags: seq<bool>, e: nat, len: nat, truthTail: seq<bool>, flagTail: seq<bool>)
    requires 0 < e < len && flagTail != [] && !flagTail[0]
    requires truth == [false] + Repeat(true, len - 1) + truthTail
    requires flags == [false] + Repeat(true, e - 1) + flagTail
    ensures flags != truth
  {
    assert truth[e] && flags[e] == flagTail[0];
  }

  lemma {:induction false} WrapRecoveryFrom(rows: seq<string>, targets: seq<string>, lens: seq<nat>, index: nat,
                                            flags: seq<bool>, truth: seq<bool>)
    requires Groups(rows, index, targets, lens)
    requires index <= |rows| && forall k :: 0 <= k < |lens| ==> lens[k] > 0
    requires flags == WalkFlags(rows, targets, index) && truth == TrueFlags(lens)
    ensures flags == truth <==> NoBlankEnds(rows, index, lens)
    decreases |lens|
  {
    if lens != [] {
      var len, end := lens[0], index + lens[0];
      var e := WalkEnd(rows, targets[0], index, index + 1);
      WalkOverGroup(rows, index, index + 1, end, e);
      var flagTail, truthTail := WalkFlags(rows, targets[1..], e), TrueFlags(lens[1..]);
      if e == end {
        GroupsPositive(rows, end, targets[1..], lens[1..]);
        WrapRecoveryFrom(rows, targets[1..], lens[1..], end, flagTail, truthTail);
        SameTail([false] + Repeat(true, len - 1), flagTail, truthTail);
      } else {
        CutShort(truth, flags, e - index, len, truthTail, flagTail);
      }
    }
  }

  /** Wrap recovery is exact if and only if no group of several rows ends in a
      blank row. */
  lemma WrapRecovery(rows: seq<string>, targets: seq<string>, lens: seq<nat>)
    requires Groups(rows, 0, targets, lens)
    ensures forall k :: 0 <= k < |lens| ==> lens[k] > 0
    ensures WalkFlags(rows, targets, 0) == TrueFlags(lens) <==> NoBlankEnds(rows, 0, lens)
  {
    GroupsPositive(rows, 0, targets, lens);
    WrapRecoveryFrom(rows, targets, lens, 0, WalkFlags(rows, targets, 0), TrueFlags(lens));
  }

  // -------------------------------------------------------------- the program

  datatype Row = Row(viewportRow: nat, text: string, wrapsPrevious: bool)

  datatype Size = Size(columns: nat, rows: nat)

  /** Rust's `as u16`. */
  function AsU16(n: nat): nat {
    n % 0x1_0000
  }

  function StripAll(rows: seq<string>): (r: seq<string>)
    ensures |r| == |rows| && forall i :: 0 <= i < |rows| ==> r[i] == StripWs(rows[i])
  {
    seq(|rows|, i requires 0 <= i < |rows| => StripWs(rows[i]))
  }

  /** The inner loop: take physical rows while they fit the logical line. */
  method WalkLine(physical: seq<string>, target: string, start: nat) returns (index: nat)
    requires start < |physical|
    ensures index == WalkEnd(StripAll(physical), target, start, start + 1)
  {
    ghost var rows := StripAll(physical);
    var accumulated := StripWs(physical[start]);
    index := start + 1;
    assert Joined(rows, start, start) == "";
    assert accumulated == Joined(rows, start, index);
    while accumulated != target && index < |physical|
      invariant start < index <= |physical| && accumulated == Joined(rows, start, index)
      invariant WalkEnd(rows, target, start, start + 1) == WalkEnd(rows, target, start, index)
      decreases |physical| - index
    {
      var next := StripWs(physical[index]);
      if Bytes(accumulated) + Bytes(next) > Bytes(target) {
        break;
      }
      accumulated := accumulated + next;
      index := index + 1;
    }
  }

  /** Flag rows `start + 1..index`. */
  method Flag(wraps: array<bool>, start: nat, index: nat)
    requires start < index <= wraps.Length && !wraps[start]
    modifies wraps
    ensures wraps[..index] == old(wraps[..start]) + ([false] + Repeat(true, index - start - 1))
    ensures wraps[index..] == old(wraps[index..])
  {
    for row := start + 1 to index
      invariant forall i :: 0 <= i <= start ==> wraps[i] == old(wraps[i])
      invariant forall i :: start < i < row ==> wraps[i]
      invariant forall i :: row <= i < wraps.Length ==> wraps[i] == old(wraps[i])
    {
      wraps[row] := true;
    }
  }

  lemma OneLineMore(rows: seq<string>, logical: seq<string>, line: nat, start: nat, index: nat, before: seq<bool>)
    requires line < |logical| && start < |rows|
    requires index == WalkEnd(rows, logical[line], start, start + 1)
    ensures before + WalkFlags(rows, logical[line..], start)
         == before + ([false] + Repeat(true, index - start - 1)) + WalkFlags(rows, logical[line + 1..], index)
  {
    assert logical[line..][1..] == logical[line + 1..];
    var head, tail := [false] + Repeat(true, index - start - 1), WalkFlags(rows, logical[line + 1..], index);
    assert before + (head + tail) == before + head + tail;
  }

  /** The flags, one logical line after another. */
  method MarkWraps(physical: seq<string>, logical: seq<string>) returns (wraps: array<bool>)
    ensures fresh(wraps) && wraps[..] == WalkFlags(StripAll(physical), logical, 0)
  {
    ghost var rows := StripAll(physical);
    wraps := new bool[|physical|](_ => false);
    var index := 0;
    var line := 0;
    assert logical[0..] == logical;
    while line < |logical| && index < |physical|
      invariant line <= |logical| && index <= |physical| && wraps.Length == |physical| && fresh(wraps)
      invariant wraps[index..] == Repeat(false, |physical| - index)
      invariant WalkFlags(rows, logical, 0) == wraps[..index] + WalkFlags(rows, logical[line..], index)
      decreases |logical| - line
    {
      var start := index;
      ghost var before := wraps[..start];
      ghost var after := wraps[start..];
      index := WalkLine(physical, logical[line], start);
      assert wraps[start] == after[0];
      assert wraps[index..] == after[index - start..];
      Flag(wraps, start, index);
      OneLineMore(rows, logical, line, start, index, before);
      line := line + 1;
    }
    assert wraps[..] == wraps[..index] + wraps[index..];
  }

  /** How many rows the padding loop ends with. */
  function PaddedCount(n: nat, height: nat): nat {
    n + if AsU16(n) < height then height - AsU16(n) else 0
  }

  /** The text without its trailing whitespace, and without anything else missing. */
  predicate TrimmedOf(trimmed: string, text: string) {
    && HasPrefix(text, trimmed) && (trimmed != "" ==> !IsWhitespace(trimmed[|trimmed| - 1]))
    && forall k :: |trimmed| <= k < |text| ==> IsWhitespace(text[k])
  }

  lemma {:induction false} TrimEndIs(text: string)
    ensures TrimmedOf(TrimEnd(text), text)
  {
    if text != "" && IsWhitespace(text[|text| - 1]) {
      var init := text[..|text| - 1];
      TrimEndIs(init);
      assert text[..|TrimEnd(init)|] == init[..|TrimEnd(init)|];
      assert forall k :: 0 <= k < |init| ==> text[k] == init[k];
    } else {
      assert text[..|text|] == text;
    }
  }

  function VisibleRow(text: string, i: nat, wraps: bool): Row {
    Row(AsU16(i), TrimEnd(text), wraps)
  }

  method VisibleRows(physical: seq<string>, wraps: array<bool>) returns (rows: seq<Row>)
    requires wraps.Length == |physical|
    ensures |rows| == |physical|
    ensures forall i :: 0 <= i < |physical| ==> rows[i] == VisibleRow(physical[i], i, wraps[i])
  {
    rows := [];
    for i := 0 to |physical|
      invariant |rows| == i
      invariant forall j :: 0 <= j < i ==> rows[j] == VisibleRow(physical[j], j, wraps[j])
    {
      rows := rows + [VisibleRow(physical[i], i, wraps[i])];
    }
  }

  /** The grid the two readings stand for, padded with blank rows to the viewport. */
  method RowsFromCapture(capture: string, joined: string, size: Size) returns (rows: seq<Row>)
    requires size.rows < 0x1_0000
    ensures var physical := CaptureRows(capture);
            var flags := WalkFlags(StripAll(physical), StripAll(CaptureRows(joined)), 0);
            && |rows| == PaddedCount(|physical|, size.rows)
            && (forall i :: 0 <= i < |physical| ==>
                  TrimmedOf(rows[i].text, physical[i]) && rows[i].viewportRow == AsU16(i) && rows[i].wrapsPrevious == flags[i])
            && (forall i :: |physical| <= i < |rows| ==> rows[i] == Row(AsU16(i), "", false))
  {
    var physical := CaptureRows(capture);
    var logical := StripAll(CaptureRows(joined));
    var wraps := MarkWraps(physical, logical);
    ghost var flags := WalkFlags(StripAll(physical), logical, 0);
    assert forall i :: 0 <= i < |physical| ==> wraps[i] == wraps[..][i];
    var visible := VisibleRows(physical, wraps);
    rows := PadRows(visible, size.rows);
    forall i | 0 <= i < |physical|
      ensures rows[i] == VisibleRow(physical[i], i, flags[i]) && TrimmedOf(rows[i].text, physical[i])
    {
      assert rows[i] == rows[..|visible|][i];
      TrimEndIs(physical[i]);
    }
    hide TrimmedOf;
  }

  method PadRows(visible: seq<Row>, height: nat) returns (rows: seq<Row>)
    requires height < 0x1_0000
    ensures |rows| == PaddedCount(|visible|, height) && rows[..|visible|] == visible
    ensures forall i :: |visible| <= i < |rows| ==> rows[i] == Row(AsU16(i), "", false)
  {
    rows := visible;
    while AsU16(|rows|) < height
      invariant |visible| <= |rows| <= PaddedCount(|visible|, height)
      invariant AsU16(|rows|) == AsU16(|visible|) + (|rows| - |visible|)
      invariant rows[..|visible|] == visible
      invariant forall i :: |visible| <= i < |rows| ==> rows[i] == Row(AsU16(i), "", false)
      decreases PaddedCount(|visible|, height) - |rows|
    {
      rows := rows + [Row(AsU16(|rows|), "", false)];
    }
  }

  /** On a grid of fewer than 65536 rows the recovered flags are the terminal's,
      if and only if no wrapped group ends in a blank row. */
  lemma RecoveredGrid(capture: string, joined: string, lens: seq<nat>)
    requires Groups(StripAll(CaptureRows(capture)), 0, StripAll(CaptureRows(joined)), lens)
    requires |CaptureRows(capture)| < 0x1_0000
    ensures forall k :: 0 <= k < |lens| ==> lens[k] > 0
    ensures WalkFlags(StripAll(CaptureRows(capture)), StripAll(CaptureRows(joined)), 0) == TrueFlags(lens)
       <==> NoBlankEnds(StripAll(CaptureRows(capture)), 0, lens)
  {
    WrapRecovery(StripAll(CaptureRows(capture)), StripAll(CaptureRows(joined)), lens);
  }

  /** Rows of one line each, without any whitespace. */
  predicate AllInk(rows: seq<string>) {
    forall i :: 0 <= i < |rows| ==> NoNewline(rows[i]) && StripWs(rows[i]) == rows[i]
  }

  lemma ReadsAs(rows: seq<string>, text: string)
    requires text == Unlines(rows) && AllInk(rows)
    ensures StripAll(CaptureRows(text)) == rows
  {
    CaptureReadsRows(rows);
  }

  lemma StrippedLetter(c: char)
    requires !IsWhitespace(c)
    ensures StripWs([c]) == [c]
  {
    assert [c][..0] == "";
  }

  lemma BlankPrints()
    ensures Unlines(["a", "", "b"]) == "a\n\nb\n" && Unlines(["a", "b"]) == "a\nb\n"
  {
    var b := ["b"];
    assert Unlines(b) == "b\n" by { assert b[1..] == []; }
    assert Unlines(["", "b"]) == "\nb\n" by { assert ["", "b"][1..] == b; }
    assert Unlines(["a", "", "b"]) == "a\n\nb\n" by { assert ["a", "", "b"][1..] == ["", "b"]; }
    assert Unlines(["a", "b"]) == "a\nb\n" by { assert ["a", "b"][1..] == b; }
  }

  lemma BlankInk()
    ensures AllInk(["a", "", "b"]) && AllInk(["a", "b"])
  {
    StrippedLetter('a');
    StrippedLetter('b');
    assert StripWs("") == "" && NoNewline("") && NoNewline("a") && NoNewline("b");
    hide StripWs;
    hide NoNewline;
  }

  lemma BlankTexts()
    ensures StripAll(CaptureRows("a\n\nb\n")) == ["a", "", "b"] && StripAll(CaptureRows("a\nb\n")) == ["a", "b"]
  {
    hide *;
    BlankPrints();
    BlankInk();
    ReadsAs(["a", "", "b"], "a\n\nb\n");
    ReadsAs(["a", "b"], "a\nb\n");
  }

  /** The lines `a` and `b` on three rows, the second a blank continuation of the first. */
  lemma BlankGroups()
    ensures Groups(["a", "", "b"], 0, ["a", "b"], [2, 1]) && !NoBlankEnds(["a", "", "b"], 0, [2, 1])
  {
    var rows := ["a", "", "b"];
    assert Joined(rows, 0, 1) == "a" && Joined(rows, 0, 2) == "a" && Joined(rows, 2, 3) == "b";
    assert [2, 1][1..] == [1] && [1][1..] == [] && ["a", "b"][1..] == ["b"] && ["b"][1..] == [];
    assert Groups(rows, 2, ["b"], [1]);
  }

  /** A line that wraps into a blank row loses that row's flag. */
  lemma BlankContinuationMisleads()
    ensures var rows, targets := StripAll(CaptureRows("a\n\nb\n")), StripAll(CaptureRows("a\nb\n"));
            Groups(rows, 0, targets, [2, 1]) && WalkFlags(rows, targets, 0) != TrueFlags([2, 1])
  {
    BlankTexts();
    BlankGroups();
    hide *;
    WrapRecovery(["a", "", "b"], ["a", "b"], [2, 1]);
  }

  // ------------------------------------------------------------------- the view

  /** Rows of a snapshot, inclusive. */
  datatype Viewport = Viewport(top: int, bottom: int)

  /** The rows the reader sees, of `len` captured rows, scrolled up by `scroll`. */
  function Window(len: nat, rows: nat, scroll: nat): Option<Viewport> {
    var height := if rows <= len then rows else len;
    if height == 0 then None
    else
      var up := if scroll <= len - height then scroll else len - height;
      var bottom := len - 1 - up;
      Some(Viewport(bottom - height + 1, bottom))
  }

  /** The view is a full screen of rows inside the capture with exactly the scrolled
      rows below it, or the topmost screen when the capture has no more; nothing else is. */
  lemma WindowIsTheView(len: nat, rows: nat, scroll: nat, v: Viewport)
    ensures Window(len, rows, scroll) == Some(v) <==>
              && 0 <= v.top <= v.bottom < len
              && (v.bottom - v.top + 1 == rows || (v.top == 0 && v.bottom == len - 1 && len <= rows))
              && (len - 1 - v.bottom == scroll || (v.top == 0 && len - 1 - v.bottom < scroll))
    ensures Window(len, rows, scroll).None? <==> len == 0 || rows == 0
  {
    var height := if rows <= len then rows else len;
    if height > 0 && 0 <= v.top <= v.bottom < len && v.bottom - v.top + 1 == height {
      assert len - 1 - v.bottom <= len - height;
    }
  }
}
