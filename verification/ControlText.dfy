/** The control connection from its text: what the server prints for a run of
    commands, and what each command call returns from it. */
module ControlText {
  import opened Text
  import opened Control
  import opened ControlTheorems

  /** One reply as lines: notifications before it, a header with a time, the number
      the server gave the command and flags, the content, and the closing. */
  datatype Reply = Reply(noise: seq<string>, time: string, num: nat, flags: string, content: seq<string>, failed: bool)

  function Header(kind: string, r: Reply): string {
    kind + " " + r.time + " " + Decimal(r.num) + r.flags
  }

  function ReplyLines(r: Reply): seq<string> {
    r.noise + [Header("%begin", r)] + r.content + [Header(if r.failed then "%error" else "%end", r)]
  }

  /** A line as printed: no newline inside, no line end of its own. */
  predicate Clean(line: string) {
    NoNewline(line) && (line == "" || line[|line| - 1] != '\r')
  }

  /** Notifications open no block, content does not begin with `%`, and the header's
      fields are words on one clean line. */
  predicate Printable(r: Reply) {
    && OneWord(r.time) && Clean(r.time) && Clean(r.flags) && (r.flags == "" || r.flags[0] == ' ')
    && r.num < 0x1_0000_0000_0000_0000
    && (forall i :: 0 <= i < |r.noise| ==> NoNewline(r.noise[i]) && !ParseEvent(r.noise[i]).BlockBegin?)
    && (forall i :: 0 <= i < |r.content| ==>
          NoNewline(r.content[i]) && (r.content[i] == "" || r.content[i][0] != '%'))
  }

  function BlockOf(r: Reply): Block {
    Block(Events(r.noise), r.num, Events(r.content), r.failed)
  }

  // ----------------------------------------------------------------- one header

  lemma DecimalIsWord(n: nat)
    ensures OneWord(Decimal(n)) && Clean(Decimal(n))
    ensures n < 0x1_0000_0000_0000_0000 ==> ParseUsize(Decimal(n)) == Some(n)
  {
    DecimalReads(n);
    var d := Decimal(n);
    assert forall i :: 0 <= i < |d| ==> IsDigit(d[i]);
    hide Decimal;
  }

  lemma SecondWord(time: string, d: string, flags: string, rest: string)
    requires OneWord(time) && OneWord(d) && (flags == "" || flags[0] == ' ')
    requires rest == " " + time + " " + d + flags
    ensures |Words(rest)| >= 2 && Words(rest)[1] == d
  {
    var tail, second := d + flags, time + " " + (d + flags);
    FirstWordLeads(d, flags);
    WordAlone(time);
    hide *;
    WordsAroundBlank(time, tail);
    FieldsInOrder(time, d, flags, rest);
    BlankFirst(second, rest);
  }

  lemma FieldsInOrder(time: string, d: string, flags: string, rest: string)
    requires rest == " " + time + " " + d + flags
    ensures rest == " " + (time + " " + (d + flags))
  {
  }

  lemma BlankFirst(s: string, rest: string)
    requires rest == " " + s
    ensures Words(rest) == Words(s)
  {
    assert rest[1..] == s;
  }

  /** The second word after the kind is the number. */
  lemma NumberField(time: string, num: nat, flags: string)
    requires OneWord(time) && num < 0x1_0000_0000_0000_0000 && (flags == "" || flags[0] == ' ')
    ensures NumField(" " + time + " " + Decimal(num) + flags) == Some(num)
  {
    DecimalIsWord(num);
    SecondWord(time, Decimal(num), flags, " " + time + " " + Decimal(num) + flags);
    hide Decimal;
    hide Words;
    hide ParseUsize;
  }

  lemma CleanIsTrimmed(line: string)
    requires Clean(line)
    ensures Trimmed(line) == line
  {
  }

  lemma CleanJoin(a: string, b: string)
    requires Clean(a) && Clean(b) && a != ""
    ensures Clean(a + b) && a + b != ""
  {
  }

  lemma HeaderClean(kind: string, r: Reply)
    requires Clean(kind) && kind != "" && Clean(r.time) && Clean(r.flags)
    ensures Clean(Header(kind, r))
  {
    DecimalIsWord(r.num);
    var d := Decimal(r.num);
    hide Decimal;
    CleanJoin(kind, " ");
    CleanJoin(kind + " ", r.time);
    CleanJoin(kind + " " + r.time, " ");
    CleanJoin(kind + " " + r.time + " ", d);
    CleanJoin(kind + " " + r.time + " " + d, r.flags);
  }

  /** A printed header parses to the event it stands for. */
  lemma HeadersParse(r: Reply)
    requires Printable(r)
    ensures ParseEvent(Header("%begin", r)) == BlockBegin(r.num)
    ensures ParseEvent(Header("%end", r)) == BlockEnd(r.num)
    ensures ParseEvent(Header("%error", r)) == BlockError(r.num)
  {
    var rest := " " + r.time + " " + Decimal(r.num) + r.flags;
    NumberField(r.time, r.num, r.flags);
    HeaderKind("%begin", r, rest);
    HeaderKind("%end", r, rest);
    HeaderKind("%error", r, rest);
    hide NumField;
    hide Trimmed;
    BeginIsNotOthers(rest);
  }

  lemma HeaderKind(kind: string, r: Reply, rest: string)
    requires Printable(r) && kind in {"%begin", "%end", "%error"}
    requires rest == " " + r.time + " " + Decimal(r.num) + r.flags
    ensures Header(kind, r) == kind + rest && Trimmed(Header(kind, r)) == kind + rest
    ensures HasPrefix(kind + rest, kind) && (kind + rest)[|kind|..] == rest
  {
    HeaderClean(kind, r);
    CleanIsTrimmed(Header(kind, r));
    HeaderParts(kind, r.time, Decimal(r.num), r.flags, rest);
    hide Decimal;
    hide Trimmed;
    hide ParseEvent;
    hide Clean;
  }

  lemma HeaderParts(kind: string, time: string, num: string, flags: string, rest: string)
    requires rest == " " + time + " " + num + flags
    ensures kind + " " + time + " " + num + flags == kind + rest
    ensures HasPrefix(kind + rest, kind) && (kind + rest)[|kind|..] == rest
  {
  }

  lemma BeginIsNotOthers(rest: string)
    ensures !HasPrefix("%end" + rest, "%begin")
    ensures !HasPrefix("%error" + rest, "%begin") && !HasPrefix("%error" + rest, "%end")
  {
    assert ("%end" + rest)[1] == 'e' && ("%error" + rest)[1] == 'e' && ("%error" + rest)[2] == 'r';
  }

  // ------------------------------------------------------------------- one reply

  lemma {:induction false} EventsJoin(a: seq<string>, b: seq<string>)
    ensures Events(a + b) == Events(a) + Events(b)
  {
    hide ParseEvent;
    if a == [] {
      assert a + b == b;
    } else {
      assert a + b == [a[0]] + (a[1..] + b);
      EventsStep(a[0], a[1..] + b);
      EventsJoin(a[1..], b);
    }
  }

  lemma EventsOfReply(noise: seq<string>, open: string, content: seq<string>, close: string)
    ensures Events(noise + [open] + content + [close])
         == Events(noise) + [ParseEvent(open)] + Events(content) + [ParseEvent(close)]
  {
    hide Events;
    hide ParseEvent;
    EventsJoin(noise + [open] + content, [close]);
    EventsJoin(noise + [open], content);
    EventsJoin(noise, [open]);
    OneEvent(open);
    OneEvent(close);
  }

  lemma NoiseIsNoise(noise: seq<string>)
    requires forall i :: 0 <= i < |noise| ==> !ParseEvent(noise[i]).BlockBegin?
    ensures forall i :: 0 <= i < |Events(noise)| ==> !Events(noise)[i].BlockBegin?
  {
    hide ParseEvent;
    if noise != [] {
      EventsAt(noise, 0);
      forall i | 0 <= i < |Events(noise)|
        ensures !Events(noise)[i].BlockBegin?
      {
        EventsAt(noise, i);
      }
    }
  }

  /** A printed reply is read as its block, whatever its content, and the block's
      body is the content, line ends trimmed. */
  lemma ReplyIsBlock(r: Reply)
    requires Printable(r)
    ensures Events(ReplyLines(r)) == BlockEvents(BlockOf(r)) && WellFormed(BlockOf(r))
    ensures |BodyOf(BlockOf(r).content)| == |r.content|
    ensures forall i :: 0 <= i < |r.content| ==> BodyOf(BlockOf(r).content)[i] == Trimmed(r.content[i])
  {
    HeadersParse(r);
    NoiseIsNoise(r.noise);
    PlainContent(r.content, r.num);
    EventsOfReply(r.noise, Header("%begin", r), r.content, Header(if r.failed then "%error" else "%end", r));
    hide Header;
    hide ParseEvent;
    hide Events;
    hide BodyOf;
    hide Trimmed;
    hide Clean;
    hide OneWord;
  }

  lemma OneEvent(line: string)
    ensures Events([line]) == [ParseEvent(line)]
  {
    hide ParseEvent;
    assert [line][1..] == [];
  }

  // ------------------------------------------------------------- the whole text

  function AllLines(replies: seq<Reply>): seq<string> {
    if replies == [] then [] else ReplyLines(replies[0]) + AllLines(replies[1..])
  }

  function BlocksOf(replies: seq<Reply>): (b: seq<Block>)
    ensures |b| == |replies| && forall i :: 0 <= i < |b| ==> b[i] == BlockOf(replies[i])
  {
    seq(|replies|, i requires 0 <= i < |replies| => BlockOf(replies[i]))
  }

  predicate AllPrintable(replies: seq<Reply>) {
    forall i :: 0 <= i < |replies| ==> Printable(replies[i])
  }

  lemma {:induction false} AllEvents(replies: seq<Reply>)
    requires AllPrintable(replies)
    ensures Events(AllLines(replies)) == Stream(BlocksOf(replies)) && AllWellFormed(BlocksOf(replies))
  {
    hide Printable;
    hide BlockEvents;
    hide ReplyLines;
    hide BlockOf;
    hide WellFormed;
    hide ParseEvent;
    if replies != [] {
      ReplyIsBlock(replies[0]);
      AllEvents(replies[1..]);
      EventsJoin(ReplyLines(replies[0]), AllLines(replies[1..]));
      assert BlocksOf(replies)[1..] == BlocksOf(replies[1..]);
      assert forall i :: 0 < i < |replies| ==> BlocksOf(replies)[i] == BlocksOf(replies[1..])[i - 1];
    }
  }

  lemma ReplyLinesClean(r: Reply)
    requires Printable(r)
    ensures forall i :: 0 <= i < |ReplyLines(r)| ==> NoNewline(ReplyLines(r)[i])
  {
    HeaderClean("%begin", r);
    HeaderClean("%end", r);
    HeaderClean("%error", r);
    hide Header;
    hide ParseEvent;
  }

  lemma {:induction false} AllLinesClean(replies: seq<Reply>)
    requires AllPrintable(replies)
    ensures forall i :: 0 <= i < |AllLines(replies)| ==> NoNewline(AllLines(replies)[i])
  {
    hide Printable;
    hide ReplyLines;
    hide NoNewline;
    if replies != [] {
      ReplyLinesClean(replies[0]);
      AllLinesClean(replies[1..]);
    }
  }

  /** What the k-th command answers from the k-th reply. */
  predicate Answered(r: Reply, attempt: Scanned) {
    if r.failed then attempt.Refused?
    else attempt.Done? && |attempt.body| == |r.content|
         && forall i :: 0 <= i < |r.content| ==> attempt.body[i] == Trimmed(r.content[i])
  }

  lemma KthReply(attach: Reply, replies: seq<Reply>, k: nat, c: Connection)
    requires Printable(attach) && AllPrintable(replies) && k < |replies|
    requires c == AfterCommands(Fresh(BlockOf(attach), BlocksOf(replies), []), k)
    ensures Answered(replies[k], Attempt(c))
    ensures AfterOne(c) == Connection(Stream(BlocksOf(replies)[k + 1..]) + [], false)
  {
    TextEvents(attach, replies);
    ReplyIsBlock(replies[k]);
    hide Printable;
    hide BlockOf;
    hide Attempt;
    hide AfterOne;
    hide AfterCommands;
    hide BodyOf;
    hide Stream;
    hide Trimmed;
    hide WellFormed;
    hide Fresh;
    KthCommandGetsKthBlock(BlockOf(attach), BlocksOf(replies), [], k);
  }

  lemma RestOfText(replies: seq<Reply>, k: nat)
    requires AllPrintable(replies) && k < |replies|
    ensures Stream(BlocksOf(replies)[k + 1..]) + [] == Events(AllLines(replies[k + 1..]))
  {
    assert AllPrintable(replies[k + 1..]);
    AllEvents(replies[k + 1..]);
    hide Printable;
    hide BlockOf;
    assert BlocksOf(replies[k + 1..]) == BlocksOf(replies)[k + 1..];
  }

  /** On the text of an attach reply followed by one reply a command, with whatever
      part of a line after it, the k-th command is answered by the k-th reply: its
      content lines in order, line ends trimmed, or a refusal if it closed with an
      error; and what is left to read is exactly the replies after it. */
  lemma KthCommandFromText(attach: Reply, replies: seq<Reply>, partial: string, k: nat)
    requires Printable(attach) && AllPrintable(replies) && NoNewline(partial) && k < |replies|
    ensures var text := Unlines(ReplyLines(attach) + AllLines(replies)) + partial;
            var c := AfterCommands(Connection(Events(Lines(text)), true), k);
            && Answered(replies[k], Attempt(c))
            && AfterOne(c) == Connection(Events(AllLines(replies[k + 1..])), false)
  {
    TextLines(attach, replies, partial);
    TextEvents(attach, replies);
    RestOfText(replies, k);
    hide *;
    KthReply(attach, replies, k, AfterCommands(Fresh(BlockOf(attach), BlocksOf(replies), []), k));
  }

  lemma TextLines(attach: Reply, replies: seq<Reply>, partial: string)
    requires Printable(attach) && AllPrintable(replies) && NoNewline(partial)
    ensures var lines := ReplyLines(attach) + AllLines(replies); Lines(Unlines(lines) + partial) == lines
  {
    ReplyLinesClean(attach);
    AllLinesClean(replies);
    hide ReplyLines;
    hide AllLines;
    hide NoNewline;
    LinesOfUnlines(ReplyLines(attach) + AllLines(replies), partial);
  }

  lemma TextEvents(attach: Reply, replies: seq<Reply>)
    requires Printable(attach) && AllPrintable(replies)
    ensures Connection(Events(ReplyLines(attach) + AllLines(replies)), true) == Fresh(BlockOf(attach), BlocksOf(replies), [])
    ensures WellFormed(BlockOf(attach)) && AllWellFormed(BlocksOf(replies))
  {
    ReplyIsBlock(attach);
    AllEvents(replies);
    EventsJoin(ReplyLines(attach), AllLines(replies));
    hide ReplyLines;
    hide AllLines;
    hide Events;
    hide BlockEvents;
    hide Stream;
    hide WellFormed;
    assert Stream(BlocksOf(replies)) + [] == Stream(BlocksOf(replies));
  }

  // ------------------------------------------------------------ healthy commands

  /** What a caller gets for one reply: its lines, or the failure. */
  predicate Returned(r: Reply, result: Result<seq<string>, CommandError>) {
    if r.failed then result == Err(Failed)
    else result.Ok? && |result.value| == |r.content|
         && forall i :: 0 <= i < |r.content| ==> result.value[i] == Trimmed(r.content[i])
  }

  /** A finished answer of the k-th command is the k-th reply. */
  lemma KthAnswer(r: Reply, c: Connection, result: Result<seq<string>, CommandError>, left: seq<Event>, firstLeft: bool)
    requires Answers(c.events, c.first, result, left, firstLeft) && Finished(result) && Answered(r, Attempt(c))
    ensures Returned(r, result) && Connection(left, firstLeft) == AfterOne(c)
  {
    AnswersFollowAttempt(c, result, left, firstLeft);
    hide Answers;
    hide Attempt;
    hide AfterOne;
    hide Trimmed;
  }

  lemma NextAnswer(attach: Reply, replies: seq<Reply>, partial: string, k: nat, fresh_: Connection,
                   result: Result<seq<string>, CommandError>, left: seq<Event>, firstLeft: bool)
    requires Printable(attach) && AllPrintable(replies) && NoNewline(partial) && k < |replies|
    requires fresh_ == Connection(Events(Lines(Unlines(ReplyLines(attach) + AllLines(replies)) + partial)), true)
    requires var c := AfterCommands(fresh_, k); Answers(c.events, c.first, result, left, firstLeft) && Finished(result)
    ensures Returned(replies[k], result) && Connection(left, firstLeft) == AfterCommands(fresh_, k + 1)
    ensures left == Events(AllLines(replies[k + 1..])) && !firstLeft
  {
    KthCommandFromText(attach, replies, partial, k);
    KthAnswer(replies[k], AfterCommands(fresh_, k), result, left, firstLeft);
    assert AfterCommands(fresh_, k + 1) == AfterOne(AfterCommands(fresh_, k));
    hide *;
  }

  /** Every deadline holds and no read fails, whichever turns each command takes. */
  ghost predicate AllHealthy(worlds: seq<World>, starts: seq<nat>)
    requires |worlds| == |starts|
  {
    forall i :: 0 <= i < |worlds| ==> Healthy(worlds[i], starts[i] + PATIENCE, 0)
  }

  /** The text of a whole session: the attach reply, the replies, part of a line. */
  function SessionText(attach: Reply, replies: seq<Reply>, partial: string): string {
    Unlines(ReplyLines(attach) + AllLines(replies)) + partial
  }

  predicate Deliverable(attach: Reply, replies: seq<Reply>, partial: string) {
    Printable(attach) && AllPrintable(replies) && NoNewline(partial)
  }

  /** Where a connection stands after `k` commands on this text. */
  ghost predicate Stands(client: ControlClient, text: string, k: nat)
    reads client, client.stdout
  {
    && client.stdout.Valid()
    && Connection(client.Pending(), client.firstBlock) == AfterCommands(Connection(Events(Lines(text)), true), k)
  }

  /** All that is left to read are the replies from the `k`-th on. */
  ghost predicate LeftFrom(client: ControlClient, replies: seq<Reply>, k: nat)
    requires k <= |replies|
    reads client, client.stdout
  {
    client.Pending() == Events(AllLines(replies[k..])) && !client.firstBlock
  }

  /** These results are the first replies, in order. */
  predicate InOrder(replies: seq<Reply>, results: seq<Result<seq<string>, CommandError>>) {
    |results| <= |replies| && forall i :: 0 <= i < |results| ==> Returned(replies[i], results[i])
  }

  lemma InOrderSnoc(replies: seq<Reply>, results: seq<Result<seq<string>, CommandError>>,
                    result: Result<seq<string>, CommandError>)
    requires InOrder(replies, results) && |results| < |replies| && Returned(replies[|results|], result)
    ensures InOrder(replies, results + [result])
  {
    hide Returned;
  }

  lemma OneHealthy(worlds: seq<World>, starts: seq<nat>, k: nat)
    requires |worlds| == |starts| && AllHealthy(worlds, starts) && k < |worlds|
    ensures Healthy(worlds[k], starts[k] + PATIENCE, 0)
  {
  }

  /** The next healthy command returns the next reply. */
  method NextReply(client: ControlClient, world: World, start: nat,
                   ghost attach: Reply, ghost replies: seq<Reply>, ghost partial: string, ghost k: nat)
    returns (result: Result<seq<string>, CommandError>)
    requires Deliverable(attach, replies, partial) && k < |replies|
    requires Stands(client, SessionText(attach, replies, partial), k) && Healthy(world, start + PATIENCE, 0)
    modifies client, client.stdout
    ensures Returned(replies[k], result) && Stands(client, SessionText(attach, replies, partial), k + 1)
    ensures LeftFrom(client, replies, k + 1)
  {
    hide Printable;
    hide AllPrintable;
    hide Answers;
    hide Finished;
    hide Returned;
    hide AfterCommands;
    hide Events;
    hide Lines;
    hide Unlines;
    hide AllLines;
    hide ReplyLines;
    hide NoNewline;
    assert Healthy(world, start + PATIENCE, client.stdout.turn);
    hide Healthy;
    ghost var fresh_ := Connection(Events(Lines(SessionText(attach, replies, partial))), true);
    result := client.Command(world, start);
    NextAnswer(attach, replies, partial, k, fresh_, result, client.Pending(), client.firstBlock);
  }

  /** Healthy commands on a fresh connection return the server's replies in order, as
      many as are issued, and leave exactly the replies after them; each command has
      its own clock and its own start. */
  method Commands(client: ControlClient, worlds: seq<World>, starts: seq<nat>,
                  ghost attach: Reply, ghost replies: seq<Reply>, ghost partial: string)
    returns (results: seq<Result<seq<string>, CommandError>>)
    requires Deliverable(attach, replies, partial)
    requires client.stdout.Valid() && client.firstBlock
    requires client.stdout.Remaining() == SessionText(attach, replies, partial)
    requires |worlds| == |starts| <= |replies| && AllHealthy(worlds, starts)
    modifies client, client.stdout
    ensures |results| == |worlds| && InOrder(replies, results)
    ensures worlds != [] ==> LeftFrom(client, replies, |worlds|)
  {
    results := [];
    assert InOrder(replies, results);
    hide InOrder;
    assert Stands(client, SessionText(attach, replies, partial), 0);
    hide Stands;
    hide SessionText;
    hide Deliverable;
    hide LeftFrom;
    hide Returned;
    hide Healthy;
    hide AllHealthy;
    for k := 0 to |worlds|
      invariant |results| == k && Stands(client, SessionText(attach, replies, partial), k)
      invariant InOrder(replies, results)
      invariant k > 0 ==> LeftFrom(client, replies, k)
    {
      OneHealthy(worlds, starts, k);
      var result := NextReply(client, worlds[k], starts[k], attach, replies, partial, k);
      InOrderSnoc(replies, results, result);
      results := results + [result];
    }
  }

  // ------------------------------------------------------------ what notices name

  lemma SpaceFirst(rest: string)
    requires rest != "" && rest[0] == ' '
    ensures SplitTwo(rest) == ("", TrimStart(rest[1..]))
  {
    assert rest[..0] == "";
  }

  /** The server prints a blank after the word of a notice, and the fields are split at
      the first blank: the pane of an output, like the id of a session change, is always
      read as empty, and the rest as one text. */
  lemma NoticeNamesNothing(rest: string)
    ensures EventOf("%output " + rest) == Notice(Output("", TrimStart(rest)))
    ensures EventOf("%session-changed " + rest) == Notice(SessionChanged("", TrimStart(rest)))
  {
    NoticeSplits("%output", "%output " + rest, rest);
    NoticeSplits("%session-changed", "%session-changed " + rest, rest);
    assert ("%output " + rest)[1] == 'o' && ("%session-changed " + rest)[1] == 's';
    NotThatWord("%output " + rest, "%begin");
    NotThatWord("%output " + rest, "%end");
    NotThatWord("%output " + rest, "%error");
    NotThatWord("%session-changed " + rest, "%begin");
    NotThatWord("%session-changed " + rest, "%end");
    NotThatWord("%session-changed " + rest, "%error");
    NotThatWord("%session-changed " + rest, "%output");
    hide SplitTwo;
    hide HasPrefix;
    hide NumField;
  }

  lemma NotThatWord(s: string, word: string)
    requires |s| > 1 && |word| > 1 && s[1] != word[1]
    ensures !HasPrefix(s, word)
  {
    assert |word| <= |s| ==> s[..|word|][1] == s[1];
  }

  lemma NoticeSplits(word: string, s: string, rest: string)
    requires s == word + " " + rest
    ensures HasPrefix(s, word) && SplitTwo(s[|word|..]) == ("", TrimStart(rest))
  {
    assert s[..|word|] == word && s[|word|..] == " " + rest && (" " + rest)[1..] == rest;
    SpaceFirst(" " + rest);
  }

  predicate HasInk(s: string) {
    exists k :: 0 <= k < |s| && !IsWhitespace(s[k])
  }

  lemma {:induction false} TrimStartInk(s: string)
    ensures HasInk(TrimStart(s)) <==> HasInk(s)
  {
    if s != "" && IsWhitespace(s[0]) {
      TrimStartInk(s[1..]);
      if HasInk(s) {
        var k :| 0 <= k < |s| && !IsWhitespace(s[k]);
        assert s[1..][k - 1] == s[k];
      }
      if HasInk(s[1..]) {
        var k :| 0 <= k < |s[1..]| && !IsWhitespace(s[1..][k]);
        assert s[k + 1] == s[1..][k];
      }
    }
  }

  lemma {:induction false} TrimEndInk(s: string)
    ensures TrimEnd(s) != "" <==> HasInk(s)
  {
    if s != "" && IsWhitespace(s[|s| - 1]) {
      TrimEndInk(s[..|s| - 1]);
    }
  }

  /** A pane is read exactly from a line that runs it into the word without a blank. */
  lemma PaneIsReadIff(rest: string)
    ensures SplitTwo(rest).0 != "" <==> HasInk(rest[..SpaceAt(rest)])
  {
    TrimStartInk(rest[..SpaceAt(rest)]);
    TrimEndInk(TrimStart(rest[..SpaceAt(rest)]));
  }
}
