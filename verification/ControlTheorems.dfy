/** What a control connection guarantees on every chunking of every well-formed stream. */
module ControlTheorems {
  import opened Text
  import opened Control

  // ------------------------------------------------------------------ framing

  /** Splitting undoes printing, and whatever follows the last newline is not a line. */
  lemma {:induction false} LinesOfUnlines(lines: seq<string>, tail: string)
    requires forall i :: 0 <= i < |lines| ==> NoNewline(lines[i])
    requires NoNewline(tail)
    ensures Lines(Unlines(lines) + tail) == lines
  {
    if lines == [] {
      assert Unlines(lines) + tail == tail;
      LinesNone(tail);
    } else {
      LinesOfUnlines(lines[1..], tail);
      assert Unlines(lines) + tail == lines[0] + "\n" + (Unlines(lines[1..]) + tail);
      LinesStep(lines[0], Unlines(lines[1..]) + tail);
    }
  }

  // ------------------------------------------------------------------- blocks

  /** One reply as the server writes it: events outside any block, the opening,
      the content, and the closing, which says whether the command failed. */
  datatype Block = Block(noise: seq<Event>, num: nat, content: seq<Event>, failed: bool)

  /** A content event neither opens a block nor closes this one. */
  predicate IsContent(e: Event, num: nat) {
    !e.BlockBegin? && e != BlockEnd(num) && e != BlockError(num)
  }

  predicate WellFormed(b: Block) {
    && (forall i :: 0 <= i < |b.noise| ==> !b.noise[i].BlockBegin?)
    && (forall i :: 0 <= i < |b.content| ==> IsContent(b.content[i], b.num))
  }

  predicate AllWellFormed(blocks: seq<Block>) {
    forall i :: 0 <= i < |blocks| ==> WellFormed(blocks[i])
  }

  function Closing(b: Block): Event {
    if b.failed then BlockError(b.num) else BlockEnd(b.num)
  }

  function BlockEvents(b: Block): seq<Event> {
    b.noise + [BlockBegin(b.num)] + b.content + [Closing(b)]
  }

  function Stream(blocks: seq<Block>): seq<Event> {
    if blocks == [] then [] else BlockEvents(blocks[0]) + Stream(blocks[1..])
  }

  /** The content that is body text. */
  function BodyOf(content: seq<Event>): seq<string> {
    if content == [] then []
    else TextOf(content[0]) + BodyOf(content[1..])
  }

  /** What a command answers from one block. */
  function ReplyOf(b: Block, used: nat): Scanned {
    if b.failed then Refused(used) else Done(BodyOf(b.content), used)
  }

  lemma {:induction false} ScanNoise(noise: seq<Event>, rest: seq<Event>, body: seq<string>, first: bool, n: nat,
                                     scanned: Scanned)
    requires forall i :: 0 <= i < |noise| ==> !noise[i].BlockBegin?
    requires scanned == Scan(noise + rest, None, body, first, n)
    ensures scanned == Scan(rest, None, body, first, n + |noise|)
    decreases |noise|
  {
    if noise == [] {
      assert noise + rest == rest;
    } else {
      assert noise + rest == [noise[0]] + (noise[1..] + rest);
      ScanTurn(noise[0], noise[1..] + rest, None, body, first, n, scanned);
      ScanNoise(noise[1..], rest, body, first, n + 1, scanned);
    }
  }

  /** The text one content event adds. */
  function TextOf(e: Event): seq<string> {
    if e.Body? then [e.text] else []
  }

  lemma ContentTurn(e: Event, tail: seq<Event>, num: nat, body: seq<string>, first: bool, n: nat, scanned: Scanned)
    requires IsContent(e, num) && scanned == Scan([e] + tail, Some(num), body, first, n)
    ensures scanned == Scan(tail, Some(num), body + TextOf(e), first, n + 1)
  {
    ScanTurn(e, tail, Some(num), body, first, n, scanned);
    hide Scan;
    assert body + [] == body;
  }

  lemma {:induction false} ScanContent(content: seq<Event>, num: nat, rest: seq<Event>, body: seq<string>, first: bool,
                                       n: nat, scanned: Scanned)
    requires forall i :: 0 <= i < |content| ==> IsContent(content[i], num)
    requires scanned == Scan(content + rest, Some(num), body, first, n)
    ensures scanned == Scan(rest, Some(num), body + BodyOf(content), first, n + |content|)
    decreases |content|
  {
    hide Scan;
    hide IsContent;
    if content == [] {
      assert content + rest == rest && body + BodyOf(content) == body;
    } else {
      var e, tail := content[0], content[1..];
      assert content + rest == [e] + (tail + rest);
      ContentTurn(e, tail + rest, num, body, first, n, scanned);
      ScanContent(tail, num, rest, body + TextOf(e), first, n + 1, scanned);
      assert body + BodyOf(content) == (body + TextOf(e)) + BodyOf(tail);
    }
  }

  lemma BlockParts(b: Block, rest: seq<Event>)
    ensures BlockEvents(b) + rest == b.noise + ([BlockBegin(b.num)] + (b.content + ([Closing(b)] + rest)))
    ensures |BlockEvents(b)| == |b.noise| + |b.content| + 2
  {
  }

  /** Read one whole block: it is the answer, unless it is the attach block. */
  lemma ScanBlock(b: Block, rest: seq<Event>, body: seq<string>, first: bool, n: nat, scanned: Scanned)
    requires WellFormed(b)
    requires scanned == Scan(BlockEvents(b) + rest, None, body, first, n)
    ensures scanned == if first then Scan(rest, None, BodyOf(b.content), false, n + |BlockEvents(b)|)
                       else ReplyOf(b, n + |BlockEvents(b)|)
  {
    BlockParts(b, rest);
    var atClose := [Closing(b)] + rest;
    var atContent := b.content + atClose;
    ScanNoise(b.noise, [BlockBegin(b.num)] + atContent, body, first, n, scanned);
    ScanTurn(BlockBegin(b.num), atContent, None, body, first, n + |b.noise|, scanned);
    ScanContent(b.content, b.num, atClose, [], first, n + |b.noise| + 1, scanned);
    assert [] + BodyOf(b.content) == BodyOf(b.content);
    ScanTurn(Closing(b), rest, Some(b.num), BodyOf(b.content), first, n + |b.noise| + 1 + |b.content|, scanned);
  }

  // ------------------------------------------------------------------ pairing

  /** The events and the attach flag a command starts from. */
  datatype Connection = Connection(events: seq<Event>, first: bool)

  function Attempt(c: Connection): Scanned {
    Scan(c.events, None, [], c.first, 0)
  }

  /** What is left once a command has its answer. */
  function AfterOne(c: Connection): Connection {
    var scanned := Attempt(c);
    if scanned.Starved? || scanned.used > |c.events| then Connection([], c.first)
    else Connection(c.events[scanned.used..], false)
  }

  function AfterCommands(c: Connection, k: nat): Connection {
    if k == 0 then c else AfterOne(AfterCommands(c, k - 1))
  }

  /** A command on these events answers what `Attempt` says and leaves what
      `AfterOne` says; an answer that no deadline and no failed read cut short is a
      body, a refusal or the end exactly when the attempt is. */
  lemma AnswersFollowAttempt(c: Connection, r: Result<seq<string>, CommandError>, left: seq<Event>, firstLeft: bool)
    requires Answers(c.events, c.first, r, left, firstLeft)
    ensures r.Ok? ==> Attempt(c).Done? && Attempt(c).body == r.value && Connection(left, firstLeft) == AfterOne(c)
    ensures r == Err(Failed) ==> Attempt(c).Refused? && Connection(left, firstLeft) == AfterOne(c)
    ensures r == Err(Broken(Closed)) ==> Attempt(c).Starved?
    ensures Finished(r) ==>
              && (r.Ok? <==> Attempt(c).Done?) && (r == Err(Failed) <==> Attempt(c).Refused?)
              && (r == Err(Broken(Closed)) <==> Attempt(c).Starved?)
  {
  }

  lemma NextBlock(b: Block, rest: seq<Event>)
    requires WellFormed(b)
    ensures Attempt(Connection(BlockEvents(b) + rest, false)) == ReplyOf(b, |BlockEvents(b)|)
    ensures AfterOne(Connection(BlockEvents(b) + rest, false)) == Connection(rest, false)
  {
    var c := Connection(BlockEvents(b) + rest, false);
    ScanBlock(b, rest, [], false, 0, Attempt(c));
    assert (BlockEvents(b) + rest)[|BlockEvents(b)|..] == rest;
  }

  /** A fresh connection answers its first command from the block after the attach block. */
  lemma FirstCommand(attach: Block, b: Block, rest: seq<Event>)
    requires WellFormed(attach) && WellFormed(b)
    ensures var c := Connection(BlockEvents(attach) + (BlockEvents(b) + rest), true);
            && Attempt(c) == ReplyOf(b, |BlockEvents(attach)| + |BlockEvents(b)|)
            && AfterOne(c) == Connection(rest, false)
  {
    var c := Connection(BlockEvents(attach) + (BlockEvents(b) + rest), true);
    ScanBlock(attach, BlockEvents(b) + rest, [], true, 0, Attempt(c));
    ScanBlock(b, rest, BodyOf(attach.content), false, |BlockEvents(attach)|, Attempt(c));
    assert c.events == (BlockEvents(attach) + BlockEvents(b)) + rest;
    assert c.events[|BlockEvents(attach)| + |BlockEvents(b)|..] == rest;
  }

  /** A connection nobody has read from: the attach block, then the replies. */
  function Fresh(attach: Block, blocks: seq<Block>, tail: seq<Event>): Connection {
    Connection(BlockEvents(attach) + (Stream(blocks) + tail), true)
  }

  lemma StreamFrom(blocks: seq<Block>, k: nat, tail: seq<Event>)
    requires k < |blocks|
    ensures Stream(blocks[k..]) + tail == BlockEvents(blocks[k]) + (Stream(blocks[k + 1..]) + tail)
  {
    assert blocks[k..][1..] == blocks[k + 1..];
  }

  lemma {:induction false} AfterKCommands(attach: Block, blocks: seq<Block>, tail: seq<Event>, k: nat)
    requires WellFormed(attach) && AllWellFormed(blocks) && 0 < k <= |blocks|
    ensures AfterCommands(Fresh(attach, blocks, tail), k) == Connection(Stream(blocks[k..]) + tail, false)
    decreases k
  {
    var c := Fresh(attach, blocks, tail);
    StreamFrom(blocks, k - 1, tail);
    var rest := Stream(blocks[k..]) + tail;
    if k == 1 {
      assert blocks[0..] == blocks;
      FirstCommand(attach, blocks[0], rest);
      assert AfterCommands(c, 0) == c;
    } else {
      AfterKCommands(attach, blocks, tail, k - 1);
      NextBlock(blocks[k - 1], rest);
    }
  }

  /** The k-th command is answered by the k-th block, body or refusal, and the
      events left over are exactly the blocks after it. */
  lemma KthCommandGetsKthBlock(attach: Block, blocks: seq<Block>, tail: seq<Event>, k: nat)
    requires WellFormed(attach) && AllWellFormed(blocks) && k < |blocks|
    ensures var c := AfterCommands(Fresh(attach, blocks, tail), k);
            && !Attempt(c).Starved? && Attempt(c) == ReplyOf(blocks[k], Attempt(c).used)
            && AfterOne(c) == Connection(Stream(blocks[k + 1..]) + tail, false)
  {
    var rest := Stream(blocks[k + 1..]) + tail;
    StreamFrom(blocks, k, tail);
    if k == 0 {
      assert blocks[0..] == blocks;
      FirstCommand(attach, blocks[0], rest);
    } else {
      AfterKCommands(attach, blocks, tail, k);
      NextBlock(blocks[k], rest);
    }
  }

  /** The body is the whole content if and only if every content event is body text. */
  lemma {:induction false} BodyIsWholeContent(content: seq<Event>)
    ensures |BodyOf(content)| <= |content|
    ensures |BodyOf(content)| == |content| <==> forall e :: e in content ==> e.Body?
  {
    if content != [] {
      BodyIsWholeContent(content[1..]);
      assert content == [content[0]] + content[1..];
    }
  }

  lemma {:induction false} EventsAt(lines: seq<string>, i: nat)
    requires i < |lines|
    ensures |Events(lines)| == |lines| && Events(lines)[i] == ParseEvent(lines[i])
  {
    if i > 0 {
      EventsAt(lines[1..], i - 1);
    } else if |lines| > 1 {
      EventsAt(lines[1..], 0);
    }
  }

  /** Content lines that do not begin with `%` come back whole, line ends trimmed. */
  lemma {:induction false} PlainContent(lines: seq<string>, num: nat)
    requires forall i :: 0 <= i < |lines| ==> lines[i] == "" || lines[i][0] != '%'
    ensures |Events(lines)| == |lines| && |BodyOf(Events(lines))| == |lines|
    ensures forall i :: 0 <= i < |lines| ==> IsContent(Events(lines)[i], num)
    ensures forall i :: 0 <= i < |lines| ==> BodyOf(Events(lines))[i] == Trimmed(lines[i])
  {
    if lines != [] {
      PlainLineIsBody(lines[0]);
      PlainContent(lines[1..], num);
    }
  }
}
