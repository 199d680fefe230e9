/** A control-mode connection: newline framing over arbitrary reads (`next_line`),
    one event per line (`parse_event`), and replies paired with commands
    (`ControlClient::command`). */
module Control {
  import opened Text

  // ------------------------------------------------------------------ framing

  function Flatten(chunks: seq<string>): string {
    if chunks == [] then "" else chunks[0] + Flatten(chunks[1..])
  }

  /** The newline-terminated lines of a stream, in order. */
  function Lines(stream: string): seq<string>
    decreases |stream|
  {
    var n := LineLength(stream);
    if n == |stream| then [] else [stream[..n]] + Lines(stream[n + 1..])
  }

  /** How far the first newline is, the whole length without one. */
  function LineLength(s: string): (n: nat)
    ensures n <= |s| && NoNewline(s[..n])
    ensures n < |s| ==> s[n] == '\n'
  {
    if s == "" || s[0] == '\n' then 0
    else
      var n := 1 + LineLength(s[1..]);
      assert s[..n] == [s[0]] + s[1..][..n - 1];
      n
  }

  lemma {:induction false} LineLengthIs(line: string, rest: string)
    requires NoNewline(line)
    ensures LineLength(line + "\n" + rest) == |line|
    decreases |line|
  {
    var s := line + "\n" + rest;
    if line != "" {
      assert s[1..] == line[1..] + "\n" + rest;
      LineLengthIs(line[1..], rest);
    }
  }

  lemma LinesStep(line: string, rest: string)
    requires NoNewline(line)
    ensures Lines(line + "\n" + rest) == [line] + Lines(rest)
  {
    LineLengthIs(line, rest);
    var s := line + "\n" + rest;
    assert s[..|line|] == line && s[|line| + 1..] == rest;
  }

  lemma LinesNone(s: string)
    requires NoNewline(s)
    ensures Lines(s) == []
  {
  }

  datatype ReadError = TimedOut | Closed | ReadFailed

  /** What a reader cannot decide: the time at each turn of its loop, and whether a
      read of the pipe fails on that turn. */
  datatype World = World(clock: nat -> nat, fails: nat -> bool)

  /** From this turn on no deadline passes and no read fails. */
  ghost predicate Healthy(world: World, deadline: nat, turn: nat) {
    forall t :: t >= turn ==> world.clock(t) <= deadline && !world.fails(t)
  }

  /** The deadline had not passed on any of these turns. */
  ghost predicate OnTime(world: World, deadline: nat, from: nat, upto: nat) {
    forall t :: from <= t < upto ==> world.clock(t) <= deadline
  }

  lemma OneTurnMore(world: World, deadline: nat, from: nat, turn: nat)
    requires OnTime(world, deadline, from, turn) && world.clock(turn) <= deadline
    ensures OnTime(world, deadline, from, turn + 1)
  {
  }

  lemma HealthyNeverStruck(why: ReadError, world: World, deadline: nat, from: nat, turn: nat)
    requires Healthy(world, deadline, from) && turn >= from && Struck(why, world, deadline, turn)
    ensures why == Closed
  {
  }

  /** An error other than the end of file struck on this turn, for its own reason. */
  predicate Struck(why: ReadError, world: World, deadline: nat, turn: nat) {
    match why
    case TimedOut => world.clock(turn) > deadline
    case ReadFailed => world.fails(turn)
    case Closed => true
  }

  /** A buffered pipe: what is read but not consumed, then the chunks the other
      end will still deliver. After the last chunk comes the end of file. `turn`
      counts the turns of the loops reading it. */
  class Reader {
    var buffered: string
    var pending: seq<string>
    var turn: nat

    ghost predicate Valid()
      reads this
    {
      forall i :: 0 <= i < |pending| ==> pending[i] != ""
    }

    ghost function Remaining(): string
      reads this
    {
      buffered + Flatten(pending)
    }

    constructor (chunks: seq<string>)
      requires forall i :: 0 <= i < |chunks| ==> chunks[i] != ""
      ensures Valid() && Remaining() == Flatten(chunks)
    {
      buffered, pending, turn := "", chunks, 0;
    }

    /** The unconsumed bytes, refilled when there are none; empty at the end of file.
        Only a refill reads the pipe, so only a refill can fail. */
    method FillBuf(fails: bool) returns (buffer: Result<string, ReadError>)
      requires Valid()
      modifies this`buffered, this`pending
      ensures Valid() && Remaining() == old(Remaining())
      ensures buffer == if old(buffered) == "" && fails then Err(ReadFailed) else Ok(buffered)
      ensures buffer.Ok? ==> buffer.value <= Remaining()
      ensures buffer == Ok("") ==> Remaining() == ""
    {
      if buffered == "" {
        if fails {
          return Err(ReadFailed);
        }
        if pending != [] {
          buffered, pending := pending[0], pending[1..];
        }
      }
      buffer := Ok(buffered);
    }

    method Consume(n: nat)
      requires Valid() && n <= |buffered|
      modifies this`buffered
      ensures Valid() && Remaining() == old(Remaining())[n..]
    {
      buffered := buffered[n..];
    }
  }

  /** Position of the first newline in what was read. */
  function Position(buffer: string): Option<nat> {
    var n := LineLength(buffer);
    if n == |buffer| then None else Some(n)
  }

  lemma LineFound(stream: string, buffer: string, before: string, read: string, index: nat)
    requires stream == buffer + before && read <= before && NoNewline(buffer)
    requires Position(read) == Some(index)
    ensures index < |read| && NoNewline(buffer + read[..index])
    ensures stream == buffer + read[..index] + "\n" + before[index + 1..]
    ensures Lines(stream) == [buffer + read[..index]] + Lines(before[index + 1..])
  {
    assert before == read[..index] + "\n" + before[index + 1..];
    assert stream == buffer + read[..index] + "\n" + before[index + 1..];
    LinesStep(buffer + read[..index], before[index + 1..]);
  }

  lemma ChunkTaken(stream: string, buffer: string, before: string, read: string)
    requires stream == buffer + before && read <= before && NoNewline(buffer)
    requires Position(read) == None
    ensures NoNewline(buffer + read) && stream == (buffer + read) + before[|read|..]
  {
    assert read[..|read|] == read;
    assert before == read + before[|read|..];
  }

  /** What reading one line may answer, of a stream and of what is left of it. */
  ghost predicate ReadsLine(stream: string, r: Result<string, ReadError>, left: string) {
    match r
    case Ok(line) => NoNewline(line) && stream == line + "\n" + left && Lines(stream) == [line] + Lines(left)
    case Err(why) => why == Closed ==> Lines(stream) == [] && left == ""
  }

  /** One line. Whatever the chunking, the lines handed out are the stream's lines, and
      there is one whenever the stream has one, unless on the last turn taken the
      deadline had passed or a read failed; the part already taken is then lost. */
  method NextLine(reader: Reader, world: World, deadline: nat) returns (r: Result<string, ReadError>)
    requires reader.Valid()
    modifies reader
    ensures reader.Valid() && reader.turn > old(reader.turn)
    ensures ReadsLine(old(reader.Remaining()), r, reader.Remaining())
    ensures r.Err? ==> Struck(r.error, world, deadline, reader.turn - 1)
    ensures r == Err(TimedOut) <==> world.clock(reader.turn - 1) > deadline
    ensures OnTime(world, deadline, old(reader.turn), reader.turn - 1)
    ensures Healthy(world, deadline, old(reader.turn)) ==> (r.Ok? <==> Lines(old(reader.Remaining())) != [])
  {
    r := TakeLine(reader, world, deadline);
    hide Healthy;
    hide Lines;
    hide NoNewline;
    if Healthy(world, deadline, old(reader.turn)) && r.Err? {
      HealthyNeverStruck(r.error, world, deadline, old(reader.turn), reader.turn - 1);
    }
  }

  /** The loop: turn after turn until a newline, the end, or trouble. */
  method TakeLine(reader: Reader, world: World, deadline: nat) returns (r: Result<string, ReadError>)
    requires reader.Valid()
    modifies reader
    ensures reader.Valid() && reader.turn > old(reader.turn)
    ensures ReadsLine(old(reader.Remaining()), r, reader.Remaining())
    ensures r.Err? ==> Struck(r.error, world, deadline, reader.turn - 1)
    ensures r == Err(TimedOut) <==> world.clock(reader.turn - 1) > deadline
    ensures OnTime(world, deadline, old(reader.turn), reader.turn - 1)
  {
    hide OnTime;
    hide Lines;
    hide Position;
    ghost var stream := reader.Remaining();
    var buffer := "";
    assert OnTime(world, deadline, reader.turn, reader.turn) by { NoTurnYet(world, deadline, reader.turn); }
    while true
      invariant reader.Valid() && reader.turn >= old(reader.turn)
      invariant OnTime(world, deadline, old(reader.turn), reader.turn)
      invariant stream == buffer + reader.Remaining() && NoNewline(buffer)
      decreases |reader.Remaining()|
    {
      var turn := reader.turn;
      reader.turn := turn + 1;
      if world.clock(turn) > deadline {
        return Err(TimedOut);
      }
      OneTurnMore(world, deadline, old(reader.turn), turn);
      var filled := reader.FillBuf(world.fails(turn));
      if filled.Err? {
        return Err(ReadFailed);
      }
      var read := filled.value;
      if read == "" {
        assert stream == buffer;
        LinesNone(stream);
        return Err(Closed);
      }
      ghost var before := reader.Remaining();
      match Position(read) {
        case Some(index) =>
          LineFound(stream, buffer, before, read, index);
          buffer := buffer + read[..index];
          reader.Consume(index + 1);
          return Ok(buffer);
        case None =>
          ChunkTaken(stream, buffer, before, read);
          buffer := buffer + read;
          reader.Consume(|read|);
      }
    }
  }

  lemma NoTurnYet(world: World, deadline: nat, turn: nat)
    ensures OnTime(world, deadline, turn, turn)
  {
  }

  // ------------------------------------------------------------------- events

  datatype Notification =
    | Output(pane: string, text: string)
    | SessionChanged(id: string, name: string)
    | WindowAdd(id: string)
    | Exit
    | Unknown(line: string)

  datatype Event =
    | BlockBegin(num: nat)
    | BlockEnd(num: nat)
    | BlockError(num: nat)
    | Body(text: string)
    | Notice(notification: Notification)

  /** Rust's `parse::<usize>` on a 64-bit machine: an optional plus, then digits. */
  function ParseUsize(t: string): Option<nat> {
    var body := if t != [] && t[0] == '+' then t[1..] else t;
    if !AllDigits(body) then None
    else
      DigitsValueNonNegative(body);
      var value := DigitsValue(body);
      if value < 0x1_0000_0000_0000_0000 then Some(value) else None
  }

  /** The second field of a block line; the first is a timestamp. */
  function NumField(rest: string): Option<nat> {
    var fields := Words(rest);
    if |fields| < 2 then None else ParseUsize(fields[1])
  }

  function SpaceAt(s: string): (n: nat)
    ensures n <= |s|
  {
    if s == "" || s[0] == ' ' then 0 else 1 + SpaceAt(s[1..])
  }

  function SplitTwo(rest: string): (string, string) {
    var n := SpaceAt(rest);
    (TrimEnd(TrimStart(rest[..n])), if n == |rest| then "" else TrimStart(rest[n + 1..]))
  }

  function Trimmed(line: string): string {
    TrimEndChar(TrimEndChar(line, '\n'), '\r')
  }

  function ParseEvent(line: string): Event {
    EventOf(Trimmed(line))
  }

  function EventOf(trimmed: string): Event {
    if HasPrefix(trimmed, "%begin") then
      var num := NumField(trimmed[|"%begin"|..]);
      if num.Some? then BlockBegin(num.value) else Body(trimmed)
    else if HasPrefix(trimmed, "%end") then
      var num := NumField(trimmed[|"%end"|..]);
      if num.Some? then BlockEnd(num.value) else Body(trimmed)
    else if HasPrefix(trimmed, "%error") then
      var num := NumField(trimmed[|"%error"|..]);
      if num.Some? then BlockError(num.value) else Body(trimmed)
    else if HasPrefix(trimmed, "%output") then
      var (pane, text) := SplitTwo(trimmed[|"%output"|..]);
      Notice(Output(pane, text))
    else if HasPrefix(trimmed, "%session-changed") then
      var (id, name) := SplitTwo(trimmed[|"%session-changed"|..]);
      Notice(SessionChanged(id, name))
    else if HasPrefix(trimmed, "%") then
      if trimmed == "%exit" then Notice(Exit)
      else if HasPrefix(trimmed, "%window-add") then
        Notice(WindowAdd(TrimEnd(TrimStart(trimmed[|"%window-add"|..]))))
      else Notice(Unknown(trimmed))
    else Body(trimmed)
  }

  lemma NoPercentPrefix(s: string, prefix: string)
    requires prefix != "" && prefix[0] == '%' && (s == "" || s[0] != '%')
    ensures !HasPrefix(s, prefix)
  {
    assert |s| >= |prefix| ==> s[..|prefix|][0] == s[0];
  }

  lemma PlainIsBody(trimmed: string)
    requires trimmed == "" || trimmed[0] != '%'
    ensures EventOf(trimmed) == Body(trimmed)
  {
    NoPercentPrefix(trimmed, "%begin");
    NoPercentPrefix(trimmed, "%end");
    NoPercentPrefix(trimmed, "%error");
    NoPercentPrefix(trimmed, "%output");
    NoPercentPrefix(trimmed, "%session-changed");
    NoPercentPrefix(trimmed, "%");
  }

  /** A line that does not begin with `%` is body text, only its line ends trimmed. */
  lemma PlainLineIsBody(line: string)
    requires line == "" || line[0] != '%'
    ensures ParseEvent(line) == Body(Trimmed(line))
  {
    TrimKeepsHead(line, '\n');
    TrimKeepsHead(TrimEndChar(line, '\n'), '\r');
    PlainIsBody(Trimmed(line));
  }

  lemma {:induction false} TrimKeepsHead(s: string, c: char)
    ensures TrimEndChar(s, c) == "" || (s != "" && TrimEndChar(s, c)[0] == s[0])
  {
    if s != "" && s[|s| - 1] == c {
      TrimKeepsHead(s[..|s| - 1], c);
    }
  }

  // ----------------------------------------------------------------- commands

  datatype CommandError = Failed | Broken(why: ReadError)

  /** How one command's reading of a line sequence ends. */
  datatype Scanned =
    | Done(body: seq<string>, used: nat)
    | Refused(used: nat)
    | Starved(first: bool)

  /** What one event does to the loop: go on, or answer. */
  datatype Turn = Go(open: Option<nat>, body: seq<string>, first: bool) | Reply(body: seq<string>) | Refusal

  function Handle(event: Event, open: Option<nat>, body: seq<string>, first: bool): Turn {
    match event
    case BlockBegin(num) => Go(Some(num), [], first)
    case BlockEnd(num) =>
      if open != Some(num) then Go(open, body, first) else if first then Go(None, body, false) else Reply(body)
    case BlockError(num) =>
      if open != Some(num) then Go(open, body, first) else if first then Go(None, body, false) else Refusal
    case Body(text) => Go(open, if open.Some? then body + [text] else body, first)
    case Notice(_) => Go(open, body, first)
  }

  /** The command loop over the events still to come, `n` of them read already:
      `open` is the block being read, `first` says the attach block has not gone by. */
  function Scan(events: seq<Event>, open: Option<nat>, body: seq<string>, first: bool, n: nat): Scanned
    decreases |events|
  {
    if events == [] then Starved(first)
    else
      match Handle(events[0], open, body, first)
      case Go(open', body', first') => Scan(events[1..], open', body', first', n + 1)
      case Reply(reply) => Done(reply, n + 1)
      case Refusal => Refused(n + 1)
  }

  /** The events of a line sequence. */
  function Events(lines: seq<string>): seq<Event> {
    if lines == [] then [] else [ParseEvent(lines[0])] + Events(lines[1..])
  }

  /** How long a command or an event is waited for. */
  const PATIENCE: nat := 10000

  /** What reading one event may answer, of the events to come and of those left. */
  ghost predicate ReadsEvent(events: seq<Event>, r: Result<Event, ReadError>, left: seq<Event>) {
    match r
    case Ok(event) => events == [event] + left
    case Err(why) => why == Closed ==> events == [] && left == []
  }

  /** The answer is the stream's own: a body, a refusal, or its end. */
  predicate Finished(r: Result<seq<string>, CommandError>) {
    r.Ok? || r.error == Failed || r.error == Broken(Closed)
  }

  class ControlClient {
    const stdout: Reader
    var firstBlock: bool

    constructor (stdout: Reader)
      ensures this.stdout == stdout && firstBlock
    {
      this.stdout, firstBlock := stdout, true;
    }

    /** The events of the lines not yet read. */
    ghost function Pending(): seq<Event>
      reads stdout
    {
      Events(Lines(stdout.Remaining()))
    }

    /** One event of the loop. */
    method Take(event: Event, open: Option<nat>, body: seq<string>) returns (turn: Turn)
      modifies this`firstBlock
      ensures turn == Handle(event, open, body, old(firstBlock))
      ensures firstBlock == if turn.Go? then turn.first else old(firstBlock)
    {
      match event {
        case BlockBegin(num) =>
          turn := Go(Some(num), [], firstBlock);
        case BlockEnd(num) =>
          if Some(num) == open {
            if !firstBlock {
              return Reply(body);
            }
            firstBlock := false;
            return Go(None, body, false);
          }
          turn := Go(open, body, firstBlock);
        case BlockError(num) =>
          if Some(num) == open {
            if !firstBlock {
              return Refusal;
            }
            firstBlock := false;
            return Go(None, body, false);
          }
          turn := Go(open, body, firstBlock);
        case Body(text) =>
          turn := Go(open, if open.Some? then body + [text] else body, firstBlock);
        case Notice(_) =>
          turn := Go(open, body, firstBlock);
      }
    }

    /** One event off the stream, by a deadline of its own. */
    method NextEvent(world: World, now: nat) returns (r: Result<Event, ReadError>)
      requires stdout.Valid()
      modifies stdout
      ensures stdout.Valid() && stdout.turn > old(stdout.turn)
      ensures ReadsEvent(old(Pending()), r, Pending())
      ensures r.Err? ==> Struck(r.error, world, now + PATIENCE, stdout.turn - 1)
      ensures Healthy(world, now + PATIENCE, old(stdout.turn)) ==> (r.Ok? <==> old(Pending()) != [])
    {
      r := ReadEvent(world, now + PATIENCE);
    }

    method ReadEvent(world: World, deadline: nat) returns (r: Result<Event, ReadError>)
      requires stdout.Valid()
      modifies stdout
      ensures stdout.Valid() && stdout.turn > old(stdout.turn)
      ensures ReadsEvent(old(Pending()), r, Pending())
      ensures r.Err? ==> Struck(r.error, world, deadline, stdout.turn - 1)
      ensures Healthy(world, deadline, old(stdout.turn)) ==> (r.Ok? <==> old(Pending()) != [])
    {
      var line := NextLine(stdout, world, deadline);
      match line {
        case Err(why) =>
          LinesNone("");
          return Err(why);
        case Ok(text) =>
          EventsStep(text, Lines(stdout.Remaining()));
          return Ok(ParseEvent(text));
      }
    }

    /** Read up to this command's own block, and no further. It answers unless on the
        last turn taken its deadline had passed or a read failed. */
    method Command(world: World, now: nat) returns (r: Result<seq<string>, CommandError>)
      requires stdout.Valid()
      modifies this, stdout
      ensures stdout.Valid() && stdout.turn > old(stdout.turn)
      ensures Answers(old(Pending()), old(firstBlock), r, Pending(), firstBlock)
      ensures r.Err? && r.error.Broken? ==> Struck(r.error.why, world, now + PATIENCE, stdout.turn - 1)
      ensures Healthy(world, now + PATIENCE, old(stdout.turn)) ==> Finished(r)
    {
      hide EventOf;
      ghost var events := Pending();
      ghost var scanned := Scan(events, None, [], firstBlock, 0);
      ghost var used: nat := 0;
      var open: Option<nat> := None;
      var body: seq<string> := [];
      var deadline := now + PATIENCE;
      while true
        invariant stdout.Valid() && stdout.turn >= old(stdout.turn)
        invariant ReadSoFar(events, used, Pending())
        invariant scanned == Scan(Pending(), open, body, firstBlock, used)
        decreases |events| - used
      {
        ghost var left := Pending();
        var event := ReadEvent(world, deadline);
        if event.Err? {
          CutShort(events, old(firstBlock), event.error, scanned, left, open, body, used, firstBlock, Pending());
          return Err(Broken(event.error));
        }
        ReadOneMore(events, used, left, event.value, Pending());
        ScanTurn(event.value, Pending(), open, body, firstBlock, used, scanned);
        used := used + 1;
        var turn := Take(event.value, open, body);
        match turn {
          case Go(open', body', _) =>
            open, body := open', body';
          case Reply(reply) =>
            Answered(events, old(firstBlock), used, Pending(), firstBlock);
            return Ok(reply);
          case Refusal =>
            Answered(events, old(firstBlock), used, Pending(), firstBlock);
            return Err(Failed);
        }
      }
    }
  }

  lemma ScanTurn(event: Event, rest: seq<Event>, open: Option<nat>, body: seq<string>, first: bool, n: nat, scanned: Scanned)
    requires scanned == Scan([event] + rest, open, body, first, n)
    ensures match Handle(event, open, body, first)
            case Go(open', body', first') => scanned == Scan(rest, open', body', first', n + 1)
            case Reply(reply) => scanned == Done(reply, n + 1)
            case Refusal => scanned == Refused(n + 1)
  {
    assert ([event] + rest)[1..] == rest;
  }

  lemma EventsStep(line: string, rest: seq<string>)
    ensures Events([line] + rest) == [ParseEvent(line)] + Events(rest)
  {
    assert ([line] + rest)[1..] == rest;
  }

  ghost predicate ReadSoFar(events: seq<Event>, used: nat, left: seq<Event>) {
    used <= |events| && left == events[used..]
  }

  lemma ReadOneMore(events: seq<Event>, used: nat, left: seq<Event>, event: Event, rest: seq<Event>)
    requires ReadSoFar(events, used, left) && left == [event] + rest
    ensures ReadSoFar(events, used + 1, rest) && left != [] && left[0] == event && left[1..] == rest
  {
    assert events[used..][1..] == events[used + 1..];
  }

  /** What a command may answer from these events, and what it leaves unread. A
      deadline or a failing read may cut it short anywhere. */
  ghost predicate Answers(events: seq<Event>, first: bool, r: Result<seq<string>, CommandError>,
                          left: seq<Event>, firstLeft: bool)
  {
    var scanned := Scan(events, None, [], first, 0);
    match r
    case Ok(body) =>
      scanned.Done? && body == scanned.body && scanned.used <= |events| && left == events[scanned.used..] && !firstLeft
    case Err(Failed) =>
      scanned.Refused? && scanned.used <= |events| && left == events[scanned.used..] && !firstLeft
    case Err(Broken(why)) => why == Closed ==> scanned == Starved(firstLeft) && left == []
  }

  lemma Answered(events: seq<Event>, first: bool, used: nat, left: seq<Event>, firstLeft: bool)
    requires ReadSoFar(events, used, left) && !firstLeft
    ensures forall body :: Scan(events, None, [], first, 0) == Done(body, used) ==>
              Answers(events, first, Ok(body), left, firstLeft)
    ensures Scan(events, None, [], first, 0) == Refused(used) ==> Answers(events, first, Err(Failed), left, firstLeft)
  {
  }

  lemma CutShort(events: seq<Event>, first: bool, why: ReadError, scanned: Scanned, before: seq<Event>,
                 open: Option<nat>, body: seq<string>, n: nat, firstLeft: bool, left: seq<Event>)
    requires scanned == Scan(events, None, [], first, 0) == Scan(before, open, body, firstLeft, n)
    requires why == Closed ==> before == [] && left == []
    ensures Answers(events, first, Err(Broken(why)), left, firstLeft)
  {
  }
}
