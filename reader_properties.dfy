/**
 * What the demultiplexer guarantees: the transitions of each state, the
 * broadcast-line round trip, the framing of whole reply exchanges, recovery
 * after a malformed reply, the shape of every reply it sends, and the
 * non-terminating data block of a count of zero or less.
 */
module ReaderProperties {
  import opened LircTypes
  import opened Reader
  import Strings
  import Hex
  import Strconv
  import EventCode

  /** The first space-separated field of a line. */
  function CodeField(line: string): string
  {
    Strings.Split(line, ' ')[0]
  }

  /** A code field is accepted exactly when it is sixteen hex digits. */
  predicate ValidCodeField(f: string)
  {
    |f| == 16 && Hex.AllHexDigits(f)
  }

  // ---------------------------------------------------------------------
  // Receive: events

  /** A non-`BEGIN` line whose code field is not sixteen hex digits is dropped. */
  lemma BadCodeLineSkipped(m: Machine, line: string)
    requires m.phase == Receive && line != "BEGIN"
    requires !ValidCodeField(CodeField(line))
    ensures Step(m, line) == Next(m, Silent)
  {
  }

  /**
   * A line with a valid code field and at least four fields sends one event:
   * button and remote are the third and fourth fields, the repeat count is
   * Atoi's value whether or not it parsed, and byte k of the code is the k-th
   * hex pair. The state is unchanged.
   */
  lemma EventLineSent(m: Machine, line: string)
    requires m.phase == Receive && line != "BEGIN"
    requires ValidCodeField(CodeField(line))
    requires |Strings.Split(line, ' ')| >= 4
    ensures Step(m, line).Next? && Step(m, line).machine == m && Step(m, line).emit.SendEvent?
    ensures var fields, e := Strings.Split(line, ' '), Step(m, line).emit.event;
      && e.button == fields[2] && e.remote == fields[3]
      && e.repeat == Strconv.Atoi(fields[1]).value
      && forall k: bv64 :: k < 8 ==>
           EventCode.ByteAt(e.code, k) == Hex.PairValue(fields[0][2 * k as int], fields[0][2 * k as int + 1]) as bv8
  {
    var fields := Strings.Split(line, ' ');
    var c := Hex.DecodeString(fields[0]).value;
    Hex.DecodeStringAt(fields[0]);
    assert forall k: bv64 :: k < 8 ==> c[k] == Hex.PairValue(fields[0][2 * k as int], fields[0][2 * k as int + 1]);
  }

  /** The reader panics exactly on a broadcast line with a valid code and fewer than four fields. */
  lemma PanicExactlyOnShortEventLine(m: Machine, line: string)
    ensures Step(m, line).Panic? <==>
      m.phase == Receive && line != "BEGIN" && ValidCodeField(CodeField(line)) && |Strings.Split(line, ' ')| < 4
  {
  }

  /** The broadcast line the daemon writes for an event. */
  function EventLineOf(e: LircEvent): string
  {
    Strings.Join(EventFields(e), " ")
  }

  /** The fields of the line written for an event. */
  function EventFields(e: LircEvent): seq<string>
  {
    [Hex.EncodeToString(EventCode.CodeBytes(e.code)), Strconv.Itoa(e.repeat), e.button, e.remote]
  }

  lemma SplitEventLine(e: LircEvent)
    requires ' ' !in e.button && ' ' !in e.remote
    ensures Strings.Split(EventLineOf(e), ' ') == EventFields(e)
  {
    var hex := Hex.EncodeToString(EventCode.CodeBytes(e.code));
    assert ' ' !in hex;
    Strings.SplitJoin(EventFields(e), ' ');
  }

  /** Parsing the line written for an event gives that event back. */
  lemma ParseEventLineOf(e: LircEvent)
    requires ' ' !in e.button && ' ' !in e.remote
    requires Strconv.MinInt <= e.repeat <= Strconv.MaxInt
    ensures ParseEventLine(EventLineOf(e)) == Event(e)
  {
    var bytes := EventCode.CodeBytes(e.code);
    SplitEventLine(e);
    Hex.DecodeEncode(bytes);
    EventCode.AssembleCodeBytes(e.code);
    Strconv.AtoiItoa(e.repeat);
  }

  /** Reading the line written for an event sends back exactly that event. */
  lemma EventLineRoundTrip(m: Machine, e: LircEvent)
    requires m.phase == Receive
    requires ' ' !in e.button && ' ' !in e.remote
    requires Strconv.MinInt <= e.repeat <= Strconv.MaxInt
    ensures Step(m, EventLineOf(e)) == Next(m, SendEvent(e))
  {
    ParseEventLineOf(e);
    assert EventLineOf(e) != "BEGIN" by {
      assert |EventLineOf(e)| >= |EventFields(e)[0]| == 16;
    }
  }

  // ---------------------------------------------------------------------
  // The reply framing, state by state

  /** `BEGIN` opens a reply; the line after it is the command and resets the reply. */
  lemma ReplyStart(m: Machine, line: string)
    ensures m.phase == Receive ==> Step(m, "BEGIN") == Next(m.(phase := Reply), Silent)
    ensures m.phase == Reply ==>
      Step(m, line) == Next(m.(phase := Status, message := LircReply(line, 0, 0, [])), Silent)
  {
  }

  /** The status line: `END` finishes a data-less reply, `SUCCESS`/`ERROR` set the flag, anything else aborts. */
  lemma StatusTransitions(m: Machine, line: string)
    requires m.phase == Status
    ensures line == "END" ==>
      var done := m.message.(success := 1);
      Step(m, line) == Next(m.(phase := Receive, message := done), SendReply(done))
    ensures line == "SUCCESS" ==>
      Step(m, line) == Next(m.(phase := DataStart, message := m.message.(success := 1)), Silent)
    ensures line == "ERROR" ==>
      Step(m, line) == Next(m.(phase := DataStart, message := m.message.(success := 0)), Silent)
    ensures line !in {"END", "SUCCESS", "ERROR"} ==> Step(m, line) == Next(m.(phase := Receive), Silent)
  {
  }

  /** After the status: `END` sends the reply, `DATA` announces a count, anything else aborts. */
  lemma DataStartTransitions(m: Machine, line: string)
    requires m.phase == DataStart
    ensures line == "END" ==> Step(m, line) == Next(m.(phase := Receive), SendReply(m.message))
    ensures line == "DATA" ==> Step(m, line) == Next(m.(phase := DataLen), Silent)
    ensures line !in {"END", "DATA"} ==> Step(m, line) == Next(m.(phase := Receive), Silent)
  {
  }

  /**
   * The count line always overwrites the declared count with Atoi's value
   * and zeroes the line counter; only a well-formed int64 numeral moves on to
   * the data lines.
   */
  lemma DataLenTransition(m: Machine, line: string)
    requires m.phase == DataLen
    ensures var n := Strconv.Atoi(line);
      Step(m, line) == Next(Machine(if n.ok then Phase.Data else Receive, m.message.(dataLength := n.value), 0), Silent)
    ensures Step(m, line).machine.phase == Phase.Data <==>
      Strconv.IsNumeral(line) && Strconv.MinInt <= Strconv.NumeralValue(line) <= Strconv.MaxInt
  {
  }

  /** A data line is kept only while fewer than the declared count were seen; the counter always advances. */
  lemma DataTransition(m: Machine, line: string)
    requires m.phase == Phase.Data
    ensures Step(m, line).Next? && Step(m, line).emit == Silent
    ensures var next := Step(m, line).machine;
      && next.dataCnt == m.dataCnt + 1
      && next.message == m.message.(data := if m.dataCnt < m.message.dataLength then m.message.data + [line] else m.message.data)
      && (next.phase == Phase.End <==> m.dataCnt + 1 == m.message.dataLength)
      && (next.phase != Phase.End ==> next.phase == Phase.Data)
  {
  }

  /** The closing line: every line returns to `Receive`, and only `END` sends the reply. */
  lemma EndTransitions(m: Machine, line: string)
    requires m.phase == Phase.End
    ensures Step(m, line) == Next(m.(phase := Receive), if line == "END" then SendReply(m.message) else Silent)
  {
  }

  // ---------------------------------------------------------------------
  // Invariants over whole streams

  /** A reply's data matches its declared count and its flag is 0 or 1. */
  predicate WellFormedReply(r: LircReply)
  {
    |r.data| == r.dataLength && (r.success == 0 || r.success == 1)
  }

  predicate IsFlag(x: int)
  {
    x == 0 || x == 1
  }

  /** What the reader's variables satisfy between lines. */
  predicate Consistent(m: Machine)
  {
    match m.phase
    case Receive => true
    case Reply => true
    case Message => false
    case Status => m.message.data == [] && m.message.dataLength == 0 && m.message.success == 0
    case DataStart => m.message.data == [] && m.message.dataLength == 0 && IsFlag(m.message.success)
    case DataLen => m.message.data == [] && m.message.dataLength == 0 && IsFlag(m.message.success)
    case Data =>
      && IsFlag(m.message.success) && 0 <= m.dataCnt
      && if m.message.dataLength > 0
         then m.dataCnt < m.message.dataLength && |m.message.data| == m.dataCnt
         else m.message.data == []
    case End => IsFlag(m.message.success) && 0 < m.message.dataLength == |m.message.data|
  }

  /** A trace whose variables are consistent and whose sent replies are all well formed. */
  predicate Sound(t: Trace)
  {
    Consistent(t.machine) && forall k :: 0 <= k < |t.replies| ==> WellFormedReply(t.replies[k])
  }

  /** One line keeps the variables consistent, and any reply it sends is well formed. */
  lemma StepConsistent(m: Machine, line: string)
    requires Consistent(m)
    ensures Step(m, line).Next? ==> Consistent(Step(m, line).machine)
    ensures Step(m, line).Next? && Step(m, line).emit.SendReply? ==> WellFormedReply(Step(m, line).emit.reply)
  {
  }

  lemma {:induction false} RunFromSound(t: Trace, lines: seq<string>)
    requires Sound(t)
    ensures Sound(RunFrom(t, lines))
    decreases lines
  {
    if lines != [] {
      StepConsistent(t.machine, lines[0]);
      var t1 := Feed(t, lines[0]);
      assert Sound(t1);
      RunFromSound(t1, lines[1..]);
    }
  }

  /**
   * For every stream: every reply sent has exactly as many data lines as it
   * declares and a 0/1 flag; `Message` is never entered; and the data
   * collected so far never exceeds the declared count.
   */
  lemma RunSound(lines: seq<string>)
    ensures forall k :: 0 <= k < |Run(lines).replies| ==> WellFormedReply(Run(lines).replies[k])
    ensures Run(lines).machine.phase != Message
    ensures Run(lines).machine.phase in {Phase.Data, Phase.End} ==>
      var msg := Run(lines).machine.message;
      |msg.data| <= msg.dataLength || msg.data == []
  {
    RunFromSound(Initial, lines);
  }

  /**
   * With a declared count of zero or less the data block never ends: every
   * further line only advances the counter, nothing is kept and nothing is
   * sent.
   */
  lemma {:induction false} NonPositiveCountNeverEnds(t: Trace, lines: seq<string>)
    requires !t.panicked && t.machine.phase == Phase.Data
    requires t.machine.message.dataLength <= 0 && 0 <= t.machine.dataCnt
    ensures RunFrom(t, lines) == t.(machine := t.machine.(dataCnt := t.machine.dataCnt + |lines|))
    decreases lines
  {
    if lines != [] {
      NonPositiveCountNeverEnds(Feed(t, lines[0]), lines[1..]);
    }
  }

  // ---------------------------------------------------------------------
  // Whole reply exchanges

  lemma RunFromCons(t: Trace, line: string, rest: seq<string>)
    ensures RunFrom(t, [line] + rest) == RunFrom(Feed(t, line), rest)
  {
    assert ([line] + rest)[1..] == rest;
  }

  /** The data lines of a block are kept in order until the declared count is reached. */
  lemma {:induction false} DataLines(t: Trace, data: seq<string>, k: nat)
    requires !t.panicked && t.machine.phase == Phase.Data
    requires k < |data| && t.machine.dataCnt == k
    requires t.machine.message.dataLength == |data| && t.machine.message.data == data[..k]
    ensures RunFrom(t, data[k..]) == t.(machine := Machine(Phase.End, t.machine.message.(data := data), |data|))
    decreases |data| - k
  {
    var t1 := Feed(t, data[k]);
    assert data[..k] + [data[k]] == data[..k + 1];
    assert data[k..] == [data[k]] + data[k + 1..];
    RunFromCons(t, data[k], data[k + 1..]);
    if k + 1 == |data| {
      assert data[..k + 1] == data;
    } else {
      DataLines(t1, data, k + 1);
    }
  }

  /** The lines of a reply with a status and a data block. */
  function DataReplyLines(command: string, status: string, data: seq<string>): seq<string>
  {
    ["BEGIN", command, status, "DATA", Strconv.Itoa(|data|)] + data + ["END"]
  }

  /** The success flag a status line sets. */
  function StatusFlag(status: string): int
  {
    if status == "SUCCESS" then 1 else 0
  }

  /**
   * A complete exchange `BEGIN` / command / `SUCCESS` or `ERROR` / `DATA` /
   * count / that many lines / `END`, read in `Receive`, sends exactly one
   * reply, carrying the command, the flag, the count and the lines in order,
   * and leaves the reader back in `Receive` with no event sent.
   */
  lemma ReplyExchange(t: Trace, command: string, status: string, data: seq<string>)
    requires !t.panicked && t.machine.phase == Receive
    requires status == "SUCCESS" || status == "ERROR"
    requires 0 < |data| <= Strconv.MaxInt
    ensures var reply := LircReply(command, StatusFlag(status), |data|, data);
      RunFrom(t, DataReplyLines(command, status, data))
        == Trace(Machine(Receive, reply, |data|), t.events, t.replies + [reply], false)
  {
    var header := ["BEGIN", command, status, "DATA", Strconv.Itoa(|data|)];
    ReplyHeader(t, command, status, |data|);
    var t5 := RunFrom(t, header);
    DataLines(t5, data, 0);
    assert data[..0] == [] && data[0..] == data;
    var t6 := RunFrom(t5, data);
    RunFromCons(t6, "END", []);
    RunFromAppend(t, header, data);
    RunFromAppend(t, header + data, ["END"]);
  }

  /** The five header lines of a reply with data leave the reader waiting for `n` data lines. */
  lemma ReplyHeader(t: Trace, command: string, status: string, n: int)
    requires !t.panicked && t.machine.phase == Receive
    requires status == "SUCCESS" || status == "ERROR"
    requires 0 < n <= Strconv.MaxInt
    ensures RunFrom(t, ["BEGIN", command, status, "DATA", Strconv.Itoa(n)])
      == Trace(Machine(Phase.Data, LircReply(command, StatusFlag(status), n, []), 0), t.events, t.replies, false)
  {
    var header := ["BEGIN", command, status, "DATA", Strconv.Itoa(n)];
    Strconv.AtoiItoa(n);
    var t1 := Feed(t, "BEGIN");
    var t2 := Feed(t1, command);
    var t3 := Feed(t2, status);
    var t4 := Feed(t3, "DATA");
    RunFromCons(t, "BEGIN", header[1..]);
    RunFromCons(t1, command, header[2..]);
    RunFromCons(t2, status, header[3..]);
    RunFromCons(t3, "DATA", header[4..]);
    RunFromCons(t4, Strconv.Itoa(n), []);
  }

  /**
   * The abbreviated exchanges `BEGIN` / command / `END` and `BEGIN` /
   * command / `SUCCESS` or `ERROR` / `END` each send one reply with no data.
   */
  lemma ShortReplyExchanges(t: Trace, command: string, status: string)
    requires !t.panicked && t.machine.phase == Receive
    requires status == "SUCCESS" || status == "ERROR"
    ensures var reply := LircReply(command, 1, 0, []);
      RunFrom(t, ["BEGIN", command, "END"]) == Trace(Machine(Receive, reply, t.machine.dataCnt), t.events, t.replies + [reply], false)
    ensures var reply := LircReply(command, StatusFlag(status), 0, []);
      RunFrom(t, ["BEGIN", command, status, "END"]) == Trace(Machine(Receive, reply, t.machine.dataCnt), t.events, t.replies + [reply], false)
  {
    var t1 := Feed(t, "BEGIN");
    var t2 := Feed(t1, command);
    RunFromCons(t, "BEGIN", [command, "END"]);
    RunFromCons(t1, command, ["END"]);
    RunFromCons(t2, "END", []);
    var t3 := Feed(t2, status);
    RunFromCons(t, "BEGIN", [command, status, "END"]);
    RunFromCons(t1, command, [status, "END"]);
    RunFromCons(t2, status, ["END"]);
    RunFromCons(t3, "END", []);
  }

  /**
   * A reply whose status line is out of sequence is dropped without sending
   * anything, and the next complete exchange after it is read normally.
   */
  lemma AbortedReplyRecovers(t: Trace, command: string, bad: string, next: string, status: string, data: seq<string>)
    requires !t.panicked && t.machine.phase == Receive
    requires bad !in {"END", "SUCCESS", "ERROR"}
    requires status == "SUCCESS" || status == "ERROR"
    requires 0 < |data| <= Strconv.MaxInt
    ensures var reply := LircReply(next, StatusFlag(status), |data|, data);
      RunFrom(t, ["BEGIN", command, bad] + DataReplyLines(next, status, data))
        == Trace(Machine(Receive, reply, |data|), t.events, t.replies + [reply], false)
  {
    var t1 := Feed(t, "BEGIN");
    var t2 := Feed(t1, command);
    var t3 := Feed(t2, bad);
    RunFromCons(t, "BEGIN", [command, bad]);
    RunFromCons(t1, command, [bad]);
    RunFromCons(t2, bad, []);
    RunFromAppend(t, ["BEGIN", command, bad], DataReplyLines(next, status, data));
    ReplyExchange(t3, next, status, data);
  }
}
