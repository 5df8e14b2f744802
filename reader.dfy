/**
 * The protocol demultiplexer (`reader`): a line-driven state machine that
 * turns the daemon's stream into button events and command replies.
 *
 * `Step` is the transition for one line; `RunFrom` folds it over a sequence
 * of lines; `ReadLines` is the reader loop itself, proved to compute the fold.
 * The channel sends become appends to the `events` and `replies` outputs.
 */
module Reader {
  import opened Wrappers
  import opened LircTypes
  import Strings
  import Hex
  import Strconv
  import EventCode

  /** The integer state tags of the reader; `Message` is declared but never entered. */
  datatype Phase = Receive | Reply | Message | Status | DataStart | DataLen | Data | End

  /** The reader's variables: `state`, the reply under construction `message`, and `data_cnt`. */
  datatype Machine = Machine(phase: Phase, message: LircReply, dataCnt: int)

  /** What one line sends on a channel, if anything. */
  datatype Emit = Silent | SendEvent(event: LircEvent) | SendReply(reply: LircReply)

  /** One transition, or the runtime panic of indexing past the fields of a short event line. */
  datatype StepResult = Next(machine: Machine, emit: Emit) | Panic

  /** How a broadcast line is read in `Receive`. */
  datatype EventLine = BadCode | BadLength | TooFewFields | Event(event: LircEvent)

  /** The reader's variables before the first line. */
  const Start: Machine := Machine(Receive, LircReply("", 0, 0, []), 0)

  /**
   * A broadcast line `<hex code> <repeat> <button> <remote>`, split on single
   * spaces. The code must decode to exactly eight bytes; a repeat count that
   * does not parse still yields an event, with Atoi's value.
   */
  function ParseEventLine(line: string): (r: EventLine)
    ensures r.BadCode? <==> Hex.DecodeString(Strings.Split(line, ' ')[0]).None?
    ensures r.Event? ==> |Strings.Split(line, ' ')| >= 4
  {
    var fields := Strings.Split(line, ' ');
    match Hex.DecodeString(fields[0])
    case None => BadCode
    case Some(c) =>
      if |c| != 8 then BadLength
      else if |fields| < 4 then TooFewFields
      else Event(LircEvent(EventCode.AssembleCode(c), Strconv.Atoi(fields[1]).value, fields[2], fields[3]))
  }

  /** The transition for one line. */
  function Step(m: Machine, line: string): (r: StepResult)
    ensures r.Panic? ==> m.phase == Receive
    ensures r.Next? && r.emit.SendEvent? ==> m.phase == Receive && r.machine == m
    ensures r.Next? && r.emit.SendReply? ==> r.machine.phase == Receive && r.emit.reply == r.machine.message
  {
    var msg := m.message;
    match m.phase
    case Receive =>
      if line == "BEGIN" then Next(m.(phase := Reply), Silent)
      else
        (match ParseEventLine(line)
         case BadCode => Next(m, Silent)
         case BadLength => Next(m, Silent)
         case TooFewFields => Panic
         case Event(e) => Next(m, SendEvent(e)))
    case Reply =>
      Next(m.(phase := Status, message := LircReply(line, 0, 0, [])), Silent)
    case Message =>
      Next(m, Silent)
    case Status =>
      if line == "SUCCESS" then Next(m.(phase := DataStart, message := msg.(success := 1)), Silent)
      else if line == "END" then
        var done := msg.(success := 1);
        Next(m.(phase := Receive, message := done), SendReply(done))
      else if line == "ERROR" then Next(m.(phase := DataStart, message := msg.(success := 0)), Silent)
      else Next(m.(phase := Receive), Silent)
    case DataStart =>
      if line == "END" then Next(m.(phase := Receive), SendReply(msg))
      else if line == "DATA" then Next(m.(phase := DataLen), Silent)
      else Next(m.(phase := Receive), Silent)
    case DataLen =>
      var n := Strconv.Atoi(line);
      Next(Machine(if n.ok then Phase.Data else Receive, msg.(dataLength := n.value), 0), Silent)
    case Data =>
      var data := if m.dataCnt < msg.dataLength then msg.data + [line] else msg.data;
      var cnt := m.dataCnt + 1;
      Next(Machine(if cnt == msg.dataLength then Phase.End else Phase.Data, msg.(data := data), cnt), Silent)
    case End =>
      Next(m.(phase := Receive), if line == "END" then SendReply(msg) else Silent)
  }

  /** The reader's variables together with everything sent so far. */
  datatype Trace = Trace(machine: Machine, events: seq<LircEvent>, replies: seq<LircReply>, panicked: bool)

  const Initial: Trace := Trace(Start, [], [], false)

  /** Process one more line; after a panic nothing changes. */
  function Feed(t: Trace, line: string): (r: Trace)
    ensures t.panicked ==> r == t
    ensures t.events <= r.events && t.replies <= r.replies
    ensures |r.events| + |r.replies| <= |t.events| + |t.replies| + 1
  {
    if t.panicked then t
    else
      match Step(t.machine, line)
      case Panic => t.(panicked := true)
      case Next(m, Silent) => t.(machine := m)
      case Next(m, SendEvent(e)) => t.(machine := m, events := t.events + [e])
      case Next(m, SendReply(rep)) => t.(machine := m, replies := t.replies + [rep])
  }

  /** The lines processed in order, starting from `t`. */
  function RunFrom(t: Trace, lines: seq<string>): (r: Trace)
    ensures t.events <= r.events && t.replies <= r.replies
    ensures |r.events| + |r.replies| <= |t.events| + |t.replies| + |lines|
    ensures !r.panicked ==> !t.panicked
    decreases lines
  {
    if lines == [] then t else RunFrom(Feed(t, lines[0]), lines[1..])
  }

  /** Everything the reader sends for a whole stream. */
  function Run(lines: seq<string>): (r: Trace)
    ensures |r.events| + |r.replies| <= |lines|
  {
    RunFrom(Initial, lines)
  }

  lemma {:induction false} RunFromAppend(t: Trace, a: seq<string>, b: seq<string>)
    ensures RunFrom(t, a + b) == RunFrom(RunFrom(t, a), b)
    decreases a
  {
    if a != [] {
      assert (a + b)[0] == a[0] && (a + b)[1..] == a[1..] + b;
      RunFromAppend(Feed(t, a[0]), a[1..], b);
    } else {
      assert a + b == b;
    }
  }

  /** A panicked reader stays as it was. */
  lemma {:induction false} RunFromPanicked(t: Trace, lines: seq<string>)
    requires t.panicked
    ensures RunFrom(t, lines) == t
    decreases lines
  {
    if lines != [] {
      RunFromPanicked(t, lines[1..]);
    }
  }

  /** One more line of a stream's prefix is one more `Feed`. */
  lemma RunPrefixStep(lines: seq<string>, i: nat)
    requires i < |lines|
    ensures RunFrom(Initial, lines[..i + 1]) == Feed(RunFrom(Initial, lines[..i]), lines[i])
  {
    RunFromAppend(Initial, lines[..i], [lines[i]]);
    assert lines[..i + 1] == lines[..i] + [lines[i]];
  }

  /** Once the whole stream is read, or the reader has panicked, the prefix is the whole run. */
  lemma RunPrefixStop(lines: seq<string>, i: nat)
    requires i <= |lines|
    requires i == |lines| || RunFrom(Initial, lines[..i]).panicked
    ensures RunFrom(Initial, lines[..i]) == Run(lines)
  {
    RunFromAppend(Initial, lines[..i], lines[i..]);
    assert lines[..i] + lines[i..] == lines;
    if i < |lines| {
      RunFromPanicked(RunFrom(Initial, lines[..i]), lines[i..]);
    } else {
      assert lines[i..] == [];
    }
  }

  /**
   * A broadcast line as the loop body reads it: split on spaces, decode the
   * code field, check its length, accumulate the code and parse the repeat
   * count. `TooFewFields` is where the source indexes past the fields.
   */
  method ReadBroadcast(line: string) returns (r: EventLine)
    ensures r == ParseEventLine(line)
  {
    var fields := Strings.Split(line, ' ');
    var c := Hex.DecodeString(fields[0]);
    if c.None? {
      return BadCode;
    }
    if |c.value| != 8 {
      return BadLength;
    }
    if |fields| < 4 {
      return TooFewFields;
    }
    var code := EventCode.AccumulateCode(c.value);
    var repeat := Strconv.Atoi(fields[1]).value;
    r := Event(LircEvent(code, repeat, fields[2], fields[3]));
  }

  /**
   * The body of the reader loop for one line: the `switch state`, updating
   * `state`, `message` and `data_cnt` in place. What it would send on a
   * channel is returned as `emit`.
   */
  method ReadLine(m: Machine, line: string) returns (r: StepResult)
    ensures r == Step(m, line)
  {
    var state, message, dataCnt := m.phase, m.message, m.dataCnt;
    var emit := Silent;
    match state {
      case Receive =>
        if line == "BEGIN" {
          state := Reply;
        } else {
          var parsed := ReadBroadcast(line);
          match parsed {
            case BadCode =>
            case BadLength =>
            case TooFewFields =>
              return Panic;
            case Event(e) =>
              emit := SendEvent(e);
          }
        }
      case Reply =>
        message := LircReply(line, 0, 0, []);
        state := Status;
      case Message =>
      case Status =>
        if line == "SUCCESS" {
          message := message.(success := 1);
          state := DataStart;
        } else if line == "END" {
          message := message.(success := 1);
          state := Receive;
          emit := SendReply(message);
        } else if line == "ERROR" {
          message := message.(success := 0);
          state := DataStart;
        } else {
          state := Receive;
        }
      case DataStart =>
        if line == "END" {
          state := Receive;
          emit := SendReply(message);
        } else if line == "DATA" {
          state := DataLen;
        } else {
          state := Receive;
        }
      case DataLen =>
        dataCnt := 0;
        var n := Strconv.Atoi(line);
        message := message.(dataLength := n.value);
        if !n.ok {
          state := Receive;
        } else {
          state := Data;
        }
      case Data =>
        if dataCnt < message.dataLength {
          message := message.(data := message.data + [line]);
        }
        dataCnt := dataCnt + 1;
        if dataCnt == message.dataLength {
          state := End;
        }
      case End =>
        state := Receive;
        if line == "END" {
          emit := SendReply(message);
        }
    }
    r := Next(Machine(state, message, dataCnt), emit);
  }

  /**
   * The `for scanner.Scan()` loop: lines are read until the stream ends or
   * a line panics; events and replies are sent in the order they complete.
   */
  method ReadLines(lines: seq<string>) returns (events: seq<LircEvent>, replies: seq<LircReply>, panicked: bool)
    ensures Trace(Run(lines).machine, events, replies, panicked) == Run(lines)
  {
    var m := Start;
    events, replies, panicked := [], [], false;
    var i := 0;
    while i < |lines| && !panicked
      invariant 0 <= i <= |lines|
      invariant RunFrom(Initial, lines[..i]) == Trace(m, events, replies, panicked)
    {
      var r := ReadLine(m, lines[i]);
      match r {
        case Panic =>
          panicked := true;
        case Next(next, emit) =>
          m := next;
          match emit {
            case Silent =>
            case SendEvent(e) =>
              events := events + [e];
            case SendReply(rep) =>
              replies := replies + [rep];
          }
      }
      RunPrefixStep(lines, i);
      i := i + 1;
    }
    RunPrefixStop(lines, i);
  }
}
