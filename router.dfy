/**
 * The command side of the client: `Command` writes one command line and
 * takes the next reply the reader delivers; `Send` and `SendLong` turn a
 * reply whose flag is 0 into an error built from its data lines.
 *
 * The reply channel is modelled as the sequence of replies the reader has
 * delivered and nobody has taken yet; when it is empty the receive blocks
 * forever, which is the `Blocked` outcome.
 */
module Router {
  import opened Wrappers
  import opened LircTypes
  import Strings
  import Reader
  import ReaderProperties
  import Strconv

  /** How a call ends for its caller: no error, an error with a message, or never. */
  datatype Outcome = Ok | Failed(message: string) | Blocked

  /** What one `Command` wrote, the reply it received if any, and the replies left over. */
  datatype Delivery = Delivery(written: string, reply: Option<LircReply>, pending: seq<LircReply>)

  /** What a call wrote, in order, how it ended, and the replies left over. */
  datatype Exchange = Exchange(written: seq<string>, outcome: Outcome, pending: seq<LircReply>)

  /** Write `command` and a newline, then receive the next reply. The write happens even when the receive blocks. */
  function Command(command: string, pending: seq<LircReply>): (d: Delivery)
    ensures d.written == command + "\n"
    ensures d.reply.Some? <==> pending != []
    ensures d.reply.Some? ==> d.reply.value == pending[0] && d.pending == pending[1..]
    ensures d.reply.None? ==> d.pending == []
  {
    if pending == [] then Delivery(command + "\n", None, [])
    else Delivery(command + "\n", Some(pending[0]), pending[1..])
  }

  /** The error a reply stands for: its data lines joined by spaces when its flag is 0. */
  function ReplyOutcome(reply: Option<LircReply>): (o: Outcome)
    ensures o.Blocked? <==> reply.None?
    ensures o.Failed? <==> reply.Some? && reply.value.success == 0
    ensures o.Failed? ==> o.message == Strings.Join(reply.value.data, " ")
  {
    match reply
    case None => Blocked
    case Some(r) => if r.success == 0 then Failed(Strings.Join(r.data, " ")) else Ok
  }

  /** `Send`: issue `SEND_ONCE <command>` and report the reply's error, if any. */
  function Send(command: string, pending: seq<LircReply>): (x: Exchange)
    ensures x.written == ["SEND_ONCE " + command + "\n"]
    ensures x.outcome.Blocked? <==> pending == []
    ensures x.outcome.Blocked? ==> x.pending == []
    ensures pending != [] ==> x.pending == pending[1..]
    ensures pending != [] ==> (x.outcome.Failed? <==> pending[0].success == 0)
    ensures x.outcome.Failed? ==> x.outcome.message == Strings.Join(pending[0].data, " ")
  {
    var d := Command("SEND_ONCE " + command, pending);
    Exchange([d.written], ReplyOutcome(d.reply), d.pending)
  }

  /**
   * `SendLong`: issue `SEND_START <command>`; if that fails, return its error
   * and issue nothing else; otherwise (after the hold, not modelled) issue
   * `SEND_STOP <command>` and report its error, if any.
   */
  function SendLong(command: string, pending: seq<LircReply>): (x: Exchange)
    ensures 1 <= |x.written| <= 2 && x.written[0] == "SEND_START " + command + "\n"
    ensures |x.written| == 2 <==> pending != [] && pending[0].success != 0
    ensures |x.written| == 2 ==> x.written[1] == "SEND_STOP " + command + "\n"
    ensures pending == [] ==> x.outcome == Blocked && x.pending == []
    ensures pending != [] && pending[0].success == 0 ==>
      x.outcome == Failed(Strings.Join(pending[0].data, " ")) && x.pending == pending[1..]
    ensures |x.written| == 2 ==>
      (x.outcome.Blocked? <==> |pending| == 1)
      && (|pending| == 1 ==> x.pending == [])
      && (|pending| > 1 ==> x.pending == pending[2..] && (x.outcome.Failed? <==> pending[1].success == 0))
    ensures |x.written| == 2 && |pending| > 1 && pending[1].success == 0 ==>
      x.outcome == Failed(Strings.Join(pending[1].data, " "))
  {
    var start := Command("SEND_START " + command, pending);
    match ReplyOutcome(start.reply)
    case Ok =>
      var stop := Command("SEND_STOP " + command, start.pending);
      Exchange([start.written, stop.written], ReplyOutcome(stop.reply), stop.pending)
    case other =>
      Exchange([start.written], other, start.pending)
  }

  /**
   * From connection to caller: when the daemon answers `SEND_ONCE <command>`
   * with a status and a data block, `Send` fails exactly on `ERROR`, with the
   * data lines joined by spaces.
   */
  lemma SendReportsDataReply(command: string, status: string, data: seq<string>)
    requires status == "SUCCESS" || status == "ERROR"
    requires 0 < |data| <= Strconv.MaxInt
    ensures var replies := Reader.Run(ReaderProperties.DataReplyLines("SEND_ONCE " + command, status, data)).replies;
      Send(command, replies).outcome == if status == "ERROR" then Failed(Strings.Join(data, " ")) else Ok
  {
    ReaderProperties.ReplyExchange(Reader.Initial, "SEND_ONCE " + command, status, data);
  }

  /** `SEND_ONCE remote1 KEY_UP` answered by `BEGIN` / command / `SUCCESS` / `END` succeeds. */
  lemma SendOnceSucceeds()
    ensures Send("remote1 KEY_UP", Reader.Run(["BEGIN", "SEND_ONCE remote1 KEY_UP", "SUCCESS", "END"]).replies).outcome == Ok
  {
    ReaderProperties.ShortReplyExchanges(Reader.Initial, "SEND_ONCE remote1 KEY_UP", "SUCCESS");
  }

  /** The same command answered with `ERROR` and one data line fails with that line as its message. */
  lemma SendOnceReportsError()
    ensures Send("remote1 KEY_UP", Reader.Run(["BEGIN", "SEND_ONCE remote1 KEY_UP", "ERROR", "DATA", "1", "unknown button", "END"]).replies).outcome
      == Failed("unknown button")
  {
    var lines := ReaderProperties.DataReplyLines("SEND_ONCE remote1 KEY_UP", "ERROR", ["unknown button"]);
    assert Strconv.Itoa(1) == "1";
    assert lines == ["BEGIN", "SEND_ONCE remote1 KEY_UP", "ERROR", "DATA", "1", "unknown button", "END"];
    var reply := LircReply("SEND_ONCE remote1 KEY_UP", 0, 1, ["unknown button"]);
    ReaderProperties.ReplyExchange(Reader.Initial, "SEND_ONCE remote1 KEY_UP", "ERROR", ["unknown button"]);
    assert Reader.Run(lines).replies == [reply];
    assert Strings.Join(reply.data, " ") == "unknown button";
    assert Send("remote1 KEY_UP", [reply]).outcome == Failed("unknown button");
  }
}
