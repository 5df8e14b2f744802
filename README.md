# lirc client demultiplexer in Dafny

A model of the core of the Go package `lirc`, a client for the LIRC
daemon's line protocol. The daemon writes two kinds of lines on one socket:

- unsolicited broadcast lines `<16 hex digits> <repeat> <button> <remote>`;
- replies to commands, framed `BEGIN` / command / `SUCCESS`|`ERROR` /
  optional `DATA` / count / that many lines / `END`, or abbreviated forms.

The package's `reader` goroutine is a state machine over these lines. It
turns the stream into `LircEvent` values and `LircReply` values. `Send` and
`SendLong` write a command, take the next reply, and turn a reply whose
success flag is 0 into an error built from its data lines.

Modules:

- `LircTypes`: the two message types `LircEvent` and `LircReply`.
- `Strings`, `Hex`, `Strconv`: the Go library functions the reader relies
  on. These are `strings.Split`/`strings.Join`, `hex.DecodeString` and
  `strconv.Atoi`, including Atoi's int64 clamping and its early range error.
  Each comes with its inverse (`Join`, `EncodeToString`, `Itoa`) so the
  round trips can be stated.
- `EventCode`: assembling the 64-bit code from the eight decoded bytes.
- `Reader`: the state machine.
  - `Step` is the transition for one line, and `RunFrom`/`Run` fold it over
    a stream.
  - `ReadLine` is the loop body, updating `state`, `message` and `data_cnt`.
  - `ReadLines` is the `for scanner.Scan()` loop.
  - The methods are proved to compute `Step` and `Run`.
  - The two channels become the `events` and `replies` sequences, appended
    in the order of sending.
  - Indexing past the fields of a short broadcast line is a Go runtime
    panic. It is the `Panic` step result, and the loop stops there.
- `ReaderProperties`: what the reader guarantees.
  - The transitions of every state.
  - The round trip from event to broadcast line and back.
  - Whole reply exchanges, long and abbreviated.
  - Recovery after a reply aborted by a bad status line.
  - An invariant over every stream: every reply sent has as many data lines
    as it declares and a 0/1 flag.
  - The non-terminating data block of a count of zero or less.
- `Router`: `Command`, `Send` and `SendLong` over the queue of replies the
  reader has delivered and no caller has taken yet. An empty queue is a
  receive that blocks forever (`Blocked`).

Where the code and the protocol description disagree, the model follows the code:

- A broadcast line may have more than four fields; the extra ones are
  ignored.
- A line with a valid code field and fewer than four fields panics, ending
  the program, instead of being skipped (`ReaderProperties.PanicExactlyOnShortEventLine`).
- The repeat count is whatever `strconv.Atoi` returns, negative values
  included. When the count is not a valid number, Atoi's error value (0 or
  the clamped bound) is used.
- No data line is ever "excess". After the declared count the reader expects
  `END`, and any other line aborts the reply without sending it
  (`ReaderProperties.EndTransitions`).
- A count of zero or less in a `DATA` block never finishes the reply
  (`ReaderProperties.NonPositiveCountNeverEnds`).
- Nothing closes the channels when the stream ends.
- The code bytes are combined with bitwise AND in the source. The model uses
  the evidently intended OR (see Findings). Byte `i` of the hex field goes
  to bits `8*i` to `8*i+7` (little-endian), as the source's shifts say.

## Model

| member | source | states |
|---|---|---|
| Strings.Split | lirc.go:83 | a line splits into at least one space-free field, and joining the fields with single spaces gives the line back |
| Strings.Join | lirc.go:185 | no fields join to the empty message, one field to itself, and longer lists begin with the first field and a separator; every field fits in the result; Split's contract and Strings.SplitJoin state that Join and Split undo each other |
| Strings.SplitJoin | lirc.go:83 | splitting fields joined by spaces gives the same fields, when no field contains a space |
| Hex.DecodeString | lirc.go:84 | decoding succeeds exactly on an even number of hex digits of either case, and yields half as many bytes |
| Hex.DecodeStringAt | lirc.go:84 | byte k of a decoded string is the value of its k-th pair of digits, high digit first |
| Hex.DecodeEncode | lirc.go:84 | decoding the hex spelling of any bytes gives the bytes back |
| Strconv.Atoi | lirc.go:101 | succeeds exactly on an optional sign plus digits whose value fits int64, and returns that value; otherwise it returns the sign's int64 bound once the digits before a bad character overflow uint64, the bound for a numeral out of int64 range, and 0 for anything else |
| Strconv.AtoiItoa | lirc.go:144 | Atoi reads back every int64 written in decimal |
| EventCode.AssembleCode | lirc.go:94-98 | byte k of the assembled code is byte k of the decoded field, for each of the eight bytes |
| EventCode.AssembleCodeBytes | lirc.go:94-98 | assembling the eight bytes of any 64-bit code gives that code back |
| EventCode.AssembleCodeZero | lirc.go:94-98 | the intended code is 0 exactly when all eight bytes are 0 |
| EventCode.AccumulateCode | lirc.go:94-98 | the accumulation loop with OR computes the assembled code |
| EventCode.AccumulateCodeAsWritten | lirc.go:94-98 | the accumulation loop as written, AND starting from 0, yields 0 for every input |
| Reader.ParseEventLine | lirc.go:83-108 | a broadcast line is rejected as bad code exactly when its first field fails to decode; an event is produced only from at least four fields |
| Reader.ReadBroadcast | lirc.go:83-108 | the broadcast branch of the loop body (split, decode, length check, accumulation, repeat count) computes ParseEventLine |
| Reader.Step | lirc.go:78-166 | only a broadcast line in Receive can panic or send an event, and sending an event leaves the variables unchanged; a reply is sent only on returning to Receive and is the reply under construction |
| Reader.ReadLine | lirc.go:78-166 | the loop body, switching on state and updating state, message and data_cnt in place, computes Step |
| Reader.Feed | lirc.go:75-166 | after a panic nothing changes; otherwise one line appends at most one event or one reply and never removes any |
| Reader.RunFrom | lirc.go:75-167 | reading more lines only appends to the events and replies already sent, at most one per line, and a panicked reader stays panicked; Reader.RunFromAppend, Reader.RunFromPanicked and ReaderProperties.RunSound state the rest |
| Reader.Run | lirc.go:59-171 | over a whole stream, the reader sends no more events and replies together than it reads lines |
| Reader.RunFromAppend | lirc.go:75-167 | reading a stream in two pieces is the same as reading it at once |
| Reader.RunFromPanicked | lirc.go:75-167 | once the reader has panicked, further lines change nothing |
| Reader.ReadLines | lirc.go:59-171 | the scanning loop sends exactly the events and replies of Run over the whole stream, in order, and panics exactly when Run does |
| ReaderProperties.BadCodeLineSkipped | lirc.go:84-92 | a non-BEGIN line in Receive whose code field is not sixteen hex digits is dropped, with no state change and nothing sent |
| ReaderProperties.EventLineSent | lirc.go:94-108 | a valid broadcast line sends one event: the button and remote fields, Atoi's repeat value even on error, and code byte k equal to the k-th hex pair; the state is unchanged |
| ReaderProperties.PanicExactlyOnShortEventLine | lirc.go:83-107 | the reader panics exactly on a non-BEGIN line in Receive with a valid code field and fewer than four fields |
| ReaderProperties.SplitEventLine | lirc.go:83 | the line the daemon writes for an event splits back into its four fields |
| ReaderProperties.ParseEventLineOf | lirc.go:83-108 | parsing the line written for any event with space-free names and an int64 repeat count gives that event back |
| ReaderProperties.EventLineRoundTrip | lirc.go:79-109 | reading the line written for such an event in Receive sends exactly that event and changes nothing else |
| ReaderProperties.ReplyStart | lirc.go:110-115 | BEGIN enters Reply; the next line is the command and resets flag, count and data |
| ReaderProperties.StatusTransitions | lirc.go:116-130 | END sends the reply with flag 1; SUCCESS and ERROR set the flag to 1 and 0 and await the data; any other line aborts to Receive silently |
| ReaderProperties.DataStartTransitions | lirc.go:131-140 | END sends the reply; DATA awaits the count; any other line aborts to Receive silently |
| ReaderProperties.DataLenTransition | lirc.go:141-150 | the count line sets the declared count to Atoi's value and zeroes the line counter; the data lines follow exactly when the line is an int64 numeral |
| ReaderProperties.DataTransition | lirc.go:151-158 | a data line is kept only while fewer than the declared count were seen; the counter always advances; the block ends exactly when the counter reaches the count |
| ReaderProperties.EndTransitions | lirc.go:159-165 | every line returns to Receive; only END sends the reply |
| ReaderProperties.StepConsistent | lirc.go:110-165 | one line preserves the invariant of the reader's variables, and any reply it sends has as many data lines as it declares and a 0/1 flag |
| ReaderProperties.RunFromSound | lirc.go:75-167 | the invariant and the shape of every reply sent are kept over any further stream |
| ReaderProperties.RunSound | lirc.go:59-171 | over every stream, every reply sent has as many data lines as it declares and a 0/1 flag; the Message state is never entered; the data collected in a block is empty or no longer than the declared count |
| ReaderProperties.NonPositiveCountNeverEnds | lirc.go:151-158 | with a declared count of zero or less, every further line only advances the counter: nothing is kept, nothing is sent, the block never ends |
| ReaderProperties.DataLines | lirc.go:151-158 | the data lines of a block are kept in order until the declared count is reached, then END is awaited |
| ReaderProperties.ReplyHeader | lirc.go:110-150 | BEGIN, command, SUCCESS or ERROR, DATA and an int64 count n > 0 leave the reader awaiting n data lines for that command and flag |
| ReaderProperties.ReplyExchange | lirc.go:110-165 | a complete exchange with a data block sends exactly one reply carrying the command, the flag, the count and the lines in order, sends no event, and ends in Receive |
| ReaderProperties.ShortReplyExchanges | lirc.go:116-134 | BEGIN / command / END sends one reply with flag 1 and no data; BEGIN / command / SUCCESS or ERROR / END sends one reply with that flag and no data |
| ReaderProperties.AbortedReplyRecovers | lirc.go:127-130 | after a reply aborted by a bad status line nothing is sent, and the next complete exchange is read normally |
| Router.Command | lirc.go:173-180 | writes the command and a newline, then takes the oldest delivered reply, or blocks when there is none |
| Router.ReplyOutcome | lirc.go:184-186 | a reply with flag 0 is an error whose message is its data lines joined by spaces; any other reply is no error |
| Router.Send | lirc.go:182-188 | writes SEND_ONCE and the command; fails exactly when the reply's flag is 0, with the data lines joined by spaces; blocks exactly when no reply arrives, leaving no reply pending |
| Router.SendLong | lirc.go:190-202 | writes SEND_START; on its failure returns that reply's data lines joined by spaces and writes nothing more; otherwise writes SEND_STOP and fails exactly when the second reply's flag is 0, with that reply's data lines joined by spaces; blocks exactly when a reply is missing |
| Router.SendReportsDataReply | lirc.go:182-188 | a SEND_ONCE answered by a status and a data block fails exactly on ERROR, with the data lines joined by spaces |
| Router.SendOnceSucceeds | lirc.go:182-188 | SEND_ONCE remote1 KEY_UP answered BEGIN / command / SUCCESS / END returns no error |
| Router.SendOnceReportsError | lirc.go:182-188 | the same command answered with ERROR and the data line "unknown button" fails with that message |

## Left out

- Init and Close: dialing the socket, the writer, making the channels and
  starting the goroutine are I/O. The handler map in `LircRouter` is not
  used by the modelled code.
- The channels: concurrency and blocking are not modelled. A send is an
  append to `events` or `replies`. `Command`'s receive takes the oldest
  reply not yet taken, and no reply at all is the `Blocked` outcome.
- Writing and flushing a command is recorded as the text written. Write
  errors are ignored by the source and are not modelled.
- Router.SendLong: the hold between the two commands (`time.Sleep`) is not
  modelled, so it takes no delay parameter.
- Logging has no effect on state and is left out.
- The scanner is left out: its line splitting, its token size limit and its
  read errors. The reader's input is the sequence of lines it yields.
- Aliasing of `Data`: the source resets the reply's data with `Data[:0]`,
  which keeps the backing array of the reply sent before. A consumer still
  holding that earlier reply can see its lines overwritten. Replies here are
  values, so this is not captured.
- Go's `int` is taken as 64 bits, as on 64-bit platforms. On a 32-bit
  platform `strconv.Atoi` clamps to the int32 range, and the repeat count
  and the declared count would be narrower.
- `data_cnt` is unbounded here. The Go int would wrap after 2^63 lines
  inside a never-ending data block.
- Error kinds: the model keeps only whether `hex.DecodeString` and
  `strconv.Atoi` failed, because the source only tests `err != nil`.
- Reader.Step: its own contract states only the panic, event and reply
  shapes. The full transition of each state is stated by the
  ReaderProperties transition lemmas.
- Reader.ParseEventLine: its own contract states only when it rejects a
  code. The contents of the event are stated by
  ReaderProperties.EventLineSent and ReaderProperties.ParseEventLineOf.

## Findings

| source | as written | input that shows it | evidently intended | confidence | as-written member | corrected member |
|---|---|---|---|---|---|---|
| lirc.go:94-98 | the code starts at 0 and each shifted byte is combined into it with bitwise AND, so it stays 0 | the broadcast line `0100000000000000 00 KEY_UP remote1` gives code 0 | combine with bitwise OR, so byte i lands at bits 8*i to 8*i+7 and the code is 1; the code is then 0 only when every byte is (EventCode.AssembleCodeZero) | high; not executed | EventCode.AccumulateCodeAsWritten | EventCode.AccumulateCode |
