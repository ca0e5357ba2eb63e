/**
 * The tio-style console handler: the per-chunk escape-key logic of `handleStdin`, the mode
 * flags `handleCommand` flips, and the output path (hex view, then timestamps).
 *
 * The handler's flags live in a class, as in the source; what one chunk does to them is
 * specified by the pure function ChunkStep, which models the code as written, including
 * the byte it dispatches in the middle of a chunk and the index adjustment that can send a
 * slice out of range (a Go panic, modelled as the outcome Panicked).
 */
module StdFds {
  import opened Text
  import opened KeyCommands
  import opened OutputTransforms

  /** The flags of `stdfdsHandler` that the chunk and output logic reads and writes. */
  datatype Modes = Modes(
    expectingCommand: bool,
    localEcho: bool,
    hex: bool,
    timestamps: bool,
    nextIsTimestamp: bool)

  const Initial: Modes := Modes(false, false, false, false, false)

  /** What `handleCommand` does to the flags; every other effect of a command (quitting,
   *  printing, the break and baud-detection requests) is outside this model. */
  function CommandEffect(m: Modes, c: byte): Modes
  {
    if c == LocalEchoChar then m.(localEcho := !m.localEcho)
    else if c == HexModeChar then m.(hex := !m.hex)
    else if c == TimestampsChar then m.(timestamps := !m.timestamps, nextIsTimestamp := false)
    else m
  }

  /** Only the three toggle commands touch the flags; each flips its own flag and nothing
   *  else, except that the timestamps toggle also drops a pending timestamp. */
  lemma CommandEffectFlips(m: Modes, c: byte)
    ensures CommandEffect(m, c).expectingCommand == m.expectingCommand
    ensures CommandEffect(m, c).localEcho != m.localEcho <==> c == LocalEchoChar
    ensures CommandEffect(m, c).hex != m.hex <==> c == HexModeChar
    ensures CommandEffect(m, c).timestamps != m.timestamps <==> c == TimestampsChar
    ensures CommandEffect(m, c).nextIsTimestamp == (m.nextIsTimestamp && c != TimestampsChar)
    ensures c != LocalEchoChar && c != HexModeChar && c != TimestampsChar ==> CommandEffect(m, c) == m
  {
  }

  /** Commands never look at or touch the pending-command flag: handling a command that
   *  was pending, then clearing the flag, is handling it with nothing pending. */
  lemma CommandIgnoresPending(m: Modes, c: byte)
    requires !m.expectingCommand
    ensures CommandEffect(m.(expectingCommand := true), c).(expectingCommand := false) == CommandEffect(m, c)
  {
  }

  /** Giving the same command twice restores the three modes; a pending timestamp is
   *  dropped by the timestamps toggle. */
  lemma ToggleTwice(m: Modes, c: byte)
    ensures CommandEffect(CommandEffect(m, c), c) ==
      m.(nextIsTimestamp := m.nextIsTimestamp && c != TimestampsChar)
  {
  }

  /** What happens to one chunk of keystrokes. */
  datatype ChunkResult =
    | Forwarded(data: seq<byte>)  // sent to the server (possibly empty)
    | Withheld                    // the chunk was a lone escape: `continue`, nothing sent
    | Panicked                    // an index or slice out of range

  /** The bytes a result sends to the server. */
  function Sent(r: ChunkResult): seq<byte>
  {
    if r.Forwarded? then r.data else []
  }

  /** The outcome of a chunk: the result, the flags afterwards, the command bytes handed to
   *  `handleCommand` in order, and what local echo wrote to the terminal. */
  datatype Step = Step(result: ChunkResult, modes: Modes, dispatched: seq<byte>, echoed: seq<byte>)

  /** The end of a chunk that is not withheld: echo with the mode as the commands left it. */
  function Finish(m: Modes, out: seq<byte>, dispatched: seq<byte>): Step
  {
    Step(Forwarded(out), m, dispatched, if m.localEcho then Echo(out) else [])
  }

  /** The state of a chunk once any pending command is handled: the flags, the bytes, the
   *  escape position the code goes on to use, and the commands dispatched so far. */
  datatype Pending = Pending(modes: Modes, data: seq<byte>, escapePos: int, dispatched: seq<byte>)

  /** The first half of a `handleStdin` pass, as written: the escape position is found in
   *  the whole chunk, before a pending command is handled, and then moved by
   *  `1 - len(replacement)`. */
  function HandlePending(m: Modes, input: seq<byte>): Pending
    requires !(m.expectingCommand && input == [])
  {
    var p := IndexOf(input, EscapeChar);
    if m.expectingCommand then
      var rep := Replacement(input[0]);
      Pending(CommandEffect(m, input[0]).(expectingCommand := false), rep + input[1..],
              if p >= 0 then p + 1 - |rep| else p, [input[0]])
    else Pending(m, input, p, [])
  }

  /** The second half, as written: a trailing escape defers its command to the next chunk;
   *  any other escape position dispatches the byte found there and drops it and the byte
   *  after it, or panics when the position is past the end. */
  function HandleEscape(st: Pending): Step
  {
    var Pending(m1, in1, p1, d1) := st;
    if p1 >= 0 && p1 == |in1| - 1 then
      var m2 := m1.(expectingCommand := true);
      if |in1| == 1 then Step(Withheld, m2, d1, [])
      else Finish(m2, in1[..|in1| - 1], d1)
    else if p1 >= 0 then
      if p1 >= |in1| then Step(Panicked, m1, d1, [])
      else
        var command := in1[p1];
        Finish(CommandEffect(m1, command), in1[..p1] + Replacement(command) + in1[p1 + 2..], d1 + [command])
    else Finish(m1, in1, d1)
  }

  /** One pass of the `handleStdin` loop, as written. */
  function ChunkStep(m: Modes, input: seq<byte>): Step
  {
    if m.expectingCommand && input == [] then Step(Panicked, m, [], [])
    else HandleEscape(HandlePending(m, input))
  }

  lemma Associative(a: seq<byte>, b: seq<byte>, c: seq<byte>)
    ensures a + (b + c) == a + b + c
  {
  }

  lemma SplitAt(x: seq<byte>, a: seq<byte>, b: seq<byte>)
    requires x == a + b
    ensures x[..|a|] == a && x[|a|..] == b
  {
  }

  lemma MoveHead(prefix: seq<byte>, t: seq<byte>)
    requires t != []
    ensures prefix + t == (prefix + [t[0]]) + t[1..]
  {
    assert t == [t[0]] + t[1..];
  }

  /** One step of the timestamp walk, as the loop of `injectTimestamps` takes it. */
  lemma WalkStep(s: seq<byte>, pending: bool, stamp: seq<byte>, prefix: seq<byte>, t: seq<byte>, due: bool)
    requires t != []
    requires prefix + Stamped(t, due, stamp) == Stamped(s, pending, stamp)
    ensures (prefix + (if due && |t| != 1 then stamp else []) + [t[0]]) + Stamped(t[1..], NextDue(t, due), stamp)
      == Stamped(s, pending, stamp)
    ensures DueAfter(t, due) == DueAfter(t[1..], NextDue(t, due))
  {
    var pre := if due && |t| != 1 then stamp else [];
    var rest := Stamped(t[1..], NextDue(t, due), stamp);
    assert Stamped(t, due, stamp) == pre + [t[0]] + rest;
    assert prefix + (pre + [t[0]] + rest) == (prefix + pre + [t[0]]) + rest;
  }

  /** The output path of `printOutput`: hex view first, then timestamps. */
  function OutputView(m: Modes, buf: seq<byte>, stamp: seq<byte>): seq<byte>
  {
    var shown := if m.hex then HexDump(buf) else buf;
    if m.timestamps then Stamped(shown, m.nextIsTimestamp, stamp) else shown
  }

  class StdfdsHandler {
    var expectingCommand: bool
    var localEchoMode: bool
    var hexMode: bool
    var showTimestamps: bool
    var nextIsTimestamp: bool

    function State(): Modes
      reads this
    {
      Modes(expectingCommand, localEchoMode, hexMode, showTimestamps, nextIsTimestamp)
    }

    /** `NewStdFdsHandler`: every flag starts cleared. */
    constructor()
      ensures State() == Initial
    {
      expectingCommand := false;
      localEchoMode := false;
      hexMode := false;
      showTimestamps := false;
      nextIsTimestamp := false;
    }

    /** `handleCommand`: flips the flag a toggle names and returns the bytes to put back. */
    method HandleCommand(command: byte) returns (replacement: seq<byte>)
      modifies this
      ensures replacement == Replacement(command)
      ensures State() == CommandEffect(old(State()), command)
    {
      replacement := [];
      if command == CtrlTChar {
        replacement := [EscapeChar];
      } else if command == LocalEchoChar {
        localEchoMode := !localEchoMode;
      } else if command == HexModeChar {
        hexMode := !hexMode;
      } else if command == TimestampsChar {
        showTimestamps := !showTimestamps;
        nextIsTimestamp := false;
      }
    }

    /** The body of the `handleStdin` loop for one chunk, channels aside. */
    method HandleStdin(chunk: seq<byte>) returns (result: ChunkResult, dispatched: seq<byte>, echoed: seq<byte>)
      modifies this
      ensures Step(result, State(), dispatched, echoed) == ChunkStep(old(State()), chunk)
    {
      if expectingCommand && |chunk| == 0 {
        // `input[0]` of an empty chunk
        return Panicked, [], [];
      }
      var input, escapePos, done := ConsumePending(chunk);
      result, dispatched, echoed := HandleNewEscape(input, escapePos, done);
    }

    /** The first half of a pass: the escape position is taken from the whole chunk, then a
     *  pending command consumes the chunk's first byte and the position is adjusted. */
    method ConsumePending(chunk: seq<byte>) returns (input: seq<byte>, escapePos: int, dispatched: seq<byte>)
      requires !(expectingCommand && chunk == [])
      modifies this
      ensures Pending(State(), input, escapePos, dispatched) == HandlePending(old(State()), chunk)
    {
      input := chunk;
      dispatched := [];
      escapePos := IndexOf(input, EscapeChar);
      if expectingCommand {
        dispatched := [input[0]];
        var replacement := HandleCommand(input[0]);
        expectingCommand := false;
        input := replacement + input[1..];
        if escapePos >= 0 {
          escapePos := escapePos + 1 - |replacement|;
        }
      }
    }

    /** The second half of a pass: the escape at `escapePos`, if any, then local echo. */
    method HandleNewEscape(chunk: seq<byte>, escapePos: int, done: seq<byte>)
      returns (result: ChunkResult, dispatched: seq<byte>, echoed: seq<byte>)
      modifies this
      ensures Step(result, State(), dispatched, echoed) == HandleEscape(Pending(old(State()), chunk, escapePos, done))
    {
      var input := chunk;
      dispatched := done;
      echoed := [];
      if escapePos >= 0 && escapePos == |input| - 1 {
        expectingCommand := true;
        if |input| == 1 {
          return Withheld, dispatched, echoed;
        }
        input := input[..|input| - 1];
      } else if escapePos >= 0 {
        if escapePos >= |input| {
          return Panicked, dispatched, echoed;
        }
        var before := input[..escapePos];
        var command := input[escapePos];
        var after := input[escapePos + 2..];
        dispatched := dispatched + [command];
        var replacement := HandleCommand(command);
        input := before + replacement + after;
      }
      if localEchoMode {
        echoed := EchoPrintable(input);
      }
      result := Forwarded(input);
    }

    /** `injectTimestamps`: walks the buffer, inserting the stamp before a byte when one is
     *  due and the byte is not the buffer's last. */
    method InjectTimestamps(inBuf: seq<byte>, stamp: seq<byte>) returns (outBuf: seq<byte>)
      modifies this`nextIsTimestamp
      ensures outBuf == Stamped(inBuf, old(nextIsTimestamp), stamp)
      ensures nextIsTimestamp == DueAfter(inBuf, old(nextIsTimestamp))
    {
      ghost var pending := nextIsTimestamp;
      outBuf := inBuf;
      var i := 0;
      ghost var j := 0;
      ghost var prefix := [];
      while i < |outBuf|
        invariant 0 <= j <= |inBuf|
        invariant outBuf == prefix + inBuf[j..] && i == |prefix|
        invariant prefix + Stamped(inBuf[j..], nextIsTimestamp, stamp) == Stamped(inBuf, pending, stamp)
        invariant DueAfter(inBuf[j..], nextIsTimestamp) == DueAfter(inBuf, pending)
        decreases |inBuf| - j
      {
        ghost var t := inBuf[j..];
        ghost var due := nextIsTimestamp;
        ghost var opt := if due && |t| != 1 then stamp else [];
        assert t[1..] == inBuf[j + 1..];
        SplitAt(outBuf, prefix, t);
        WalkStep(inBuf, pending, stamp, prefix, t, due);
        if nextIsTimestamp && i != |outBuf| - 1 {
          var end := outBuf[i..];
          outBuf := outBuf[..i] + stamp;
          outBuf := outBuf + end;
          i := i + |stamp|;
          nextIsTimestamp := false;
        }
        prefix := prefix + opt;
        if outBuf[i] == LineFeed {
          nextIsTimestamp := true;
        }
        MoveHead(prefix, t);
        i := i + 1;
        j := j + 1;
        prefix := prefix + [t[0]];
      }
      assert inBuf[j..] == [];
    }

    /** The transforms `printOutput` applies to a buffer from the server. */
    method ShowOutput(buf: seq<byte>, stamp: seq<byte>) returns (out: seq<byte>)
      modifies this
      ensures out == OutputView(old(State()), buf, stamp)
      ensures State() == old(State()).(nextIsTimestamp :=
        if old(showTimestamps) then DueAfter(if old(hexMode) then HexDump(buf) else buf, old(nextIsTimestamp))
        else old(nextIsTimestamp))
    {
      out := buf;
      if hexMode {
        out := BufferToHex(out);
      }
      if showTimestamps {
        out := InjectTimestamps(out, stamp);
      }
    }
  }

  // ---------------------------------------------------------------------------------------
  // What one chunk does, as written

  /** A chunk that is a lone escape byte sends nothing and leaves a command pending. */
  lemma LoneEscapeWithheld(m: Modes)
    requires !m.expectingCommand
    ensures ChunkStep(m, [EscapeChar]) == Step(Withheld, m.(expectingCommand := true), [], [])
  {
    IndexOfAfterPrefix([], EscapeChar, []);
    assert [] + [EscapeChar] + [] == [EscapeChar];
  }

  /** A longer chunk whose only escape byte is its last goes out without it, and the next
   *  chunk's first byte is taken as the command. */
  lemma TrailingEscapeDeferred(m: Modes, s: seq<byte>)
    requires !m.expectingCommand
    requires s != [] && EscapeChar !in s
    ensures ChunkStep(m, s + [EscapeChar]).result == Forwarded(s)
    ensures ChunkStep(m, s + [EscapeChar]).modes == m.(expectingCommand := true)
    ensures ChunkStep(m, s + [EscapeChar]).dispatched == []
  {
    IndexOfAfterPrefix(s, EscapeChar, []);
    assert s + [EscapeChar] + [] == s + [EscapeChar];
    assert (s + [EscapeChar])[..|s|] == s;
  }

  /** With a command pending, the chunk's first byte is that command: it is consumed, the
   *  pending flag is cleared, and only "send ctrl-t" leaves a byte, the escape, in its place. */
  lemma PendingCommandConsumed(m: Modes, c: byte, rest: seq<byte>)
    requires m.expectingCommand
    requires EscapeChar !in [c] + rest
    ensures ChunkStep(m, [c] + rest).result == Forwarded(Replacement(c) + rest)
    ensures ChunkStep(m, [c] + rest).modes == CommandEffect(m, c).(expectingCommand := false)
    ensures ChunkStep(m, [c] + rest).dispatched == [c]
    ensures c == CtrlTChar ==> ChunkStep(m, [c] + rest).result == Forwarded([EscapeChar] + rest)
  {
    IndexOfAbsent([c] + rest, EscapeChar);
    assert ([c] + rest)[0] == c && ([c] + rest)[1..] == rest;
  }

  /** An escape byte inside a chunk takes itself as the command: the command matches nothing,
   *  so the escape and the byte after it vanish and no flag changes. Escape bytes after the
   *  first pass through untouched. */
  lemma MidChunkEscapeDropsTwo(m: Modes, a: seq<byte>, b: seq<byte>)
    requires !m.expectingCommand
    requires EscapeChar !in a && |b| >= 1
    ensures ChunkStep(m, a + [EscapeChar] + b) == Finish(m, a + b[1..], [EscapeChar])
  {
    var input := a + [EscapeChar] + b;
    IndexOfAfterPrefix(a, EscapeChar, b);
    AroundByte(a, EscapeChar, b);
    EscapeIsNoCommand(m);
    assert a + [] + b[1..] == a + b[1..];
    EscapeDispatch(m, input, a, EscapeChar, b[1..]);
  }

  /** The escape byte is not a command: it puts nothing back and changes no flag. */
  lemma EscapeIsNoCommand(m: Modes)
    ensures CommandFor(EscapeChar) == Ignored
    ensures Replacement(EscapeChar) == [] && CommandEffect(m, EscapeChar) == m
  {
  }

  /** The pieces of `a + [x] + b` around its byte at `|a|`. */
  lemma AroundByte(a: seq<byte>, x: byte, b: seq<byte>)
    requires |b| >= 1
    ensures (a + [x] + b)[..|a|] == a && (a + [x] + b)[|a|] == x
    ensures (a + [x] + b)[|a| + 2..] == b[1..]
  {
  }

  /** With nothing pending, the first escape, at `|pre|` with at least one byte after it,
   *  dispatches the byte `c` found at its own position and drops that byte and the next. */
  lemma EscapeDispatch(m: Modes, input: seq<byte>, pre: seq<byte>, c: byte, post: seq<byte>)
    requires !m.expectingCommand && |pre| < |input| - 1 && IndexOf(input, EscapeChar) == |pre|
    requires input[..|pre|] == pre && input[|pre|] == c && input[|pre| + 2..] == post
    ensures ChunkStep(m, input) == Finish(CommandEffect(m, c), pre + Replacement(c) + post, [c])
  {
    assert HandlePending(m, input) == Pending(m, input, |pre|, []);
    assert [] + [c] == [c];
  }

  /** A chunk without escape bytes, with nothing pending, goes out unchanged. */
  lemma PlainChunkForwarded(m: Modes, s: seq<byte>)
    requires !m.expectingCommand && EscapeChar !in s
    ensures ChunkStep(m, s) == Finish(m, s, [])
  {
    IndexOfAbsent(s, EscapeChar);
  }

  /** A pending command with an empty chunk reads `input[0]` of nothing. */
  lemma PendingEmptyPanics(m: Modes)
    requires m.expectingCommand
    ensures ChunkStep(m, []).result == Panicked
  {
  }

  /** When the pending command is not ctrl-t, an escape among the chunk's last two bytes is
   *  looked for one place too far right, past the end of the shortened chunk. */
  lemma PendingThenLateEscapePanics(m: Modes, c: byte, a: seq<byte>, b: seq<byte>)
    requires m.expectingCommand && c != CtrlTChar && c != EscapeChar
    requires EscapeChar !in a && |b| <= 1
    ensures ChunkStep(m, [c] + a + [EscapeChar] + b).result == Panicked
  {
    var input := [c] + a + [EscapeChar] + b;
    assert input == ([c] + a) + [EscapeChar] + b;
    IndexOfAfterPrefix([c] + a, EscapeChar, b);
    assert input[1..] == a + [EscapeChar] + b;
  }

  /** Splitting `ctrl-t t` across two chunks sends the escape byte; inside one chunk it
   *  sends nothing, so the result depends on where the terminal cut the input. */
  lemma SplitChangesOutcome()
    ensures ChunkStep(Initial, [EscapeChar, CtrlTChar]).result == Forwarded([])
    ensures ChunkStep(Initial, [EscapeChar]).result == Withheld
    ensures ChunkStep(ChunkStep(Initial, [EscapeChar]).modes, [CtrlTChar]).result == Forwarded([EscapeChar])
  {
    MidChunkEscapeDropsTwo(Initial, [], [CtrlTChar]);
    assert [] + [EscapeChar] + [CtrlTChar] == [EscapeChar, CtrlTChar];
    LoneEscapeWithheld(Initial);
    PendingCommandConsumed(Initial.(expectingCommand := true), CtrlTChar, []);
    assert [CtrlTChar] + [] == [CtrlTChar];
  }

  /** `ctrl-t x`, then a chunk `x ctrl-t`: the second chunk panics. */
  lemma PendingThenEscapePanicExample()
    ensures ChunkStep(Initial.(expectingCommand := true), ['x' as int, EscapeChar]).result == Panicked
  {
    PendingThenLateEscapePanics(Initial.(expectingCommand := true), 'x' as int, [], []);
    assert ['x' as int] + [] + [EscapeChar] + [] == ['x' as int, EscapeChar];
  }

  // ---------------------------------------------------------------------------------------
  // What one chunk evidently should do

  /** The first half of the intended pass: the escape looked for is the first one after
   *  the consumed command byte, shifted by what the command put in front of it, so the
   *  position always names an escape byte of the data. */
  function HandlePendingIntended(m: Modes, input: seq<byte>): (r: Pending)
    requires !(m.expectingCommand && input == [])
    ensures r.escapePos < |r.data|
    ensures r.escapePos >= 0 ==> r.data[r.escapePos] == EscapeChar
    ensures r.escapePos < 0 ==> r.escapePos == -1
  {
    if m.expectingCommand then
      var rep := Replacement(input[0]);
      var q := IndexOf(input[1..], EscapeChar);
      Pending(CommandEffect(m, input[0]).(expectingCommand := false), rep + input[1..],
              if q >= 0 then q + |rep| else -1, [input[0]])
    else Pending(m, input, IndexOf(input, EscapeChar), [])
  }

  /** The second half of the intended pass: in the middle of a chunk the command dispatched
   *  is the byte after the escape. */
  function HandleEscapeIntended(st: Pending): Step
    requires st.escapePos < |st.data|
  {
    var Pending(m1, in1, p1, d1) := st;
    if p1 >= 0 && p1 == |in1| - 1 then
      var m2 := m1.(expectingCommand := true);
      if |in1| == 1 then Step(Withheld, m2, d1, [])
      else Finish(m2, in1[..|in1| - 1], d1)
    else if p1 >= 0 then
      var command := in1[p1 + 1];
      Finish(CommandEffect(m1, command), in1[..p1] + Replacement(command) + in1[p1 + 2..], d1 + [command])
    else Finish(m1, in1, d1)
  }

  /** The intended chunk step. */
  function ChunkStepIntended(m: Modes, input: seq<byte>): Step
  {
    if m.expectingCommand && input == [] then Step(Panicked, m, [], [])
    else HandleEscapeIntended(HandlePendingIntended(m, input))
  }

  /** The intended step never panics on a non-empty chunk, nor on any chunk when nothing is
   *  pending. */
  lemma IntendedNeverPanics(m: Modes, input: seq<byte>)
    ensures ChunkStepIntended(m, input).result == Panicked <==> m.expectingCommand && input == []
  {
  }

  /** An escape-free chunk, an escape and a command byte, then more escape-free bytes: the
   *  intended step dispatches the command and sends what surrounds it. */
  lemma IntendedMidChunk(m: Modes, a: seq<byte>, c: byte, b: seq<byte>)
    requires !m.expectingCommand
    requires EscapeChar !in a
    ensures ChunkStepIntended(m, a + [EscapeChar, c] + b).result == Forwarded(a + Replacement(c) + b)
    ensures ChunkStepIntended(m, a + [EscapeChar, c] + b).modes == CommandEffect(m, c)
    ensures ChunkStepIntended(m, a + [EscapeChar, c] + b).dispatched == [c]
  {
    var input := a + [EscapeChar, c] + b;
    assert input == a + [EscapeChar] + ([c] + b);
    IndexOfAfterPrefix(a, EscapeChar, [c] + b);
    assert input[..|a|] == a && input[|a| + 1] == c && input[|a| + 2..] == b;
  }

  /** The intended step on `a ctrl-t`: `a` is sent and a command is left pending. */
  lemma IntendedTrailingEscape(m: Modes, a: seq<byte>)
    requires !m.expectingCommand && EscapeChar !in a
    ensures Sent(ChunkStepIntended(m, a + [EscapeChar]).result) == a
    ensures ChunkStepIntended(m, a + [EscapeChar]).modes == m.(expectingCommand := true)
    ensures ChunkStepIntended(m, a + [EscapeChar]).dispatched == []
  {
    IndexOfAfterPrefix(a, EscapeChar, []);
    assert a + [EscapeChar] + [] == a + [EscapeChar];
    assert (a + [EscapeChar])[..|a|] == a;
  }

  /** The intended step on `c b` with a command pending: c is dispatched, b is sent after
   *  what c puts back. */
  lemma IntendedPendingCommand(m: Modes, c: byte, b: seq<byte>)
    requires m.expectingCommand && EscapeChar !in b
    ensures ChunkStepIntended(m, [c] + b).result == Forwarded(Replacement(c) + b)
    ensures ChunkStepIntended(m, [c] + b).modes == CommandEffect(m, c).(expectingCommand := false)
    ensures ChunkStepIntended(m, [c] + b).dispatched == [c]
  {
    var input := [c] + b;
    assert input[0] == c && input[1..] == b;
    IndexOfAbsent(b, EscapeChar);
  }

  /** Where the terminal cuts the input does not matter to the intended step: `a ctrl-t` then
   *  `c b` sends the same bytes, dispatches the same command and ends in the same modes as
   *  the single chunk `a ctrl-t c b`. */
  lemma IntendedSplitAgrees(m: Modes, a: seq<byte>, c: byte, b: seq<byte>)
    requires !m.expectingCommand
    requires EscapeChar !in a && EscapeChar !in b
    ensures ChunkStepIntended(m, a + [EscapeChar]).modes == m.(expectingCommand := true)
    ensures Sent(ChunkStepIntended(m, a + [EscapeChar]).result) +
            Sent(ChunkStepIntended(m.(expectingCommand := true), [c] + b).result)
            == Sent(ChunkStepIntended(m, a + [EscapeChar, c] + b).result)
    ensures ChunkStepIntended(m, a + [EscapeChar]).dispatched +
            ChunkStepIntended(m.(expectingCommand := true), [c] + b).dispatched
            == ChunkStepIntended(m, a + [EscapeChar, c] + b).dispatched
    ensures ChunkStepIntended(m.(expectingCommand := true), [c] + b).modes
            == ChunkStepIntended(m, a + [EscapeChar, c] + b).modes
  {
    IntendedMidChunk(m, a, c, b);
    IntendedTrailingEscape(m, a);
    IntendedPendingCommand(m.(expectingCommand := true), c, b);
    CommandIgnoresPending(m, c);
    Associative(a, Replacement(c), b);
  }
}
