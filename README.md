# ttyc in Dafny

A model of the core of **ttyc**, a command-line client for ttyd-protocol web terminals and
for Wi-Se serial-over-WiFi bridges, and of **wistty**, its companion that reads and sets a
Wi-Se bridge's UART parameters. The model covers:

- **the console handler** (`StdFds`, `KeyCommands`, `OutputTransforms`). It covers the
  `ctrl-t` escape state machine on standard input and what each key command does to the
  handler's modes. It covers the sorted help listing, and the transforms applied to server
  output: the hex dump, local echo and timestamp injection;
- **the WebSocket client** (`Protocol`). It covers the frames the client sends and the
  frames it accepts from the server. It also covers the client's lifecycle (dial, shut
  down, soft close, close, redial), its read, write and channel loops one step at a time,
  and the ping/timeout watchdog;
- **the shared client library** (`Common`). It covers the endpoint URLs and Wi-Se
  detection from the `Server` header. It also covers the hand-written `stty` JSON body,
  which is proved to read back as the settings sent, and how `stty` replies are parsed and
  judged by their status;
- **HTTP authentication** (`HttpAuth`). It covers `EnsureAuth`'s retry decision for
  Basic and Digest, the parsing of the Digest challenge, and the Digest checksum and
  `Authorization` header in the qop form of RFC 2617, which the code uses for every
  challenge, with the `int16` nonce count that wraps;
- **the `ttyc` program** (`TtycMain`). It covers command-line validation, the reconnect
  loop with its three backoff policies, the HTTP timeout, and the handshake followed by
  `stty`;
- **the `wistty` program** (`Wistty`). It covers its validation, the choice between
  reading and setting the UART, and the one-line summary it prints;
- **the Windows resize watcher** (`Switzerland`). It covers the registry of resize
  listeners and the worker that polls the console size.

`Text` holds the Go library string functions the source relies on. Searching, splitting,
trimming, lower-casing and `strings.Contains` carry contracts that characterise their
result; `%d` and `%x` are proved to read back through independent readers (`ParseDecimal`,
`ParseHex`). `Wrappers` holds `Option`.

Where the code does something its authors evidently did not intend, the model keeps the
code's behaviour and also gives the corrected version beside it (see "## Findings"). The
console handler class, the `EnsureAuth` method and `HandshakeAndSetTerminal` model the
code as written.

## Model

| member | source | states |
|---|---|---|
| Text.AsciiRoundTrip | common.go:202 | converting an ASCII string to bytes and back yields the same string |
| Text.IndexOf | cmd/ttyc/handlers/stdfds.go:131 | `bytes.Index` of one byte: -1 exactly when it is absent; otherwise the position of its first occurrence |
| Text.IndexOfAfterPrefix | cmd/ttyc/handlers/stdfds.go:131 | the first occurrence of a byte that a prefix lacks is just after that prefix |
| Text.IndexOfAbsent | cmd/ttyc/handlers/stdfds.go:131 | a byte that is absent has index -1 |
| Text.Cut | utils/httpAuth.go:159 | `SplitN(s, sep, 2)`: no split exactly when `sep` is absent; otherwise the string is head + sep + tail, and the head holds no `sep` |
| Text.CutAtFirst | utils/httpAuth.go:166 | a string cuts at the first separator, whatever the tail holds |
| Text.Split | utils/httpAuth.go:165 | `strings.Split` yields at least one part, and no part holds the separator |
| Text.JoinSplit | utils/httpAuth.go:165 | joining the parts of a split with the same separator restores the string |
| Text.SplitJoin | common.go:199 | splitting a join of separator-free parts gives back those parts |
| Text.TrimLeftShape | utils/httpAuth.go:170 | left trimming removes a prefix made only of cut characters and stops at the first other character |
| Text.TrimRightShape | utils/httpAuth.go:170 | right trimming removes a suffix made only of cut characters and stops at the last other character |
| Text.TrimLeftPadded | utils/httpAuth.go:170 | left padding of cut characters is removed exactly, up to a non-cut character |
| Text.TrimRightPadded | utils/httpAuth.go:170 | right padding of cut characters is removed exactly, back to a non-cut character |
| Text.TrimPadded | utils/httpAuth.go:170 | `strings.Trim` of padding around a core that starts and ends with non-cut characters yields that core |
| Text.LowerChar | common.go:107 | the result is never a capital; a capital becomes the small letter at the same place in the alphabet, and any other character is kept |
| Text.ToLower | common.go:107 | lower-casing keeps the length, leaves no capital, keeps every non-capital in place and turns each capital into its own small letter |
| Text.ToLowerIdempotent | common.go:107 | lower-casing leaves a text alone exactly when it has no capital, so lower-casing twice is lower-casing once |
| Text.Contains | common.go:107 | `strings.Contains` is true exactly when the substring occurs at some position |
| Text.NatToDecimal | common.go:180-186 | `%d` of a natural number is a non-empty digit string without a leading zero |
| Text.IntToDecimal | ws/protocol.go:273-277 | `%d` of an integer is digits, preceded by a minus sign exactly for negative numbers |
| Text.NatDecimalRoundTrip | common.go:180-186 | the digits of a natural number read back as that number |
| Text.DecimalRoundTrip | common.go:180-186 | `%d` output parses back to the same integer |
| Text.DecimalIsPlain | common.go:180-186 | `%d` output is ASCII digits with at most a leading minus sign |
| Text.DecimalInjective | common.go:180-186 | different integers print differently |
| Text.HexCharValue | utils/httpAuth.go:76 | the hex reader gives a value in 0..15 exactly for a lower-case hex digit, and -1 otherwise |
| Text.HexDigitChar | utils/httpAuth.go:76 | the digit printed for a value below 16 reads back as that value |
| Text.NatToHex | utils/httpAuth.go:76 | `%x` of a natural number is non-empty lower-case hex without a leading zero |
| Text.NatHexRoundTrip | utils/httpAuth.go:76 | the hex digits of a natural number read back as that number |
| Text.HexLeadingZeros | utils/httpAuth.go:76 | leading zeros keep hex digits hex and do not change their value |
| Text.ZeroPadHex | utils/httpAuth.go:76 | zero padding to a width keeps hex digits and their value |
| Text.ZeroPad | utils/httpAuth.go:76 | the width flag of `%08x` left-pads with zeros to the width and keeps the digits at the end |
| KeyCommands.Replacement | cmd/ttyc/handlers/stdfds.go:255-257 | a command's replacement is empty or the escape byte |
| KeyCommands.ReplacementOnlyForCtrlT | cmd/ttyc/handlers/stdfds.go:255-257 | a command yields a replacement exactly when it is `ctrl-t t`, and that replacement is the escape byte itself |
| KeyCommands.IgnoredExactlyOffTable | cmd/ttyc/handlers/stdfds.go:54-69 | a key does nothing exactly when it is not in the command table |
| KeyCommands.HelpKeyPairsLetters | cmd/ttyc/handlers/stdfds.go:275-282 | the help sort key puts each lower-case letter immediately before its upper-case partner, and among all other characters it sorts exactly where that capital does |
| KeyCommands.HelpKeyInjective | cmd/ttyc/handlers/stdfds.go:275-282 | no two keys share a sort key, so the sort order is total |
| KeyCommands.SortedUnique | cmd/ttyc/handlers/stdfds.go:284 | two strictly sorted key lists with the same elements are equal, so `sort.Slice` leaves exactly one order |
| KeyCommands.SortedFromAdjacent | cmd/ttyc/handlers/stdfds.go:284 | a list sorted pair by adjacent pair is sorted |
| KeyCommands.HelpOrderIsSortedKeys | cmd/ttyc/handlers/stdfds.go:268-284 | the help listing holds exactly the command table's keys, sorted, and it is the only such sorted list |
| KeyCommands.HelpKeys | cmd/ttyc/handlers/stdfds.go:286-292 | the help lists, in sorted order, exactly the commands that are standard or for which the server is Wi-Se |
| KeyCommands.HelpLine | cmd/ttyc/handlers/stdfds.go:291 | a help line shows the key's own character at a fixed column and ends with that command's help text |
| KeyCommands.FilterListed | cmd/ttyc/handlers/stdfds.go:288-290 | leaving out non-standard commands keeps the order and keeps exactly the commands the implementation offers |
| OutputTransforms.HexDigitByte | cmd/ttyc/handlers/stdfds.go:309 | a hex digit is emitted as the ASCII code of its lower-case character |
| OutputTransforms.HexDumpAppend | cmd/ttyc/handlers/stdfds.go:303-314 | the hex dump of two buffers back to back is the two dumps back to back |
| OutputTransforms.BufferToHex | cmd/ttyc/handlers/stdfds.go:303-314 | the loop builds the hex dump: line breaks kept, every other byte as two hex digits and a space |
| OutputTransforms.LineBreakCount | cmd/ttyc/handlers/stdfds.go:306 | a buffer has no more line breaks than bytes |
| OutputTransforms.HexDumpLength | cmd/ttyc/handlers/stdfds.go:303-314 | the dump is one byte per line break and three per other byte |
| OutputTransforms.HexDigitValue | cmd/ttyc/handlers/stdfds.go:309 | reading a hex digit gives the value whose digit it is, or -1 |
| OutputTransforms.HexCellAt | cmd/ttyc/handlers/stdfds.go:306-311 | decoding one cell consumes at least one byte and no more than are there |
| OutputTransforms.HexDigitRoundTrip | cmd/ttyc/handlers/stdfds.go:309 | every hex digit reads back as its value and is never a line break |
| OutputTransforms.HexDigitsAt | cmd/ttyc/handlers/stdfds.go:309 | two digits and a space decode to the byte they spell, consuming three bytes |
| OutputTransforms.HexCellRoundTrip | cmd/ttyc/handlers/stdfds.go:306-311 | each byte's cell decodes back to the byte, consuming exactly that cell |
| OutputTransforms.HexDumpRoundTrip | cmd/ttyc/handlers/stdfds.go:303-314 | the hex dump loses nothing: it decodes back to the original buffer |
| OutputTransforms.EchoAppend | cmd/ttyc/handlers/stdfds.go:163-171 | echoing two chunks is echoing each in turn |
| OutputTransforms.EchoPrintable | cmd/ttyc/handlers/stdfds.go:164-169 | the echo loop writes exactly the filtered chunk |
| OutputTransforms.EchoKeepsPrintable | cmd/ttyc/handlers/stdfds.go:166 | local echo writes only printable ASCII, CR and LF, never more than the input, and all of it exactly when all is printable |
| OutputTransforms.StampedFromSuffix | cmd/ttyc/handlers/stdfds.go:320-334 | continuing the stamping walk from any position equals stamping the rest with the flag the previous byte set |
| OutputTransforms.StampedPlacement | cmd/ttyc/handlers/stdfds.go:316-336 | the stamped buffer is the positional walk started at the first byte |
| OutputTransforms.TimestampCarried | cmd/ttyc/handlers/stdfds.go:323-332 | a stamp is owed after a chunk exactly when its last byte is a line feed, or its last-but-one byte is a line feed (the last byte is never stamped), or the chunk has at most one byte and a stamp was already owed |
| OutputTransforms.StampedLength | cmd/ttyc/handlers/stdfds.go:323-327 | stamping adds one stamp per stamp position and changes nothing else in length |
| OutputTransforms.StampedEmptyStamp | cmd/ttyc/handlers/stdfds.go:316-336 | with an empty stamp the output is the input |
| OutputTransforms.NoLineFeedNoStamp | cmd/ttyc/handlers/stdfds.go:323-332 | a chunk with no line feed, with no stamp owed, passes unchanged and leaves no stamp owed |
| OutputTransforms.BaudReportFor | cmd/ttyc/handlers/stdfds.go:400-411 | detection failed exactly when the approximate rate is not positive; the measured rate is shown exactly when both are positive |
| StdFds.CommandEffectFlips | cmd/ttyc/handlers/stdfds.go:258-264 | `e`, `h` and `T` each flip only their own mode; `T` also clears the pending stamp; every other key leaves the modes alone |
| StdFds.CommandIgnoresPending | cmd/ttyc/handlers/stdfds.go:134-136 | a command's effect does not depend on the pending-escape flag, which is cleared after it |
| StdFds.ToggleTwice | cmd/ttyc/handlers/stdfds.go:258-264 | a command given twice restores the modes, except that `T` leaves no stamp pending |
| StdFds.WalkStep | cmd/ttyc/handlers/stdfds.go:322-334 | one iteration of the stamping loop keeps its invariant: what has been emitted, followed by the stamped rest, is the whole stamped buffer |
| StdFds.StdfdsHandler.constructor | cmd/ttyc/handlers/stdfds.go:84-98 | a new handler has every mode off and no escape pending |
| StdFds.StdfdsHandler.HandleCommand | cmd/ttyc/handlers/stdfds.go:208-301 | a command updates the modes by its effect and returns its replacement bytes |
| StdFds.StdfdsHandler.HandleStdin | cmd/ttyc/handlers/stdfds.go:117-175 | one chunk of stdin yields the result, modes, dispatched commands and echo of the chunk step |
| StdFds.StdfdsHandler.ConsumePending | cmd/ttyc/handlers/stdfds.go:131-144 | a pending escape consumes the chunk's first byte as a command, and the escape position is adjusted as the code does it |
| StdFds.StdfdsHandler.HandleNewEscape | cmd/ttyc/handlers/stdfds.go:146-173 | a trailing escape is deferred to the next chunk, and a mid-chunk escape is dispatched and spliced out |
| StdFds.StdfdsHandler.InjectTimestamps | cmd/ttyc/handlers/stdfds.go:316-336 | the in-place loop produces the stamped buffer and leaves the stamp-owed flag the buffer implies |
| StdFds.StdfdsHandler.ShowOutput | cmd/ttyc/handlers/stdfds.go:338-349 | output is hex-dumped in hex mode and then stamped when timestamps are on, and only the stamp flag changes |
| StdFds.LoneEscapeWithheld | cmd/ttyc/handlers/stdfds.go:147-152 | a chunk that is only the escape byte sends nothing and leaves a command pending |
| StdFds.TrailingEscapeDeferred | cmd/ttyc/handlers/stdfds.go:147-153 | an escape at the end of a chunk is dropped, the rest is sent, and the next byte will be a command |
| StdFds.PendingCommandConsumed | cmd/ttyc/handlers/stdfds.go:134-137 | with a command pending, the chunk's first byte is dispatched and replaced, so `t` re-sends the escape byte |
| StdFds.MidChunkEscapeDropsTwo | cmd/ttyc/handlers/stdfds.go:154-159 | a mid-chunk escape dispatches the escape byte itself and drops both it and the key after it |
| StdFds.EscapeIsNoCommand | cmd/ttyc/handlers/stdfds.go:54-69 | the escape byte is not a command: it changes nothing and has no replacement |
| StdFds.EscapeDispatch | cmd/ttyc/handlers/stdfds.go:154-159 | a mid-chunk escape splices the replacement of the byte at its position between the bytes before it and those two past it |
| StdFds.PlainChunkForwarded | cmd/ttyc/handlers/stdfds.go:163-173 | a chunk without the escape byte, with no command pending, is sent unchanged |
| StdFds.PendingEmptyPanics | cmd/ttyc/handlers/stdfds.go:135 | an empty chunk with a command pending indexes past its end |
| StdFds.PendingThenLateEscapePanics | cmd/ttyc/handlers/stdfds.go:139-159 | a pending non-`t` command followed by an escape near the chunk's end leads the adjusted index out of range |
| StdFds.SplitChangesOutcome | cmd/ttyc/handlers/stdfds.go:147-159 | `ctrl-t t` in one chunk sends nothing, but split across two chunks sends the escape byte |
| StdFds.PendingThenEscapePanicExample | cmd/ttyc/handlers/stdfds.go:139-159 | a pending command `x` followed by a chunk `x ctrl-t` panics |
| StdFds.HandlePendingIntended | cmd/ttyc/handlers/stdfds.go:131-144 | with the position corrected, the escape index always points at an escape byte inside the new buffer, or is -1 |
| StdFds.IntendedNeverPanics | cmd/ttyc/handlers/stdfds.go:117-175 | with both corrections, the only panic left is an empty chunk with a command pending |
| StdFds.IntendedMidChunk | cmd/ttyc/handlers/stdfds.go:154-159 | corrected, a mid-chunk escape dispatches the key after it and replaces the pair by the key's replacement |
| StdFds.IntendedTrailingEscape | cmd/ttyc/handlers/stdfds.go:147-153 | corrected, a trailing escape still sends the rest and leaves a command pending |
| StdFds.IntendedPendingCommand | cmd/ttyc/handlers/stdfds.go:134-137 | corrected, a pending command consumes the chunk's first byte and sends its replacement followed by the rest |
| StdFds.IntendedSplitAgrees | cmd/ttyc/handlers/stdfds.go:147-159 | corrected, a command key gives the same bytes, commands and modes whether or not it arrives in the escape's chunk |
| Protocol.InputFrame | ws/protocol.go:212-218 | empty input is not sent; other input is framed by the input tag |
| Protocol.OutboundFrame | ws/protocol.go:202-206 | an empty frame is not written; any other is written unchanged |
| Protocol.ResizeJsonIsAscii | ws/protocol.go:273-277 | the resize body is ASCII |
| Protocol.ResizeFrame | ws/protocol.go:272-279 | a resize frame is the resize tag followed by a non-empty body |
| Protocol.InputFrameRoundTrip | ws/protocol.go:218 | a server reading an input frame gets back exactly the keystrokes |
| Protocol.ResizeFieldsRoundTrip | ws/protocol.go:273-277 | the resize fields read back as the columns and rows |
| Protocol.ResizeJsonRoundTrip | ws/protocol.go:277 | the resize JSON parses back to the same columns and rows |
| Protocol.ResizeFrameRoundTrip | ws/protocol.go:272-279 | a resize frame decodes to a resize of the same size |
| Protocol.FlowFramesDecode | ws/protocol.go:281-287 | the pause and resume frames decode as pause and resume |
| Protocol.HandleInbound | ws/protocol.go:192-201 | a server message is output exactly when it is non-empty and starts with the output tag; its payload is the rest |
| Protocol.FreshThenRedial | ws/protocol.go:72-94 | a new client starts shut down and not closed, and a first successful dial opens it |
| Protocol.RedialOutcomes | ws/protocol.go:96-125 | redial fails on a closed client and on a dial error, leaving the state alone; otherwise it succeeds and the client is live |
| Protocol.ShutdownOnce | ws/protocol.go:160-169 | shutting down happens at most once, and only the first shutdown reports its error |
| Protocol.SoftCloseNeedsShutdown | ws/protocol.go:127-136 | soft close refuses a live client and otherwise reports the socket's close error |
| Protocol.CloseIdempotent | ws/protocol.go:138-158 | close shuts down and marks closed; a second close changes nothing and reports nothing |
| Protocol.TransitionsKeepValid | ws/protocol.go:96-169 | every transition keeps the link between the flags and the channels that are open |
| Protocol.Client.constructor | ws/protocol.go:73-84 | the client as allocated: shut down, not closed |
| Protocol.Client.DialAndAuth | ws/protocol.go:72-94 | a client comes back exactly when the first dial succeeds, and it is live |
| Protocol.Client.Redial | ws/protocol.go:96-125 | redial moves the client state as the redial step says and reports its error |
| Protocol.Client.SoftClose | ws/protocol.go:127-136 | soft close reports what the soft-close step gives and changes nothing |
| Protocol.Client.Close | ws/protocol.go:138-158 | close moves the client state as the close step says |
| Protocol.Client.DoShutdown | ws/protocol.go:160-169 | shutdown moves the client state as the shutdown step says |
| Protocol.Client.ReadStep | ws/protocol.go:171-186 | a read error shuts the client down; a binary or text message is passed on unchanged; other messages are skipped |
| Protocol.Client.WriteStep | ws/protocol.go:202-223 | a write error on a frame shuts the client down; otherwise the state is unchanged |
| Protocol.Watchdog.constructor | ws/protocol.go:231-236 | the first ping is one interval away, and the first timeout is one interval beyond the usual timeout |
| Protocol.Watchdog.PingDue | ws/protocol.go:240-246 | a ping that fails to write stops the watchdog and shuts the client down; otherwise the next ping is one interval later |
| Protocol.Watchdog.Pong | ws/protocol.go:251-252 | a pong moves the timeout to interval + 3 seconds from now |
| Protocol.Watchdog.TimedOut | ws/protocol.go:247-250 | a timeout shuts the client down with a not-responding error |
| Common.JoinPath | common.go:67-80 | joining an empty base gives the segment alone; joining a non-empty base inserts one slash exactly when the base does not already end in one |
| Common.GetUrlFor | common.go:62-86 | an endpoint URL exists exactly for the known selectors; an unknown selector panics |
| Common.UrlForShape | common.go:62-86 | the endpoint keeps the host and appends the endpoint's segment; the WebSocket URL uses `wss` exactly when the base is `https`, and `ws` otherwise |
| Common.DetectServer | common.go:103-110 | the server is Wi-Se exactly when its `Server` header contains `wi-se` in any ASCII case |
| Common.ToLowerConcat | common.go:107 | lower-casing distributes over concatenation |
| Common.WiSeDetected | common.go:107-108 | any header with `Wi-Se` inside, in any case, is detected |
| Common.ParityFromWire | common.go:138-148 | no parity on the wire means none; 0 reads as even and any other number as odd |
| Common.ParseStty | common.go:125-150 | a parsed reply carries its baud rate, data bits and stop bits, and its parity as read from the wire |
| Common.ParityToWire | common.go:188-196 | only `none`, `even` and `odd` are sent |
| Common.ParityRoundTrip | common.go:138-148 | sending `even` or `odd` and reading it back yields the same word; `none` reads back as no parity |
| Common.SttyBody | common.go:178-200 | the body is the settings JSON, built field by field |
| Common.ReadItemsAppend | common.go:199 | reading the items of a joined body is reading each part in turn |
| Common.KeyedNumber | common.go:180-186 | a keyed number starts with its key and parses back to the number |
| Common.ReadBaud | common.go:180 | the baud item reads back as the baud rate |
| Common.ReadStop | common.go:183 | the stop-bits item reads back as the stop bits |
| Common.ReadBits | common.go:186 | the data-bits item reads back as the data bits |
| Common.ReadParity | common.go:188-196 | each parity item reads back as its parity word |
| Common.ParityDigits | common.go:191-194 | even is sent as `0` and odd as `1` |
| Common.ReadBaudItems | common.go:179-181 | the baud items read back as the baud rate when it is set, and add nothing otherwise |
| Common.ReadStopItems | common.go:182-184 | the stop-bits items read back as the stop bits when they are set, and add nothing otherwise |
| Common.ReadBitsItems | common.go:185-187 | the data-bits items read back as the data bits when they are set, and add nothing otherwise |
| Common.ReadParityItems | common.go:188-196 | the parity items read back as the parity when one is sent, and add nothing otherwise |
| Common.ItemsHaveNoComma | common.go:178-199 | no item holds the comma that joins them |
| Common.ReadAllItems | common.go:178-199 | reading all the items yields the settings sent |
| Common.SttyJsonRoundTrip | common.go:176-200 | the hand-written JSON reads back as the settings sent, with an unknown parity dropped; the body is `{}` exactly when nothing is set |
| Common.SttyResult | common.go:207-222 | setting the UART succeeds exactly on a 200 reply with a body, and yields the parsed body; any other status is reported |
| Common.FetchResult | common.go:152-174 | reading the UART succeeds exactly on a reply with a body, whatever its status, and yields the parsed body |
| Common.FetchIgnoresStatus | common.go:161-172 | reading accepts a non-200 reply that setting rejects |
| Common.FetchAgreesOnSuccess | common.go:152-223 | on a 200 reply or a failed request, reading and setting give the same result |
| HttpAuth.ParseParam | utils/httpAuth.go:166-169 | a segment is a parameter exactly when it holds `=` |
| HttpAuth.ParseParamPadded | utils/httpAuth.go:166-170 | a parameter gives as key the text before its first `=` and as value the text after it, each stripped of the quotes and spaces around it |
| HttpAuth.DigestParams | utils/httpAuth.go:158-162 | there are no parameters exactly when the challenge does not start with `Digest` and a space |
| HttpAuth.DigestAuthParams | utils/httpAuth.go:158-173 | the loop builds the challenge's parameter map |
| HttpAuth.FillParams | utils/httpAuth.go:164-172 | the parameter loop builds the map of the segments |
| HttpAuth.ParamSource | utils/httpAuth.go:165-171 | every key in the map comes from a segment that sets it |
| HttpAuth.ParamKept | utils/httpAuth.go:165-171 | every key a segment sets is in the map |
| HttpAuth.LastParamWins | utils/httpAuth.go:170 | when a key is set more than once, the last segment's value is kept |
| HttpAuth.ParamsOfSegments | utils/httpAuth.go:164-172 | a key is in the map exactly when some segment sets it |
| HttpAuth.Int16Inc | utils/httpAuth.go:71 | the nonce count goes up by one and wraps from 32767 to -32768 |
| HttpAuth.NcHex | utils/httpAuth.go:76 | `%08x` of the count is at least eight characters: lower-case hex, or a minus sign followed by hex when negative |
| HttpAuth.NcHexRoundTrip | utils/httpAuth.go:76 | the `nc` field read back as hex, sign included, is the count itself |
| HttpAuth.ChecksumFollowsRfc | utils/httpAuth.go:34-67 | MD5 sets HA1 = H(user:realm:password); MD5-sess hashes that with the nonce and cnonce; both set HA2 = H(method:path); other algorithms change nothing |
| HttpAuth.OpaqueClause | utils/httpAuth.go:80-82 | the opaque clause is appended exactly when the server sent one |
| HttpAuth.AppliedResponseIsRequestDigest | utils/httpAuth.go:70-84 | the header's response is the request digest in RFC 2617's qop form, KD(HA1, nonce:nc:cnonce:qop:HA2), over the updated state; the code uses this form for every challenge |
| HttpAuth.AppliedState | utils/httpAuth.go:71-75 | applying the header advances the count and records the cnonce, method and path, and nothing else but the checksums |
| HttpAuth.FirstNonceCount | utils/httpAuth.go:134 | the first request carries the count `00000001` |
| HttpAuth.DigestHeaders.constructor | utils/httpAuth.go:122-137 | the digest state is filled from the challenge and the credentials |
| HttpAuth.DigestHeaders.DigestChecksum | utils/httpAuth.go:34-67 | the method updates the state to its checksum |
| HttpAuth.DigestHeaders.ApplyAuth | utils/httpAuth.go:70-84 | the method updates the state and returns the header as the applied step says |
| HttpAuth.InitialDigest | utils/httpAuth.go:122-134 | the count starts at 0; the algorithm is never empty, and it is MD5 exactly when the challenge names none or MD5 |
| HttpAuth.FinishIntended | utils/httpAuth.go:109-114 | corrected, a failed retry is reported as a transport error and never dereferenced |
| HttpAuth.DecideWithoutRetry | utils/httpAuth.go:87-97 | a non-401 reply passes through; a 401 without credentials or without a password is rejected and not retried |
| HttpAuth.DecideScheme | utils/httpAuth.go:100-145 | a Basic challenge is retried; a Digest challenge is retried exactly when it parses, and with only an `Authorization` header added |
| HttpAuth.BasicRetryCarriesNoCredentials | utils/httpAuth.go:101-108 | the Basic retry is the original request, unchanged |
| HttpAuth.BasicRetryIntendedCarriesCredentials | utils/httpAuth.go:102-104 | corrected, the Basic retry carries the credentials and nothing else changes |
| HttpAuth.FinishOutcomes | utils/httpAuth.go:109-114 | a failed retry dereferences a missing reply; a reply passes exactly when its status is below 400 |
| HttpAuth.EnsureAuth | utils/httpAuth.go:86-151 | it sends at most the one retry the decision calls for, and reports the decision's result or the retry's outcome |
| TtycMain.FirstBroken | cmd/ttyc/main.go:29-57 | no error exactly when every rule holds; otherwise the error of a rule that fails |
| TtycMain.ValidateIsFirstBroken | cmd/ttyc/main.go:29-57 | validation reports the first rule that fails, in the code's order |
| TtycMain.ValidateAcceptsExactly | cmd/ttyc/main.go:29-57 | a configuration is accepted exactly when every rule holds, and a rejection names a failing rule |
| TtycMain.NextBackoff | cmd/ttyc/main.go:117-126 | the next wait panics exactly for an unknown backoff |
| TtycMain.ConstantWaits | cmd/ttyc/main.go:118-119 | with no backoff every wait is the reconnect interval |
| TtycMain.LinearWaits | cmd/ttyc/main.go:120-121 | with linear backoff the n-th wait is the interval plus n steps |
| TtycMain.ExponentialWaits | cmd/ttyc/main.go:122-123 | with exponential backoff the n-th wait is the interval times the factor to the n |
| TtycMain.UnknownBackoffPanics | cmd/ttyc/main.go:125 | an unknown backoff allows the first wait and panics on the next |
| TtycMain.Slept | cmd/ttyc/main.go:225-230 | a wait that is not positive sleeps not at all; a positive one sleeps that long |
| TtycMain.ScheduleExtends | cmd/ttyc/main.go:224-231 | one more round of the loop extends the sleeps by the next wait on the schedule |
| TtycMain.Supervisor.constructor | cmd/ttyc/main.go:199 | the wait starts at the reconnect interval, with no advances |
| TtycMain.Supervisor.Reconnect | cmd/ttyc/main.go:224-243 | the loop sleeps on the schedule and ends at the first attempt that succeeds; an unknown backoff panics after the first sleep |
| TtycMain.Supervisor.OnServerError | cmd/ttyc/main.go:208-251 | a server error exits when disconnect handling fails or reconnect is negative; otherwise it resumes exactly when an attempt succeeds and reconnection handling does not fail |
| TtycMain.TwoDisconnects | cmd/ttyc/main.go:199-231 | the backoff is not reset after a reconnect: a second disconnect starts from the wait the first one reached |
| TtycMain.HttpTimeout | cmd/ttyc/main.go:158 | the HTTP timeout is the reconnect interval clamped to between 2 and 5 seconds |
| TtycMain.Requested | cmd/ttyc/main.go:67-86 | exactly the positive or non-empty settings are requested, with the data and stop bits truncated to a byte |
| TtycMain.BuildStty | cmd/ttyc/main.go:61-86 | the method builds the requested settings and counts them, with zero exactly when none is set |
| TtycMain.ValidateChecksSerial | cmd/ttyc/main.go:45-56 | an accepted configuration has valid serial settings |
| TtycMain.ValidatedSettingsArrive | cmd/ttyc/main.go:67-91 | valid settings sent as JSON read back unchanged |
| TtycMain.SetTerminal | cmd/ttyc/main.go:60-97 | a body is posted exactly when some setting is given; it is the JSON of those settings, and the error follows the server's answer |
| TtycMain.HandshakeAndSetTerminal | cmd/ttyc/main.go:99-115 | as written, it fails only when the handshake fails, and the settings are posted exactly to a Wi-Se server that has settings to apply |
| TtycMain.HandshakeAndSetTerminalIntended | cmd/ttyc/main.go:109-113 | corrected, a rejected `stty` on a Wi-Se server also fails the handshake |
| TtycMain.SwallowedSttyError | cmd/ttyc/main.go:110-112 | a failing `stty` is lost as written and reported when corrected |
| Wistty.SameRulesAsTtyc | cmd/wistty/main.go:30-54 | `wistty` applies the same rules as `ttyc`, in the same order, without the terminal and backoff checks |
| Wistty.ValidateAcceptsExactly | cmd/wistty/main.go:30-54 | a configuration is accepted exactly when the credentials are paired, the scheme is http or https, and the serial settings are valid |
| Wistty.Stty | cmd/wistty/main.go:56-90 | with nothing to set it reads the UART; otherwise it posts the requested settings, and the result follows that call |
| Wistty.ParityChar | cmd/wistty/main.go:132-139 | the parity letter is `n`, `e` or `o` exactly for none, even or odd, and never a digit |
| Wistty.ParsedParityChar | cmd/wistty/main.go:132-139 | the letter printed for a reply follows its wire parity: none, 0 or other |
| Wistty.Summary | cmd/wistty/main.go:140 | the summary exists exactly when the baud rate, data bits and stop bits are known |
| Wistty.ParsedHasSummary | cmd/wistty/main.go:140 | a parsed reply always has a summary |
| Wistty.DigitRun | cmd/wistty/main.go:140 | the leading digits stop at the first non-digit |
| Wistty.DigitRunStopsAt | cmd/wistty/main.go:140 | the digits before a letter are exactly the leading run |
| Wistty.SummaryReadsBack | cmd/wistty/main.go:140 | the printed line `baud bitsPstop` reads back as the baud rate, data bits, parity letter and stop bits |
| Switzerland.SwapRemove | utils/switzerland/switzerland_windows.go:82-85 | removing by swap drops one element and moves the last into its place, and the rest stay put |
| Switzerland.SwapRemoveMultiset | utils/switzerland/switzerland_windows.go:82-85 | removal by swap drops exactly the one element |
| Switzerland.SwapRemoveDistinct | utils/switzerland/switzerland_windows.go:82-85 | a list without duplicates stays without duplicates |
| Switzerland.SwapRemoveDrops | utils/switzerland/switzerland_windows.go:82-85 | the removed listener is gone |
| Switzerland.SwapRemoveKeeps | utils/switzerland/switzerland_windows.go:82-85 | every other listener stays |
| Switzerland.Registry.constructor | utils/switzerland/switzerland_windows.go:18-22 | the registry starts with no listeners and no worker |
| Switzerland.Registry.Notify | utils/switzerland/switzerland_windows.go:58-76 | a listener is added once, and a worker is started exactly when none is running |
| Switzerland.Registry.Stop | utils/switzerland/switzerland_windows.go:78-90 | the listener is removed by swap if present, and the list is otherwise unchanged |
| Switzerland.Registry.RemoveAt | utils/switzerland/switzerland_windows.go:82-85 | removing at a position is the swap removal and keeps the listeners distinct |
| Switzerland.Registry.StartWorker | utils/switzerland/switzerland_windows.go:25-33 | the worker records the console size and marks itself running |
| Switzerland.Registry.Tick | utils/switzerland/switzerland_windows.go:35-54 | one poll stops the worker exactly when there are no listeners; otherwise every listener is signalled exactly when the size changed |
| Switzerland.Registry.Watch | utils/switzerland/switzerland_windows.go:35-55 | across samples, each round signals exactly when the size differs from the one before, and the last size is kept |

## Left out

- Concurrency is left out: goroutines, channels, `select` and the registry's mutex. Each
  loop is modelled one step at a time, with the event it waits for given as a parameter.
- WebSocket and HTTP I/O, `url.Parse` and JSON decoding are left out. Dial and write
  results, server replies and parsed JSON bodies are parameters.
- `path.Join`'s cleaning of `.` and `..` is left out. `Common.JoinPath` models only the
  slash that joins the two parts.
- MD5 is left out. The hash `H` is a parameter, and the random cnonce is a parameter.
- The clock is left out. The watchdog and the reconnect loop take times and outcomes as
  parameters. The timestamp text that strftime prints is a parameter.
- The console is left out: raw mode, `isatty`, printing and logging. The terminal check in
  `Validate` is a flag of the configuration.
- The Go `time.Duration` (int64 nanoseconds) overflow of exponential backoff is left out.
  Waits are unbounded integers.
- The `uint` conversion of a negative baud rate is left out. `Requested` is only reached
  with positive values.
- The APIs that `cmd/ttyc/main.go` and `cmd/ttyc/handlers/stdfds.go` call but
  `ws/protocol.go` lacks are left out: a three-argument `DialAndAuth`, a one-argument
  `Redial`, `SendBreak`, `RequestBaudrateDetection`, `BaseUrl` and `DetectedBaudrate`.
  `Protocol` models the client API as `ws/protocol.go` defines it.
- Quit's session-ending error is left out: `ctrl-t q` sends the error "quitting" on the
  handler's error channel (`cmd/ttyc/handlers/stdfds.go:210-212`), which is channel
  plumbing. `StdFds.CommandEffect` treats quit as changing no mode and yielding no bytes.
- The key commands that only print, or only call the server, are left out: config, baud
  detection (`B`), break, clear, help (`?`), stats and version. `StdFds.CommandEffect`
  treats them as changing no mode; the help listing they print is modelled by
  `KeyCommands.HelpKeys` and `KeyCommands.HelpLine`.
- The handler-error branch of the reconnect loop (`cmd/ttyc/main.go:202-207`) is left out:
  it restores the terminal, prints the error and ends the program, without touching the
  backoff. `TtycMain.Supervisor.OnServerError` models only the server-error branch.
- Text.ToLower: only ASCII capitals are lower-cased, while Go's `strings.ToLower` is
  Unicode-aware. `Common.DetectServer` and `HttpAuth.IsBasic` therefore differ from the
  source on headers with non-ASCII capitals (a `Server` header "Wİ-SE" with U+0130 is
  Wi-Se for the source but not for the model).
- The choice of credentials in `wistty` (`cmd/wistty/main.go:111-117`) is left out: the
  options' user wins over the URL's. The credentials are only handed to the authenticated
  request, and `Wistty.Stty` takes that request's reply as a parameter.
- Two goroutines racing to start the resize worker in `Switzerland.Registry.Notify` are
  left out. The model returns whether a worker would be started.
- `utils/copier.go`, the pty handlers and the platform console shims are not part of this
  model.
- KeyCommands.Replacement: its own contract states only that the replacement is empty or
  the escape byte. Which key yields it is stated by `KeyCommands.ReplacementOnlyForCtrlT`.
- TtycMain.NextBackoff: its own contract states only when it panics. The waits it yields
  are stated by `ConstantWaits`, `LinearWaits` and `ExponentialWaits`.
- HttpAuth.DigestParams: its own contract states only when the challenge is refused. The
  map's contents are stated by `ParamsOfSegments` and `LastParamWins`.
- Protocol.ResizeFrame: its own contract states only the frame's tag. Its body is stated by
  `ResizeFrameRoundTrip`.
- HttpAuth.AppliedResponseIsRequestDigest: the digest is always built in RFC 2617's qop
  form (section 3.2.2.1), because the code does so. A challenge without `qop` still gets
  `H(HA1:nonce:nc:cnonce::HA2)` and an empty `qop=`, where RFC 2617 defines
  `KD(H(A1), nonce:H(A2))`; an `auth-int` or listed qop is sent verbatim and the body is
  never hashed into A2. The model states the code's form, not the RFC's other forms.
- HttpAuth.EnsureAuth: three outcomes of the HTTP library are left out. The error of
  `http.NewRequest` (`utils/httpAuth.go:104-107`, `utils/httpAuth.go:139-142`) is not
  modelled. Neither is a `client.Do` that returns a response together with an error (a
  redirect-policy failure). The replayed request body is not carried by `Request`.
- The JSON output branch of `wistty` (`cmd/wistty/main.go:125-130`) is left out: it
  prints the settings with `encoding/json`. Only the summary line is modelled.

## Findings

| source | as written | input that shows it | evidently intended | confidence | as-written member | corrected member |
|---|---|---|---|---|---|---|
| cmd/ttyc/handlers/stdfds.go:154-159 | a mid-chunk escape dispatches `input[escapePos]`, which is the escape byte itself, then drops it and the key after it | one chunk `ctrl-t t` sends nothing, while the same keys in two chunks send the escape byte | dispatch `input[escapePos+1]` | high, not executed | StdFds.MidChunkEscapeDropsTwo, StdFds.SplitChangesOutcome | StdFds.IntendedMidChunk, StdFds.IntendedSplitAgrees |
| cmd/ttyc/handlers/stdfds.go:139-143 | after a pending command, the escape position moves by `1 - len(replacement)`, which is the wrong direction | with a command pending, the chunk `x ctrl-t` indexes past the end and panics | look for the first escape after the consumed command byte and shift its position by `len(replacement)` | high, not executed | StdFds.PendingThenEscapePanicExample, StdFds.PendingThenLateEscapePanics | StdFds.HandlePendingIntended, StdFds.IntendedNeverPanics |
| utils/httpAuth.go:102-104 | the credentials go into a copy of the URL that is never used, so the Basic retry has none | any 401 reply with a `Basic` challenge | the retry carries the user's credentials | high, not executed | HttpAuth.BasicRetryCarriesNoCredentials | HttpAuth.BasicRetryIntendedCarriesCredentials |
| utils/httpAuth.go:109-111 | `outResp.StatusCode` is read even when `client.Do` failed and `outResp` is nil | a retry whose request fails in transport | report the transport error | high, not executed | HttpAuth.FinishOutcomes | HttpAuth.FinishIntended |
| cmd/ttyc/main.go:110-112 | `err :=` declares a new variable, so the `stty` error never reaches the named result | a Wi-Se server that rejects the settings | report the error to the caller | high, not executed | TtycMain.SwallowedSttyError, TtycMain.HandshakeAndSetTerminal | TtycMain.HandshakeAndSetTerminalIntended |
