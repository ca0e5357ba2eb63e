/**
 * The byte-stream transforms of the console handler: the hexadecimal view of server output,
 * the local-echo filter over keystrokes, the timestamps inserted after line breaks, and the
 * choice of message shown for a baud-rate detection result.
 */
module OutputTransforms {
  import opened Text
  import opened Wrappers

  const LineFeed: byte := '\n' as int
  const CarriageReturn: byte := '\r' as int
  const Space: byte := ' ' as int

  // ---------------------------------------------------------------------------------------
  // Hexadecimal mode (`bufferToHex`)

  predicate IsLineBreak(b: byte) {
    b == LineFeed || b == CarriageReturn
  }

  /** The ASCII code of a lower-case hexadecimal digit. */
  function HexDigitByte(d: nat): (c: byte)
    requires d < 16
    ensures c == HexDigitChar(d) as int
  {
    if d < 10 then '0' as int + d else 'a' as int + (d - 10)
  }

  /** What one input byte becomes: line breaks stay, any other byte is `%02x ` of it. */
  function HexCell(b: byte): (r: seq<byte>)
  {
    if IsLineBreak(b) then [b] else [HexDigitByte(b / 16), HexDigitByte(b % 16), Space]
  }

  /** The hexadecimal view of a buffer, cell after cell. */
  function HexDump(s: seq<byte>): seq<byte>
  {
    if s == [] then [] else HexCell(s[0]) + HexDump(s[1..])
  }

  lemma {:induction false} HexDumpAppend(a: seq<byte>, b: seq<byte>)
    ensures HexDump(a + b) == HexDump(a) + HexDump(b)
  {
    if a != [] {
      assert (a + b)[0] == a[0];
      assert (a + b)[1..] == a[1..] + b;
      assert HexDump(a + b) == HexCell(a[0]) + HexDump(a[1..] + b);
      HexDumpAppend(a[1..], b);
    } else {
      assert a + b == b;
    }
  }

  /** `bufferToHex`: the output buffer is built by appending one cell per input byte. */
  method BufferToHex(inBuf: seq<byte>) returns (outBuf: seq<byte>)
    ensures outBuf == HexDump(inBuf)
  {
    outBuf := [];
    for i := 0 to |inBuf|
      invariant outBuf == HexDump(inBuf[..i])
    {
      var value := inBuf[i];
      if value == LineFeed || value == CarriageReturn {
        outBuf := outBuf + [value];
      } else {
        outBuf := outBuf + [HexDigitByte(value / 16), HexDigitByte(value % 16), Space];
      }
      assert inBuf[..i + 1] == inBuf[..i] + [value];
      HexDumpAppend(inBuf[..i], [value]);
    }
    assert inBuf[..|inBuf|] == inBuf;
  }

  function LineBreakCount(s: seq<byte>): (n: nat)
    ensures n <= |s|
  {
    if s == [] then 0 else (if IsLineBreak(s[0]) then 1 else 0) + LineBreakCount(s[1..])
  }

  /** The view grows by exactly two characters for every byte that is not a line break. */
  lemma {:induction false} HexDumpLength(s: seq<byte>)
    ensures |HexDump(s)| == LineBreakCount(s) + 3 * (|s| - LineBreakCount(s))
  {
    if s != [] {
      HexDumpLength(s[1..]);
    }
  }

  /** The value of a lower-case hexadecimal digit, if the byte is one (`Text.HexCharValue`
   *  on its character). */
  function HexDigitValue(c: byte): (r: int)
    ensures -1 <= r < 16
    ensures r >= 0 ==> HexDigitByte(r) == c
  {
    HexCharValue(c as char)
  }

  /** Reads one cell at the start of a hexadecimal view: the byte it shows and its width. */
  function HexCellAt(t: seq<byte>): (r: Option<(byte, nat)>)
    ensures r.Some? ==> 1 <= r.value.1 <= |t|
  {
    if t == [] then None
    else if IsLineBreak(t[0]) then Some((t[0], 1))
    else if |t| < 3 || t[2] != Space then None
    else
      var hi, lo := HexDigitValue(t[0]), HexDigitValue(t[1]);
      if hi < 0 || lo < 0 then None else Some((hi * 16 + lo, 3))
  }

  /** Reads a hexadecimal view back into the bytes it shows. */
  function HexUndump(t: seq<byte>): (r: Option<seq<byte>>)
    decreases |t|
  {
    if t == [] then Some([])
    else
      match HexCellAt(t)
      case None => None
      case Some((b, width)) =>
        match HexUndump(t[width..])
        case None => None
        case Some(rest) => Some([b] + rest)
  }

  lemma HexDigitRoundTrip(d: nat)
    requires d < 16
    ensures HexDigitValue(HexDigitByte(d)) == d
    ensures !IsLineBreak(HexDigitByte(d))
  {
  }

  lemma HexDigitsAt(hi: nat, lo: nat, rest: seq<byte>)
    requires hi < 16 && lo < 16
    ensures HexCellAt([HexDigitByte(hi), HexDigitByte(lo), Space] + rest) == Some((hi * 16 + lo, 3))
  {
    var t := [HexDigitByte(hi), HexDigitByte(lo), Space] + rest;
    HexDigitRoundTrip(hi);
    HexDigitRoundTrip(lo);
    assert t[0] == HexDigitByte(hi) && t[1] == HexDigitByte(lo) && t[2] == Space;
  }

  lemma HexCellRoundTrip(b: byte, rest: seq<byte>)
    ensures HexCellAt(HexCell(b) + rest) == Some((b, |HexCell(b)|))
  {
    var t := HexCell(b) + rest;
    if !IsLineBreak(b) {
      var hi, lo := b / 16, b % 16;
      HexDigitsAt(hi, lo, rest);
    } else {
      assert t[0] == b;
    }
  }

  /** The hexadecimal view loses nothing: every buffer can be read back from it. */
  lemma {:induction false} HexDumpRoundTrip(s: seq<byte>)
    ensures HexUndump(HexDump(s)) == Some(s)
  {
    if s != [] {
      var b := s[0];
      HexDumpRoundTrip(s[1..]);
      var t := HexDump(s);
      assert t == HexCell(b) + HexDump(s[1..]);
      HexCellRoundTrip(b, HexDump(s[1..]));
      assert t[|HexCell(b)|..] == HexDump(s[1..]);
      assert s == [b] + s[1..];
    }
  }

  // ---------------------------------------------------------------------------------------
  // Local echo

  /** The bytes local echo writes back to the terminal: printable ASCII and line breaks. */
  predicate Printable(b: byte) {
    (32 <= b <= 126) || b == CarriageReturn || b == LineFeed
  }

  function Echo(s: seq<byte>): seq<byte>
  {
    if s == [] then [] else (if Printable(s[0]) then [s[0]] else []) + Echo(s[1..])
  }

  lemma {:induction false} EchoAppend(a: seq<byte>, b: seq<byte>)
    ensures Echo(a + b) == Echo(a) + Echo(b)
  {
    if a != [] {
      assert (a + b)[0] == a[0];
      assert (a + b)[1..] == a[1..] + b;
      assert Echo(a + b) == (if Printable(a[0]) then [a[0]] else []) + Echo(a[1..] + b);
      EchoAppend(a[1..], b);
    } else {
      assert a + b == b;
    }
  }

  /** The echo loop of `handleStdin`: one write per printable byte, in input order. */
  method EchoPrintable(input: seq<byte>) returns (echoed: seq<byte>)
    ensures echoed == Echo(input)
  {
    echoed := [];
    for i := 0 to |input|
      invariant echoed == Echo(input[..i])
    {
      var key := input[i];
      if (key >= 32 && key <= 126) || key == CarriageReturn || key == LineFeed {
        echoed := echoed + [key];
      }
      assert input[..i + 1] == input[..i] + [key];
      EchoAppend(input[..i], [key]);
    }
    assert input[..|input|] == input;
  }

  /** Echo keeps exactly the printable bytes: everything it writes is printable, and it drops
   *  nothing from a buffer that is printable throughout. */
  lemma {:induction false} EchoKeepsPrintable(s: seq<byte>)
    ensures forall i :: 0 <= i < |Echo(s)| ==> Printable(Echo(s)[i])
    ensures |Echo(s)| <= |s|
    ensures Echo(s) == s <==> forall i :: 0 <= i < |s| ==> Printable(s[i])
  {
    if s != [] {
      EchoKeepsPrintable(s[1..]);
      if !Printable(s[0]) {
        assert |Echo(s)| < |s|;
      }
    }
  }

  // ---------------------------------------------------------------------------------------
  // Timestamps (`injectTimestamps`)

  /** `nextIsTimestamp` once the first byte of s is passed: a line feed makes a stamp due;
   *  a due stamp is written (and so cleared) unless that byte is the buffer's last. */
  function NextDue(s: seq<byte>, due: bool): bool
    requires s != []
  {
    s[0] == LineFeed || (due && |s| == 1)
  }

  /** A buffer with its timestamps, walked left to right with `due` as `nextIsTimestamp`:
   *  the stamp goes before a byte when one is due and the byte is not the last. */
  function Stamped(s: seq<byte>, due: bool, stamp: seq<byte>): seq<byte>
  {
    if s == [] then []
    else (if due && |s| != 1 then stamp else []) + [s[0]] + Stamped(s[1..], NextDue(s, due), stamp)
  }

  /** `nextIsTimestamp` after the whole buffer, carried over to the next one. */
  function DueAfter(s: seq<byte>, due: bool): bool
  {
    if s == [] then due else DueAfter(s[1..], NextDue(s, due))
  }

  /** Where stamps go, stated per position without the walk: before the first byte when one
   *  was pending from the previous buffer, before every byte that follows a line feed, but
   *  never before a buffer's last byte. */
  predicate StampAt(s: seq<byte>, pending: bool, j: nat)
    requires j < |s|
  {
    j < |s| - 1 && (if j == 0 then pending else s[j - 1] == LineFeed)
  }

  /** The bytes of s from position j on, each preceded by the stamp where StampAt says. */
  function StampedFrom(s: seq<byte>, pending: bool, stamp: seq<byte>, j: nat): seq<byte>
    requires j <= |s|
    decreases |s| - j
  {
    if j == |s| then []
    else (if StampAt(s, pending, j) then stamp else []) + [s[j]] + StampedFrom(s, pending, stamp, j + 1)
  }

  lemma {:induction false} StampedFromSuffix(s: seq<byte>, pending: bool, stamp: seq<byte>, j: nat)
    requires j <= |s|
    ensures StampedFrom(s, pending, stamp, j) ==
      Stamped(s[j..], if j == 0 then pending else s[j - 1] == LineFeed, stamp)
    decreases |s| - j
  {
    if j < |s| {
      StampedFromSuffix(s, pending, stamp, j + 1);
      var t := s[j..];
      assert t[0] == s[j] && t[1..] == s[j + 1..];
      if j + 1 == |s| {
        assert s[j + 1..] == [];
      }
    }
  }

  /** The walk puts the stamps exactly where StampAt says. */
  lemma StampedPlacement(s: seq<byte>, pending: bool, stamp: seq<byte>)
    ensures Stamped(s, pending, stamp) == StampedFrom(s, pending, stamp, 0)
  {
    StampedFromSuffix(s, pending, stamp, 0);
    assert s[0..] == s;
  }

  /** What is carried to the next buffer: a stamp is pending after a buffer whose last byte
   *  is a line feed, or whose last byte followed a line feed (a stamp is never put before a
   *  last byte), or when the buffer is empty or a single byte and one was already pending. */
  lemma {:induction false} TimestampCarried(s: seq<byte>, due: bool)
    ensures DueAfter(s, due) <==>
      if |s| == 0 then due
      else s[|s| - 1] == LineFeed || (if |s| == 1 then due else s[|s| - 2] == LineFeed)
  {
    if |s| >= 2 {
      TimestampCarried(s[1..], NextDue(s, due));
      assert s[1..][|s| - 2] == s[|s| - 1];
      if |s| > 2 {
        assert s[1..][|s| - 3] == s[|s| - 2];
      }
    } else if |s| == 1 {
      assert DueAfter(s, due) == DueAfter([], NextDue(s, due));
    }
  }

  /** How many stamps the walk writes. */
  function StampCount(s: seq<byte>, due: bool): nat
  {
    if s == [] then 0 else (if due && |s| != 1 then 1 else 0) + StampCount(s[1..], NextDue(s, due))
  }

  /** Timestamps are pure insertions: the output is as long as the input plus the stamps. */
  lemma {:induction false} StampedLength(s: seq<byte>, due: bool, stamp: seq<byte>)
    ensures |Stamped(s, due, stamp)| == |s| + |stamp| * StampCount(s, due)
  {
    if s != [] {
      var k := StampCount(s[1..], NextDue(s, due));
      StampedLength(s[1..], NextDue(s, due), stamp);
      assert |stamp| * (k + 1) == |stamp| * k + |stamp|;
    }
  }

  /** With an empty stamp the output is the input. */
  lemma {:induction false} StampedEmptyStamp(s: seq<byte>, due: bool)
    ensures Stamped(s, due, []) == s
  {
    if s != [] {
      StampedEmptyStamp(s[1..], NextDue(s, due));
      assert s == [s[0]] + s[1..];
    }
  }

  /** A buffer without line feeds, with nothing pending, passes through unchanged and leaves
   *  nothing pending. */
  lemma {:induction false} NoLineFeedNoStamp(s: seq<byte>, stamp: seq<byte>)
    requires LineFeed !in s
    ensures Stamped(s, false, stamp) == s
    ensures !DueAfter(s, false)
  {
    if s != [] {
      assert s[0] != LineFeed;
      assert LineFeed !in s[1..];
      NoLineFeedNoStamp(s[1..], stamp);
      assert s == [s[0]] + s[1..];
    }
  }

  // ---------------------------------------------------------------------------------------
  // Baud-rate detection results

  datatype BaudReport = DetectionFailed | Likely(approx: int) | LikelyMeasured(approx: int, measured: int)

  /** The message chosen for a `[approx, measured]` detection result. */
  function BaudReportFor(approx: int, measured: int): (r: BaudReport)
    ensures r.DetectionFailed? <==> approx <= 0
    ensures r.LikelyMeasured? <==> approx > 0 && measured > 0
    ensures !r.DetectionFailed? ==> r.approx == approx
    ensures r.LikelyMeasured? ==> r.measured == measured
  {
    if approx <= 0 then DetectionFailed
    else if measured > 0 then LikelyMeasured(approx, measured)
    else Likely(approx)
  }
}
