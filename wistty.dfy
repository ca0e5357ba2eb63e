/**
 * The `wistty` command: it checks its options, then either fetches the serial settings of a
 * Wi-Se server (no setting given) or posts the new ones, and prints what the server reports
 * as a one-line summary such as "115200 8n1".
 */
module Wistty {
  import opened Wrappers
  import opened Text
  import opened Common
  import TtycMain

  /** The options that matter here; `scheme` is None when the URL does not parse. */
  datatype Config = Config(
    user: string, pass: string, scheme: Option<string>,
    baud: int, parity: string, databits: int, stopbits: int)
  {
    function Serial(): TtycMain.SerialOptions {
      TtycMain.SerialOptions(baud, parity, databits, stopbits)
    }
  }

  /** `Validate`: the first rule that fails, in the order the Go code checks them. */
  function Validate(cfg: Config): Option<TtycMain.ConfigError>
  {
    if !(cfg.user != "" && cfg.pass != "") && !(cfg.user == "" && cfg.pass == "") then Some(TtycMain.CredentialsMismatch)
    else if cfg.scheme.None? then Some(TtycMain.InvalidUrl)
    else if cfg.scheme.value != "http" && cfg.scheme.value != "https" then Some(TtycMain.NotHttp)
    else if cfg.baud != -1 && cfg.baud <= 0 then Some(TtycMain.InvalidBaud)
    else if !(cfg.parity == "even" || cfg.parity == "odd" || cfg.parity == "none" || cfg.parity == "") then Some(TtycMain.InvalidParity)
    else if !(cfg.databits == -1 || (cfg.databits >= 5 && cfg.databits <= 8)) then Some(TtycMain.InvalidDatabits)
    else if !(cfg.stopbits == -1 || cfg.stopbits == 1 || cfg.stopbits == 2) then Some(TtycMain.InvalidStopbits)
    else None
  }

  /** The `ttyc` options with the same credentials, URL and serial settings, a terminal
   *  and a known backoff: the two rules `wistty` has no counterpart for hold there. */
  function AsTtyc(cfg: Config): TtycMain.Config {
    TtycMain.Config(cfg.user, cfg.pass, cfg.scheme, "", true, 2, 2, "none", 2,
                    cfg.baud, cfg.parity, cfg.databits, cfg.stopbits)
  }

  /** `wistty` applies the same rules as `ttyc`, in the same order, and reports the same error. */
  lemma SameRulesAsTtyc(cfg: Config)
    ensures Validate(cfg) == TtycMain.Validate(AsTtyc(cfg))
    ensures Validate(cfg).None? ==> TtycMain.SerialValid(cfg.Serial())
  {
  }

  /** It accepts exactly paired credentials, an http(s) URL and valid serial options. */
  lemma ValidateAcceptsExactly(cfg: Config)
    ensures Validate(cfg).None? <==>
      (cfg.user == "") == (cfg.pass == "")
      && cfg.scheme.Some? && (cfg.scheme.value == "http" || cfg.scheme.value == "https")
      && TtycMain.SerialValid(cfg.Serial())
  {
  }

  /** The request `stty` makes. */
  datatype SttyCall = Fetch | Post(body: string)

  /** `stty`: with no setting given the current settings are fetched with a GET, otherwise
   *  the requested ones are posted; the reply is read the way each request reads it. */
  method Stty(cfg: Config, reply: SttyReply) returns (call: SttyCall, result: SttyOutcome)
    ensures call == Fetch <==> !TtycMain.AnySetting(cfg.Serial())
    ensures call.Post? ==> call.body == SttyJson(TtycMain.Requested(cfg.Serial()))
    ensures call == Fetch ==> result == FetchResult(reply)
    ensures call.Post? ==> result == SttyResult(reply)
  {
    var dto, paramsToUpdate := TtycMain.BuildStty(cfg.Serial());
    if paramsToUpdate == 0 {
      return Fetch, FetchResult(reply);
    }
    var body := SttyBody(dto);
    return Post(body), SttyResult(reply);
  }

  // ---------------------------------------------------------------------------------------
  // The summary line

  /** The parity letter: 'n' when the server reports none, 'e' and 'o' for even and odd;
   *  any other text leaves Go's zero rune. */
  function ParityChar(parity: Option<string>): (c: char)
    ensures c == 'n' <==> parity.None?
    ensures c == 'e' <==> parity == Some("even")
    ensures c == 'o' <==> parity == Some("odd")
    ensures !IsDigit(c)
  {
    if parity.None? then 'n'
    else if parity.value == "even" then 'e'
    else if parity.value == "odd" then 'o'
    else 0 as char
  }

  /** Settings read from a server always get a letter: null is 'n', 0 is 'e', else 'o'. */
  lemma ParsedParityChar(reply: SttyIn)
    ensures ParityChar(ParseStty(reply).parity) ==
      if reply.parity.None? then 'n' else if reply.parity.value == 0 then 'e' else 'o'
  {
  }

  /** The summary line "<baud> <bits><parity><stop>"; None where a missing field would be
   *  dereferenced (a panic). */
  function Summary(dto: SttyDto): (r: Option<string>)
    ensures r.Some? <==> dto.baudrate.Some? && dto.databits.Some? && dto.stopbits.Some?
  {
    if dto.baudrate.None? || dto.databits.None? || dto.stopbits.None? then None
    else Some(NatToDecimal(dto.baudrate.value) + " " + SerialFrame(dto) + "\n")
  }

  /** The "<bits><parity><stop>" part of the summary. */
  function SerialFrame(dto: SttyDto): string
    requires dto.databits.Some? && dto.stopbits.Some?
  {
    NatToDecimal(dto.databits.value) + [ParityChar(dto.parity)] + NatToDecimal(dto.stopbits.value)
  }

  /** Settings read from a server always have every field the summary needs. */
  lemma ParsedHasSummary(reply: SttyIn)
    ensures Summary(ParseStty(reply)).Some?
  {
  }

  /** How many leading characters of `s` are decimal digits. */
  function DigitRun(s: string): (n: nat)
    ensures n <= |s| && AllDigits(s[..n])
    ensures n < |s| ==> !IsDigit(s[n])
  {
    if s == [] || !IsDigit(s[0]) then 0
    else
      var n := DigitRun(s[1..]);
      assert s[..n + 1] == [s[0]] + s[1..][..n];
      n + 1
  }

  lemma {:induction false} DigitRunStopsAt(digits: string, c: char, tail: string)
    requires AllDigits(digits) && !IsDigit(c)
    ensures DigitRun(digits + [c] + tail) == |digits|
  {
    if digits != [] {
      assert (digits + [c] + tail)[1..] == digits[1..] + [c] + tail;
      DigitRunStopsAt(digits[1..], c, tail);
    }
  }

  /** A reader for the summary line: baud rate, data bits, parity letter and stop bits. */
  function ReadSummary(line: string): Option<(int, int, char, int)>
  {
    if line == [] || line[|line| - 1] != '\n' then None
    else match Cut(line[..|line| - 1], ' ')
      case None => None
      case Some((baud, frame)) =>
        var n := DigitRun(frame);
        if n == |frame| then None
        else match (ParseDecimal(baud), ParseDecimal(frame[..n]), ParseDecimal(frame[n + 1..]))
          case (Some(b), Some(d), Some(s)) => Some((b, d, frame[n], s))
          case _ => None
  }

  lemma SpaceNotInDigits(s: string)
    requires AllDigits(s)
    ensures ' ' !in s
  {
  }

  /** The summary reads back as the reported settings and their parity letter. */
  lemma SummaryReadsBack(dto: SttyDto)
    requires dto.baudrate.Some? && dto.databits.Some? && dto.stopbits.Some?
    ensures ReadSummary(Summary(dto).value) ==
      Some((dto.baudrate.value, dto.databits.value as int, ParityChar(dto.parity), dto.stopbits.value as int))
  {
    var baud := NatToDecimal(dto.baudrate.value);
    var bits := NatToDecimal(dto.databits.value);
    var stop := NatToDecimal(dto.stopbits.value);
    var c := ParityChar(dto.parity);
    var frame := SerialFrame(dto);
    var line := Summary(dto).value;
    assert Cut(line[..|line| - 1], ' ') == Some((baud, frame)) by {
      assert line[..|line| - 1] == baud + [' '] + frame;
      SpaceNotInDigits(baud);
      CutAtFirst(baud, ' ', frame);
    }
    FrameParts(bits, c, stop);
    DecimalRoundTrip(dto.baudrate.value);
    DecimalRoundTrip(dto.databits.value as int);
    DecimalRoundTrip(dto.stopbits.value as int);
  }

  /** The frame splits back at its first non-digit into the data bits, the parity letter and
   *  the stop bits. */
  lemma FrameParts(bits: string, c: char, stop: string)
    requires AllDigits(bits) && !IsDigit(c)
    ensures DigitRun(bits + [c] + stop) == |bits|
    ensures (bits + [c] + stop)[..|bits|] == bits && (bits + [c] + stop)[|bits|] == c
    ensures (bits + [c] + stop)[|bits| + 1..] == stop
  {
    DigitRunStopsAt(bits, c, stop);
  }
}
