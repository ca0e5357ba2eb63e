/**
 * The `ttyc` command: its argument checks, the serial settings it asks a Wi-Se server for,
 * the HTTP timeout it derives, and the supervisor loop that reconnects with a backoff after
 * the server drops the connection.
 *
 * Durations are whole seconds (every value the loop computes is a whole number of them).
 * The handshake, the WebSocket dial, the terminal handler and the sleeps are outcomes passed
 * in or recorded, not performed.
 */
module TtycMain {
  import opened Wrappers
  import opened Common
  import opened Text

  /** The command-line options that matter here; `scheme` is None when the URL does not parse,
   *  and `stdTerminals` says whether standard input and output are terminals. */
  datatype Config = Config(
    user: string, pass: string, scheme: Option<string>, tty: string, stdTerminals: bool,
    watchdog: int, reconnect: int, backoff: string, backoffValue: nat,
    baud: int, parity: string, databits: int, stopbits: int)
  {
    function Serial(): SerialOptions {
      SerialOptions(baud, parity, databits, stopbits)
    }
  }

  /** The serial-line options both commands share; -1 (or "") leaves a setting alone. */
  datatype SerialOptions = SerialOptions(baud: int, parity: string, databits: int, stopbits: int)

  // ---------------------------------------------------------------------------------------
  // Validation

  datatype ConfigError =
    | CredentialsMismatch | InvalidUrl | NotHttp | NotATerminal | InvalidBackoff
    | InvalidBaud | InvalidParity | InvalidDatabits | InvalidStopbits

  /** `Validate`: the first rule that fails, in the order the Go code checks them. */
  function Validate(cfg: Config): Option<ConfigError>
  {
    if !(cfg.user != "" && cfg.pass != "") && !(cfg.user == "" && cfg.pass == "") then Some(CredentialsMismatch)
    else if cfg.scheme.None? then Some(InvalidUrl)
    else if cfg.scheme.value != "http" && cfg.scheme.value != "https" then Some(NotHttp)
    else if cfg.tty == "" && !cfg.stdTerminals then Some(NotATerminal)
    else if !(cfg.backoff == "none" || cfg.backoff == "linear" || cfg.backoff == "exponential") then Some(InvalidBackoff)
    else if cfg.baud != -1 && cfg.baud <= 0 then Some(InvalidBaud)
    else if !(cfg.parity == "even" || cfg.parity == "odd" || cfg.parity == "none" || cfg.parity == "") then Some(InvalidParity)
    else if !(cfg.databits == -1 || (cfg.databits >= 5 && cfg.databits <= 8)) then Some(InvalidDatabits)
    else if !(cfg.stopbits == -1 || cfg.stopbits == 1 || cfg.stopbits == 2) then Some(InvalidStopbits)
    else None
  }

  /** The rules as a list of (holds, error) pairs, in order. */
  function Rules(cfg: Config): seq<(bool, ConfigError)>
  {
    [ ((cfg.user == "") == (cfg.pass == ""), CredentialsMismatch),
      (cfg.scheme.Some?, InvalidUrl),
      (cfg.scheme.Some? ==> cfg.scheme.value == "http" || cfg.scheme.value == "https", NotHttp),
      (cfg.tty != "" || cfg.stdTerminals, NotATerminal),
      (cfg.backoff == "none" || cfg.backoff == "linear" || cfg.backoff == "exponential", InvalidBackoff),
      (cfg.baud == -1 || cfg.baud > 0, InvalidBaud),
      (cfg.parity == "even" || cfg.parity == "odd" || cfg.parity == "none" || cfg.parity == "", InvalidParity),
      (cfg.databits == -1 || 5 <= cfg.databits <= 8, InvalidDatabits),
      (cfg.stopbits == -1 || cfg.stopbits == 1 || cfg.stopbits == 2, InvalidStopbits) ]
  }

  /** The error of the first rule, from index `from` on, that does not hold. */
  function FirstBroken(rules: seq<(bool, ConfigError)>, from: nat): (r: Option<ConfigError>)
    requires from <= |rules|
    ensures r.None? <==> forall i :: from <= i < |rules| ==> rules[i].0
    ensures r.Some? ==> exists i :: from <= i < |rules| && rules[i] == (false, r.value)
    decreases |rules| - from
  {
    if from == |rules| then None
    else if !rules[from].0 then Some(rules[from].1)
    else FirstBroken(rules, from + 1)
  }

  /** `Validate` reports exactly the first broken rule. */
  lemma ValidateIsFirstBroken(cfg: Config)
    ensures Validate(cfg) == FirstBroken(Rules(cfg), 0)
  {
    var r := Rules(cfg);
    assert FirstBroken(r, 8) == if r[8].0 then None else Some(r[8].1);
    assert FirstBroken(r, 6) == if !r[6].0 then Some(r[6].1) else if !r[7].0 then Some(r[7].1) else FirstBroken(r, 8);
    assert FirstBroken(r, 4) == if !r[4].0 then Some(r[4].1) else if !r[5].0 then Some(r[5].1) else FirstBroken(r, 6);
    assert FirstBroken(r, 2) == if !r[2].0 then Some(r[2].1) else if !r[3].0 then Some(r[3].1) else FirstBroken(r, 4);
  }

  /** So it accepts exactly the configurations that keep every rule, and any error it
   *  reports is that of a rule that is broken. */
  lemma ValidateAcceptsExactly(cfg: Config)
    ensures Validate(cfg).None? <==> forall i :: 0 <= i < |Rules(cfg)| ==> Rules(cfg)[i].0
    ensures Validate(cfg).Some? ==> (false, Validate(cfg).value) in Rules(cfg)
  {
    ValidateIsFirstBroken(cfg);
  }

  // ---------------------------------------------------------------------------------------
  // Backoff

  /** `nextBackoff`; `None` where the Go code panics on an unknown kind. */
  function NextBackoff(cur: int, cfg: Config): (r: Option<int>)
    ensures r.None? <==> cfg.backoff !in {"none", "linear", "exponential"}
  {
    if cfg.backoff == "none" then Some(cfg.reconnect)
    else if cfg.backoff == "linear" then Some(cur + cfg.backoffValue)
    else if cfg.backoff == "exponential" then Some(cur * cfg.backoffValue)
    else None
  }

  /** The wait before the n-th reconnection attempt of the whole run: the option's value
   *  first, then each wait advanced from the one before. */
  function WaitAt(cfg: Config, n: nat): Option<int>
  {
    if n == 0 then Some(cfg.reconnect)
    else match WaitAt(cfg, n - 1)
      case None => None
      case Some(w) => NextBackoff(w, cfg)
  }

  function Pow(f: int, n: nat): int {
    if n == 0 then 1 else f * Pow(f, n - 1)
  }

  /** With no backoff every wait is the reconnect interval. */
  lemma {:induction false} ConstantWaits(cfg: Config, n: nat)
    requires cfg.backoff == "none"
    ensures WaitAt(cfg, n) == Some(cfg.reconnect)
  {
    if n > 0 {
      ConstantWaits(cfg, n - 1);
    }
  }

  /** Linear backoff waits I, I+K, I+2K, … */
  lemma {:induction false} LinearWaits(cfg: Config, n: nat)
    requires cfg.backoff == "linear"
    ensures WaitAt(cfg, n) == Some(cfg.reconnect + n * cfg.backoffValue)
  {
    if n > 0 {
      LinearWaits(cfg, n - 1);
    }
  }

  /** Exponential backoff waits I, I·F, I·F², … */
  lemma {:induction false} ExponentialWaits(cfg: Config, n: nat)
    requires cfg.backoff == "exponential"
    ensures WaitAt(cfg, n) == Some(cfg.reconnect * Pow(cfg.backoffValue, n))
  {
    if n > 0 {
      ExponentialWaits(cfg, n - 1);
      calc {
        cfg.reconnect * Pow(cfg.backoffValue, n - 1) * cfg.backoffValue;
        cfg.reconnect * (Pow(cfg.backoffValue, n - 1) * cfg.backoffValue);
        cfg.reconnect * Pow(cfg.backoffValue, n);
      }
    }
  }

  /** An unknown kind gets past the first wait and then panics. */
  lemma {:induction false} UnknownBackoffPanics(cfg: Config, n: nat)
    requires cfg.backoff !in {"none", "linear", "exponential"}
    ensures (WaitAt(cfg, n) == None) <==> n > 0
  {
    if n > 1 {
      UnknownBackoffPanics(cfg, n - 1);
    }
  }

  /** The seconds actually slept for a wait: none for a wait of zero or less. */
  function Slept(wait: int): (s: nat)
    ensures s == 0 <==> wait <= 0
    ensures wait > 0 ==> s == wait
  {
    if wait <= 0 then 0 else wait
  }

  /** The k-th sleep is for the wait of the (from + k)-th attempt of the run. */
  ghost predicate SleptOnSchedule(cfg: Config, from: nat, sleeps: seq<nat>)
  {
    forall k :: 0 <= k < |sleeps| ==> SleepAt(cfg, from + k) == Some(sleeps[k])
  }

  /** The sleep before the n-th attempt of the run, if it gets that far. */
  function SleepAt(cfg: Config, n: nat): Option<nat>
  {
    match WaitAt(cfg, n)
    case None => None
    case Some(w) => Some(Slept(w))
  }

  lemma ScheduleExtends(cfg: Config, from: nat, sleeps: seq<nat>, w: int)
    requires SleptOnSchedule(cfg, from, sleeps) && WaitAt(cfg, from + |sleeps|) == Some(w)
    ensures SleptOnSchedule(cfg, from, sleeps + [Slept(w)])
  {
    var ext := sleeps + [Slept(w)];
    forall k | 0 <= k < |ext|
      ensures SleepAt(cfg, from + k) == Some(ext[k])
    {
      if k < |sleeps| {
        assert ext[k] == sleeps[k];
      } else {
        assert k == |sleeps| && ext[k] == Slept(w);
      }
    }
  }

  // ---------------------------------------------------------------------------------------
  // The supervisor loop

  datatype RetryOutcome = Reconnected | StillRetrying | Panicked

  datatype ErrorOutcome = Exited | Resumed | Retrying | Crashed

  /** The part of `main` after the client is running: the interval lives across disconnects. */
  class Supervisor {
    const cfg: Config
    var reconnect: int
    /** How many times the interval has been advanced since start. */
    ghost var advances: nat

    ghost predicate Valid()
      reads this
    {
      WaitAt(cfg, advances) == Some(reconnect)
    }

    /** The interval starts as the reconnect option. */
    constructor(cfg: Config)
      ensures this.cfg == cfg && Valid() && advances == 0 && reconnect == cfg.reconnect
    {
      this.cfg := cfg;
      reconnect := cfg.reconnect;
      advances := 0;
    }

    /** The inner reconnection loop. `attempts[k]` says whether the k-th handshake and redial
     *  succeed; the loop waits, advances the interval, then tries, until one succeeds. The
     *  interval is not reset afterwards. */
    method Reconnect(attempts: seq<bool>) returns (sleeps: seq<nat>, outcome: RetryOutcome)
      requires Valid()
      modifies this`reconnect, this`advances
      ensures |sleeps| <= |attempts| && (|attempts| > 0 ==> |sleeps| > 0)
      ensures SleptOnSchedule(cfg, old(advances), sleeps)
      ensures outcome == Panicked <==> |attempts| > 0 && cfg.backoff !in {"none", "linear", "exponential"}
      ensures outcome != Panicked ==> Valid() && advances == old(advances) + |sleeps|
      ensures outcome == Reconnected ==>
        |sleeps| > 0 && attempts[|sleeps| - 1] && forall k :: 0 <= k < |sleeps| - 1 ==> !attempts[k]
      ensures outcome == StillRetrying ==> |sleeps| == |attempts| && forall k :: 0 <= k < |attempts| ==> !attempts[k]
    {
      sleeps := [];
      var i := 0;
      while i < |attempts|
        invariant 0 <= i <= |attempts| && |sleeps| == i
        invariant advances == old(advances) + i && Valid()
        invariant i > 0 ==> cfg.backoff in {"none", "linear", "exponential"}
        invariant SleptOnSchedule(cfg, old(advances), sleeps)
        invariant forall k :: 0 <= k < i ==> !attempts[k]
      {
        ScheduleExtends(cfg, old(advances), sleeps, reconnect);
        sleeps := sleeps + [Slept(reconnect)];
        var next := NextBackoff(reconnect, cfg);
        if next.None? {
          return sleeps, Panicked;
        }
        reconnect := next.value;
        advances := advances + 1;
        if attempts[i] {
          return sleeps, Reconnected;
        }
        i := i + 1;
      }
      return sleeps, StillRetrying;
    }

    /** One error from the client: restore the terminal, give up when reconnection is off,
     *  otherwise reconnect and put the terminal back into raw mode. */
    method OnServerError(disconnectFails: bool, attempts: seq<bool>, reconnectFails: bool)
      returns (sleeps: seq<nat>, outcome: ErrorOutcome)
      requires Valid()
      modifies this`reconnect, this`advances
      ensures disconnectFails || cfg.reconnect < 0 ==>
        outcome == Exited && sleeps == [] && reconnect == old(reconnect) && advances == old(advances)
      ensures outcome != Crashed ==> Valid()
      ensures outcome == Crashed <==>
        !disconnectFails && cfg.reconnect >= 0 && |attempts| > 0 && cfg.backoff !in {"none", "linear", "exponential"}
      ensures |sleeps| <= |attempts|
      ensures !disconnectFails && cfg.reconnect >= 0 && |attempts| > 0 ==> |sleeps| > 0
      ensures SleptOnSchedule(cfg, old(advances), sleeps)
      ensures outcome == Resumed ==>
        !reconnectFails && |sleeps| > 0 && attempts[|sleeps| - 1] && forall k :: 0 <= k < |sleeps| - 1 ==> !attempts[k]
      ensures outcome == Resumed <==>
        !disconnectFails && cfg.reconnect >= 0 && !reconnectFails && true in attempts
        && cfg.backoff in {"none", "linear", "exponential"}
      ensures outcome != Crashed ==> advances == old(advances) + |sleeps|
    {
      if disconnectFails {
        return [], Exited;
      }
      if cfg.reconnect < 0 {
        return [], Exited;
      }
      var retry;
      sleeps, retry := Reconnect(attempts);
      if retry == Panicked {
        return sleeps, Crashed;
      }
      if retry == StillRetrying {
        return sleeps, Retrying;
      }
      if reconnectFails {
        return sleeps, Exited;
      }
      return sleeps, Resumed;
    }
  }

  /** Two disconnections in a row: the second one's waits carry on where the first left off. */
  method TwoDisconnects(cfg: Config, first: seq<bool>, second: seq<bool>)
    returns (s1: seq<nat>, s2: seq<nat>)
    requires cfg.backoff == "linear" && cfg.reconnect >= 0
    requires |first| > 0 && first[|first| - 1] && forall k :: 0 <= k < |first| - 1 ==> !first[k]
    requires |second| > 0
    ensures |s1| == |first|
    ensures |s2| > 0 && s2[0] == Slept(cfg.reconnect + |first| * cfg.backoffValue)
  {
    var sup := new Supervisor(cfg);
    var o1, o2;
    s1, o1 := sup.OnServerError(false, first, false);
    assert o1 == Resumed;
    assert sup.advances == |first|;
    s2, o2 := sup.OnServerError(false, second, false);
    LinearWaits(cfg, |first|);
    assert |first| + 0 == |first|;
  }

  // ---------------------------------------------------------------------------------------
  // Terminal settings and the HTTP timeout

  /** The HTTP client's timeout: the reconnect interval clamped to 2..5 seconds. */
  function HttpTimeout(reconnect: int): (t: int)
    ensures 2 <= t <= 5
    ensures 2 <= reconnect <= 5 ==> t == reconnect
    ensures reconnect < 2 ==> t == 2
    ensures reconnect > 5 ==> t == 5
  {
    var low := if reconnect < 5 then reconnect else 5;
    if low > 2 then low else 2
  }

  /** The settings a user asks for: a field is sent when its option is positive (parity:
   *  non-empty), and the data and stop bits go through Go's `uint8` conversion. */
  function Requested(o: SerialOptions): (dto: SttyDto)
    ensures dto.baudrate.Some? <==> o.baud > 0
    ensures dto.baudrate.Some? ==> dto.baudrate.value == o.baud
    ensures dto.databits.Some? <==> o.databits > 0
    ensures dto.databits.Some? ==> dto.databits.value == o.databits % 0x100
    ensures dto.stopbits.Some? <==> o.stopbits > 0
    ensures dto.stopbits.Some? ==> dto.stopbits.value == o.stopbits % 0x100
    ensures dto.parity.Some? <==> o.parity != ""
    ensures dto.parity.Some? ==> dto.parity.value == o.parity
    ensures dto == NoSettings <==> !AnySetting(o)
  {
    SttyDto(
      if o.baud > 0 then Some(o.baud) else None,
      if o.databits > 0 then Some(o.databits % 0x100) else None,
      if o.stopbits > 0 then Some(o.stopbits % 0x100) else None,
      if o.parity != "" then Some(o.parity) else None)
  }

  /** At least one serial setting is given. */
  predicate AnySetting(o: SerialOptions) {
    o.baud > 0 || o.databits > 0 || o.stopbits > 0 || o.parity != ""
  }

  /** `stty`'s first half: fills the settings that are set, counting them. */
  method BuildStty(o: SerialOptions) returns (dto: SttyDto, paramsToUpdate: nat)
    ensures dto == Requested(o)
    ensures paramsToUpdate == 0 <==> !AnySetting(o)
    ensures paramsToUpdate <= 4
  {
    dto := NoSettings;
    var baud: nat := if o.baud > 0 then o.baud else 0;
    var bits := o.databits % 0x100;
    var stop := o.stopbits % 0x100;
    paramsToUpdate := 0;
    if o.baud > 0 {
      dto := dto.(baudrate := Some(baud));
      paramsToUpdate := paramsToUpdate + 1;
    }
    if o.databits > 0 {
      dto := dto.(databits := Some(bits));
      paramsToUpdate := paramsToUpdate + 1;
    }
    if o.stopbits > 0 {
      dto := dto.(stopbits := Some(stop));
      paramsToUpdate := paramsToUpdate + 1;
    }
    if o.parity != "" {
      dto := dto.(parity := Some(o.parity));
      paramsToUpdate := paramsToUpdate + 1;
    }
  }

  /** The serial-line rules of `Validate`. */
  predicate SerialValid(o: SerialOptions) {
    (o.baud == -1 || o.baud > 0)
    && (o.parity == "even" || o.parity == "odd" || o.parity == "none" || o.parity == "")
    && (o.databits == -1 || 5 <= o.databits <= 8)
    && (o.stopbits == -1 || o.stopbits == 1 || o.stopbits == 2)
  }

  lemma ValidateChecksSerial(cfg: Config)
    requires Validate(cfg).None?
    ensures SerialValid(cfg.Serial())
  {
  }

  /** For options that pass validation the server reads back exactly the settings asked
   *  for: the bits survive the `uint8` conversion and the parity is one it knows. */
  lemma ValidatedSettingsArrive(o: SerialOptions)
    requires SerialValid(o)
    ensures ReadSttyJson(SttyJson(Requested(o))) == Some(Requested(o))
  {
    var dto := Requested(o);
    SttyJsonRoundTrip(dto);
    assert Sent(dto) == dto;
  }

  /** `stty`: nothing is posted when no setting is given; otherwise the body is posted and
   *  the reply decides the error. */
  method SetTerminal(cfg: Config, reply: SttyReply) returns (posted: Option<string>, err: Option<SttyError>)
    ensures posted.None? ==> err.None?
    ensures posted.Some? <==> AnySetting(cfg.Serial())
    ensures posted.Some? ==> posted.value == SttyJson(Requested(cfg.Serial()))
    ensures posted.Some? ==> (err.None? <==> SttyResult(reply).Applied?)
  {
    var dto, paramsToUpdate := BuildStty(cfg.Serial());
    if paramsToUpdate == 0 {
      return None, None;
    }
    var body := SttyBody(dto);
    posted := Some(body);
    match SttyResult(reply)
    case Applied(_) => err := None;
    case Failed(e) => err := Some(e);
  }

  /** What the handshake gives: a failure, or the token and the `Server` header. */
  datatype Handshake = HandshakeFailed | Handshaken(token: string, serverHeader: string)

  /** `doHandshakeAndSetTerminal` as written: the error of `stty` is assigned to a shadowing
   *  variable, so only a failed handshake is ever reported. */
  method HandshakeAndSetTerminal(cfg: Config, hs: Handshake, reply: SttyReply)
    returns (impl: Implementation, posted: Option<string>, failed: bool)
    ensures failed <==> hs.HandshakeFailed?
    ensures hs.Handshaken? ==> impl == DetectServer(hs.serverHeader).0
    ensures posted.Some? <==> hs.Handshaken? && impl == WiSe && AnySetting(cfg.Serial())
  {
    if hs.HandshakeFailed? {
      return Ttyd, None, true;
    }
    impl := DetectServer(hs.serverHeader).0;
    posted := None;
    failed := false;
    if impl == WiSe {
      var sttyErr;
      posted, sttyErr := SetTerminal(cfg, reply);
    }
  }

  /** The evident intent: a failed `stty` on a Wi-Se server is reported too. */
  method HandshakeAndSetTerminalIntended(cfg: Config, hs: Handshake, reply: SttyReply)
    returns (impl: Implementation, posted: Option<string>, failed: bool)
    ensures hs.Handshaken? ==> impl == DetectServer(hs.serverHeader).0
    ensures posted.Some? <==> hs.Handshaken? && impl == WiSe && AnySetting(cfg.Serial())
    ensures failed <==> hs.HandshakeFailed? || (impl == WiSe && posted.Some? && !SttyResult(reply).Applied?)
  {
    if hs.HandshakeFailed? {
      return Ttyd, None, true;
    }
    impl := DetectServer(hs.serverHeader).0;
    posted := None;
    failed := false;
    if impl == WiSe {
      var sttyErr;
      posted, sttyErr := SetTerminal(cfg, reply);
      failed := sttyErr.Some?;
    }
  }

  /** A Wi-Se server that refuses the settings: as written the run goes on as if they were
   *  applied, while the intended version stops. */
  method SwallowedSttyError() returns (asWritten: bool, intended: bool)
    ensures !asWritten && intended
  {
    var cfg := Config("", "", Some("http"), "", true, 2, 2, "none", 2, 115200, "", -1, -1);
    var hs := Handshaken("t", "Wi-Se");
    var reply := Replied(500, None);
    assert ToLower("Wi-Se") == "wi-se";
    WiSeDetected("", "Wi-Se", "");
    assert "" + "Wi-Se" + "" == "Wi-Se";
    var _, _, f1 := HandshakeAndSetTerminal(cfg, hs, reply);
    var _, _, f2 := HandshakeAndSetTerminalIntended(cfg, hs, reply);
    return f1, f2;
  }
}
