/**
 * The HTTP side shared by both commands: the URLs derived from the server's base URL, the
 * server detection of the handshake, and the serial-port settings (`stty`) as they are read
 * from and written to a Wi-Se server.
 *
 * HTTP requests are abstract; a JSON reply is given as its already decoded fields.
 */
module Common {
  import opened Text
  import opened Wrappers

  // ---------------------------------------------------------------------------------------
  // URLs

  /** A parsed URL with no user info (the client strips it before deriving URLs). */
  datatype Url = Url(scheme: string, host: string, path: string)

  const UrlForToken: int := 0
  const UrlForWebSocket: int := 1
  const UrlForStty: int := 2
  const UrlForStats: int := 3
  const UrlForWhoami: int := 4

  predicate KnownSelector(urlFor: int) {
    UrlForToken <= urlFor <= UrlForWhoami
  }

  /** The path segment of each endpoint. */
  function Segment(urlFor: int): string
    requires KnownSelector(urlFor)
  {
    if urlFor == UrlForToken then "token"
    else if urlFor == UrlForWebSocket then "ws"
    else if urlFor == UrlForStty then "stty"
    else if urlFor == UrlForStats then "stats"
    else "whoami"
  }

  /** `path.Join(base, seg)` for a clean base path and a one-word segment: the base, then
   *  the segment, separated by exactly one slash unless the base is empty. */
  function JoinPath(base: string, seg: string): (j: string)
    ensures j == base + seg || j == base + "/" + seg
    ensures base == "" ==> j == seg
    ensures base != "" ==> (j == base + "/" + seg <==> base[|base| - 1] != '/')
  {
    if base == "" then seg
    else if base[|base| - 1] == '/' then base + seg
    else base + "/" + seg
  }

  /** `GetUrlFor`: `None` where the Go code panics on an unknown selector. */
  function GetUrlFor(urlFor: int, base: Url): (r: Option<Url>)
    ensures r.None? <==> !KnownSelector(urlFor)
  {
    if !KnownSelector(urlFor) then None
    else if urlFor == UrlForWebSocket then
      Some(Url(if base.scheme == "https" then "wss" else "ws", base.host, JoinPath(base.path, "ws")))
    else Some(base.(path := JoinPath(base.path, Segment(urlFor))))
  }

  /** Every URL keeps the host and joins its segment to the base path; only the WebSocket URL
   *  changes the scheme, to wss exactly for https. */
  lemma UrlForShape(urlFor: int, base: Url)
    requires KnownSelector(urlFor)
    ensures GetUrlFor(urlFor, base).Some?
    ensures GetUrlFor(urlFor, base).value.host == base.host
    ensures GetUrlFor(urlFor, base).value.path == JoinPath(base.path, Segment(urlFor))
    ensures urlFor != UrlForWebSocket ==> GetUrlFor(urlFor, base).value.scheme == base.scheme
    ensures urlFor == UrlForWebSocket ==>
      GetUrlFor(urlFor, base).value.scheme in {"ws", "wss"} &&
      (GetUrlFor(urlFor, base).value.scheme == "wss" <==> base.scheme == "https")
  {
  }

  // ---------------------------------------------------------------------------------------
  // Server detection

  datatype Implementation = Ttyd | WiSe

  /** `Handshake` reads the `Server` header: Wi-Se when it mentions "wi-se" in any case. */
  function DetectServer(serverHeader: string): (r: (Implementation, string))
    ensures r.1 == serverHeader
    ensures r.0 == WiSe <==> Contains(ToLower(serverHeader), "wi-se")
  {
    if serverHeader != "" then
      (if Contains(ToLower(serverHeader), "wi-se") then WiSe else Ttyd, serverHeader)
    else (Ttyd, "")
  }

  lemma ToLowerConcat(a: string, b: string)
    ensures ToLower(a + b) == ToLower(a) + ToLower(b)
  {
  }

  /** A header naming Wi-Se in any capitalisation, anywhere, is recognised. */
  lemma WiSeDetected(pre: string, name: string, post: string)
    requires ToLower(name) == "wi-se"
    ensures DetectServer(pre + name + post).0 == WiSe
  {
    ToLowerConcat(pre + name, post);
    ToLowerConcat(pre, name);
    var low := ToLower(pre + name + post);
    assert low == ToLower(pre) + "wi-se" + ToLower(post);
    assert low[|pre|..|pre| + 5] == "wi-se";
    assert OccursAt(low, "wi-se", |pre|);
  }

  // ---------------------------------------------------------------------------------------
  // Serial settings

  /** `SttyDTO`: each setting is optional. */
  datatype SttyDto = SttyDto(baudrate: Option<nat>, databits: Option<byte>, stopbits: Option<byte>, parity: Option<string>)

  const NoSettings: SttyDto := SttyDto(None, None, None, None)

  /** The server's reply, already decoded from JSON: parity is null, 0 or another integer. */
  datatype SttyIn = SttyIn(baudrate: nat, bits: byte, stop: byte, parity: Option<int>)

  /** `parseStty`'s parity mapping: null is no parity setting, 0 is even, anything else odd. */
  function ParityFromWire(p: Option<int>): (r: Option<string>)
    ensures r.None? <==> p.None?
    ensures p.Some? ==> (r.value == "even" <==> p.value == 0) && r.value in {"even", "odd"}
  {
    match p
    case None => None
    case Some(v) => if v == 0 then Some("even") else Some("odd")
  }

  function ParseStty(reply: SttyIn): (dto: SttyDto)
    ensures dto.baudrate == Some(reply.baudrate)
    ensures dto.databits == Some(reply.bits) && dto.stopbits == Some(reply.stop)
    ensures dto.parity == ParityFromWire(reply.parity)
  {
    SttyDto(Some(reply.baudrate), Some(reply.bits), Some(reply.stop), ParityFromWire(reply.parity))
  }

  /** The parity item `Stty` writes: null for none, 0 for even, 1 for odd; any other value is
   *  left out. `Some(None)` stands for JSON null. */
  function ParityToWire(p: string): (r: Option<Option<int>>)
    ensures r.Some? <==> p in {"none", "even", "odd"}
  {
    if p == "none" then Some(None)
    else if p == "even" then Some(Some(0))
    else if p == "odd" then Some(Some(1))
    else None
  }

  /** Even and odd survive being written and read back; "none" comes back as no setting. */
  lemma ParityRoundTrip(p: string)
    ensures p in {"even", "odd"} ==> ParityFromWire(ParityToWire(p).value) == Some(p)
    ensures p == "none" ==> ParityFromWire(ParityToWire(p).value) == None
  {
  }

  const BaudKey: string := "\"baudrate\": "
  const StopKey: string := "\"stop\": "
  const BitsKey: string := "\"bits\": "
  const ParityKey: string := "\"parity\": "

  function ParityText(w: Option<int>): string {
    match w
    case None => "null"
    case Some(v) => IntToDecimal(v)
  }

  /** One `"key": value` item. */
  function Item(key: string, value: string): string {
    key + value
  }

  function BaudItems(dto: SttyDto): seq<string> {
    if dto.baudrate.Some? then [Item(BaudKey, NatToDecimal(dto.baudrate.value))] else []
  }

  function StopItems(dto: SttyDto): seq<string> {
    if dto.stopbits.Some? then [Item(StopKey, NatToDecimal(dto.stopbits.value))] else []
  }

  function BitsItems(dto: SttyDto): seq<string> {
    if dto.databits.Some? then [Item(BitsKey, NatToDecimal(dto.databits.value))] else []
  }

  function ParityItems(dto: SttyDto): seq<string> {
    if dto.parity.Some? && ParityToWire(dto.parity.value).Some?
    then [Item(ParityKey, ParityText(ParityToWire(dto.parity.value).value))] else []
  }

  /** The items `Stty` collects, in the order baudrate, stop, bits, parity. */
  function SttyItems(dto: SttyDto): seq<string>
  {
    BaudItems(dto) + StopItems(dto) + BitsItems(dto) + ParityItems(dto)
  }

  /** The body `Stty` posts: the items, comma-separated, inside braces. */
  function SttyJson(dto: SttyDto): string
  {
    "{" + Join(SttyItems(dto), ',') + "}"
  }

  /** `Stty` builds the JSON by appending items and joining them. */
  method SttyBody(dto: SttyDto) returns (body: string)
    ensures body == SttyJson(dto)
  {
    var items: seq<string> := [];
    if dto.baudrate.Some? {
      items := items + [Item(BaudKey, NatToDecimal(dto.baudrate.value))];
    }
    if dto.stopbits.Some? {
      items := items + [Item(StopKey, NatToDecimal(dto.stopbits.value))];
    }
    if dto.databits.Some? {
      items := items + [Item(BitsKey, NatToDecimal(dto.databits.value))];
    }
    assert items == BaudItems(dto) + StopItems(dto) + BitsItems(dto);
    if dto.parity.Some? {
      if dto.parity.value == "none" {
        items := items + [Item(ParityKey, "null")];
      } else if dto.parity.value == "even" {
        items := items + [Item(ParityKey, "0")];
      } else if dto.parity.value == "odd" {
        items := items + [Item(ParityKey, "1")];
      }
    }
    ParityDigits();
    assert items == SttyItems(dto);
    body := "{" + Join(items, ',') + "}";
  }

  lemma ParityDigits()
    ensures ParityText(Some(0)) == "0" && ParityText(Some(1)) == "1"
  {
    assert NatToDecimal(0) == [DigitChar(0)];
    assert NatToDecimal(1) == [DigitChar(1)];
  }

  // A reference reader for the body, the way the server takes it apart.

  /** One item applied to the settings read so far. */
  function ReadItem(item: string, acc: SttyDto): Option<SttyDto>
  {
    if HasPrefix(item, BaudKey) then
      match ParseDecimal(item[|BaudKey|..])
      case Some(n) => if n >= 0 then Some(acc.(baudrate := Some(n))) else None
      case None => None
    else if HasPrefix(item, StopKey) then
      match ParseDecimal(item[|StopKey|..])
      case Some(n) => if 0 <= n < 0x100 then Some(acc.(stopbits := Some(n))) else None
      case None => None
    else if HasPrefix(item, BitsKey) then
      match ParseDecimal(item[|BitsKey|..])
      case Some(n) => if 0 <= n < 0x100 then Some(acc.(databits := Some(n))) else None
      case None => None
    else if HasPrefix(item, ParityKey) then
      var v := item[|ParityKey|..];
      if v == "null" then Some(acc.(parity := Some("none")))
      else if v == "0" then Some(acc.(parity := Some("even")))
      else if v == "1" then Some(acc.(parity := Some("odd")))
      else None
    else None
  }

  function ReadItems(items: seq<string>, acc: SttyDto): Option<SttyDto>
  {
    if items == [] then Some(acc)
    else match ReadItem(items[0], acc)
      case None => None
      case Some(next) => ReadItems(items[1..], next)
  }

  function ReadSttyJson(body: string): Option<SttyDto>
  {
    if |body| < 2 || body[0] != '{' || body[|body| - 1] != '}' then None
    else
      var inner := body[1..|body| - 1];
      if inner == "" then Some(NoSettings) else ReadItems(Split(inner, ','), NoSettings)
  }

  /** The settings `Stty` actually sends: a parity other than none, even or odd is dropped. */
  function Sent(dto: SttyDto): SttyDto {
    dto.(parity := if dto.parity.Some? && dto.parity.value in {"none", "even", "odd"} then dto.parity else None)
  }

  lemma {:induction false} ReadItemsAppend(xs: seq<string>, ys: seq<string>, acc: SttyDto)
    ensures ReadItems(xs + ys, acc) ==
      match ReadItems(xs, acc) case None => None case Some(mid) => ReadItems(ys, mid)
  {
    if xs == [] {
      assert xs + ys == ys;
    } else {
      assert (xs + ys)[0] == xs[0];
      assert (xs + ys)[1..] == xs[1..] + ys;
      match ReadItem(xs[0], acc)
      case None =>
      case Some(next) => ReadItemsAppend(xs[1..], ys, next);
    }
  }

  lemma KeyedNumber(key: string, n: nat)
    ensures HasPrefix(key + NatToDecimal(n), key)
    ensures (key + NatToDecimal(n))[|key|..] == NatToDecimal(n)
    ensures ParseDecimal(NatToDecimal(n)) == Some(n)
  {
    var s := key + NatToDecimal(n);
    assert s[..|key|] == key;
    assert s[|key|..] == NatToDecimal(n);
    DecimalRoundTrip(n);
  }

  lemma ReadBaud(n: nat, acc: SttyDto)
    ensures ReadItem(Item(BaudKey, NatToDecimal(n)), acc) == Some(acc.(baudrate := Some(n)))
  {
    KeyedNumber(BaudKey, n);
  }

  lemma ReadStop(n: byte, acc: SttyDto)
    ensures ReadItem(Item(StopKey, NatToDecimal(n)), acc) == Some(acc.(stopbits := Some(n)))
  {
    var s := StopKey + NatToDecimal(n);
    KeyedNumber(StopKey, n);
    assert s[1] == 's';
    assert !HasPrefix(s, BaudKey);
    assert HasPrefix(s, StopKey);
    assert ParseDecimal(s[|StopKey|..]) == Some(n as int);
  }

  lemma ReadBits(n: byte, acc: SttyDto)
    ensures ReadItem(Item(BitsKey, NatToDecimal(n)), acc) == Some(acc.(databits := Some(n)))
  {
    var s := BitsKey + NatToDecimal(n);
    KeyedNumber(BitsKey, n);
    assert s[1] == 'b' && s[2] == 'i';
    assert !HasPrefix(s, BaudKey) && !HasPrefix(s, StopKey);
  }

  lemma ReadParity(p: string, acc: SttyDto)
    requires ParityToWire(p).Some?
    ensures ReadItem(Item(ParityKey, ParityText(ParityToWire(p).value)), acc) == Some(acc.(parity := Some(p)))
  {
    var v := ParityText(ParityToWire(p).value);
    var s := ParityKey + v;
    assert s[..|ParityKey|] == ParityKey;
    assert s[|ParityKey|..] == v;
    assert s[1] == 'p';
    assert !HasPrefix(s, BaudKey) && !HasPrefix(s, StopKey) && !HasPrefix(s, BitsKey);
  }

  lemma KeyedHasNoComma(key: string, value: string)
    requires ',' !in key
    requires AllDigits(value) || value in {"null", "0", "1"}
    ensures ',' !in Item(key, value)
  {
    assert forall i :: 0 <= i < |value| ==> value[i] != ',';
  }

  /** Items are a key and a number or null, so none contains a comma. */
  lemma ItemsHaveNoComma(dto: SttyDto)
    ensures forall i :: 0 <= i < |SttyItems(dto)| ==> ',' !in SttyItems(dto)[i]
  {
    if dto.baudrate.Some? { KeyedHasNoComma(BaudKey, NatToDecimal(dto.baudrate.value)); }
    if dto.stopbits.Some? { KeyedHasNoComma(StopKey, NatToDecimal(dto.stopbits.value)); }
    if dto.databits.Some? { KeyedHasNoComma(BitsKey, NatToDecimal(dto.databits.value)); }
    if ParityItems(dto) != [] {
      ParityDigits();
      KeyedHasNoComma(ParityKey, ParityText(ParityToWire(dto.parity.value).value));
    }
  }

  lemma ReadOne(x: string, acc: SttyDto)
    ensures ReadItems([x], acc) == ReadItem(x, acc)
  {
    assert [x][1..] == [];
  }

  lemma ReadBaudItems(dto: SttyDto, acc: SttyDto)
    ensures ReadItems(BaudItems(dto), acc) == Some(if dto.baudrate.Some? then acc.(baudrate := dto.baudrate) else acc)
  {
    if dto.baudrate.Some? {
      ReadOne(BaudItems(dto)[0], acc);
      ReadBaud(dto.baudrate.value, acc);
    }
  }

  lemma ReadStopItems(dto: SttyDto, acc: SttyDto)
    ensures ReadItems(StopItems(dto), acc) == Some(if dto.stopbits.Some? then acc.(stopbits := dto.stopbits) else acc)
  {
    if dto.stopbits.Some? {
      ReadOne(StopItems(dto)[0], acc);
      ReadStop(dto.stopbits.value, acc);
    }
  }

  lemma ReadBitsItems(dto: SttyDto, acc: SttyDto)
    ensures ReadItems(BitsItems(dto), acc) == Some(if dto.databits.Some? then acc.(databits := dto.databits) else acc)
  {
    if dto.databits.Some? {
      ReadOne(BitsItems(dto)[0], acc);
      ReadBits(dto.databits.value, acc);
    }
  }

  lemma ReadParityItems(dto: SttyDto, acc: SttyDto)
    ensures ReadItems(ParityItems(dto), acc) == Some(if ParityItems(dto) != [] then acc.(parity := dto.parity) else acc)
  {
    if ParityItems(dto) != [] {
      ReadOne(ParityItems(dto)[0], acc);
      ReadParity(dto.parity.value, acc);
    }
  }

  /** Reading the items back in order rebuilds the settings that are sent. */
  lemma ReadAllItems(dto: SttyDto)
    ensures ReadItems(SttyItems(dto), NoSettings) == Some(Sent(dto))
  {
    var b, st, bi, pa := BaudItems(dto), StopItems(dto), BitsItems(dto), ParityItems(dto);
    var a0 := NoSettings;
    var a1 := if dto.baudrate.Some? then a0.(baudrate := dto.baudrate) else a0;
    var a2 := if dto.stopbits.Some? then a1.(stopbits := dto.stopbits) else a1;
    var a3 := if dto.databits.Some? then a2.(databits := dto.databits) else a2;
    ReadBaudItems(dto, a0);
    ReadStopItems(dto, a1);
    ReadBitsItems(dto, a2);
    ReadParityItems(dto, a3);
    ReadItemsAppend(b, st, a0);
    ReadItemsAppend(b + st, bi, a0);
    ReadItemsAppend(b + st + bi, pa, a0);
  }

  /** The hand-built JSON can be read back: it carries exactly the settings that are sent,
   *  with no fields at all giving "{}". */
  lemma SttyJsonRoundTrip(dto: SttyDto)
    ensures ReadSttyJson(SttyJson(dto)) == Some(Sent(dto))
    ensures SttyItems(dto) == [] <==> Sent(dto) == NoSettings
  {
    var items := SttyItems(dto);
    var body := SttyJson(dto);
    assert body[1..|body| - 1] == Join(items, ',');
    ReadAllItems(dto);
    if items == [] {
      assert body == "{}";
    } else {
      ItemsHaveNoComma(dto);
      SplitJoin(items, ',');
    }
  }

  /** The outcome of posting the settings, with the HTTP exchange abstract. */
  datatype SttyReply = PostFailed | AuthFailed | Replied(status: int, body: Option<SttyIn>)

  datatype SttyError = Transport | AuthError | HttpStatus(code: int) | BadBody

  datatype SttyOutcome = Applied(dto: SttyDto) | Failed(err: SttyError)

  /** After authentication only a 200 reply counts, and its body is read back as settings. */
  function SttyResult(reply: SttyReply): (r: SttyOutcome)
    ensures r.Applied? <==> reply.Replied? && reply.status == 200 && reply.body.Some?
    ensures reply.Replied? && reply.status != 200 ==> r == Failed(HttpStatus(reply.status))
    ensures r.Applied? ==> r.dto == ParseStty(reply.body.value)
  {
    match reply
    case PostFailed => Failed(Transport)
    case AuthFailed => Failed(AuthError)
    case Replied(status, body) =>
      if status != 200 then Failed(HttpStatus(status))
      else if body.None? then Failed(BadBody)
      else Applied(ParseStty(body.value))
  }

  /** `GetStty`: the reply to the GET is read back as settings whatever its status. */
  function FetchResult(reply: SttyReply): (r: SttyOutcome)
    ensures r.Applied? <==> reply.Replied? && reply.body.Some?
    ensures r.Applied? ==> r.dto == ParseStty(reply.body.value)
    ensures r.Failed? ==> !r.err.HttpStatus?
  {
    match reply
    case PostFailed => Failed(Transport)
    case AuthFailed => Failed(AuthError)
    case Replied(_, body) =>
      if body.None? then Failed(BadBody) else Applied(ParseStty(body.value))
  }

  /** Only the POST checks the status: an error status whose body still decodes is
   *  taken as the current settings by `GetStty` and refused by `Stty`. */
  lemma FetchIgnoresStatus(status: int, body: SttyIn)
    requires status != 200
    ensures FetchResult(Replied(status, Some(body))) == Applied(ParseStty(body))
    ensures SttyResult(Replied(status, Some(body))) == Failed(HttpStatus(status))
  {
  }

  /** The two agree on every other reply. */
  lemma FetchAgreesOnSuccess(reply: SttyReply)
    requires !reply.Replied? || reply.status == 200
    ensures FetchResult(reply) == SttyResult(reply)
  {
  }
}
