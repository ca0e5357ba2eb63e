/**
 * The local key commands of the tio-style console handler: the escape byte (ctrl-t), the
 * command bytes that may follow it, the help table and the order in which help lists it.
 */
module KeyCommands {
  import opened Text

  const EscapeChar: byte := 0x14  // ctrl-t
  const HelpChar: byte := '?' as int
  const QuitChar: byte := 'q' as int
  const ConfigChar: byte := 'c' as int
  const BreakChar: byte := 'b' as int
  const DetectBaudChar: byte := 'B' as int
  const ClearChar: byte := 'l' as int
  const CtrlTChar: byte := 't' as int
  const VersionChar: byte := 'v' as int
  const StatsChar: byte := 's' as int
  const LocalEchoChar: byte := 'e' as int
  const HexModeChar: byte := 'h' as int
  const TimestampsChar: byte := 'T' as int

  /** What a command byte asks for. */
  datatype Command =
    | Quit | ShowConfig | DetectBaud | SendBreak | ClearScreen | SendCtrlT
    | ToggleLocalEcho | ToggleHexMode | ToggleTimestamps | ShowHelp | ShowStats | ShowVersion
    | Ignored

  /** The `switch` of `handleCommand`: every byte outside the table is ignored. */
  function CommandFor(b: byte): Command
  {
    if b == QuitChar then Quit
    else if b == ConfigChar then ShowConfig
    else if b == DetectBaudChar then DetectBaud
    else if b == BreakChar then SendBreak
    else if b == ClearChar then ClearScreen
    else if b == CtrlTChar then SendCtrlT
    else if b == LocalEchoChar then ToggleLocalEcho
    else if b == HexModeChar then ToggleHexMode
    else if b == TimestampsChar then ToggleTimestamps
    else if b == HelpChar then ShowHelp
    else if b == StatsChar then ShowStats
    else if b == VersionChar then ShowVersion
    else Ignored
  }

  /** The bytes a command puts back into the keystroke stream: only "send ctrl-t" puts any. */
  function Replacement(b: byte): (r: seq<byte>)
    ensures r == [] || r == [EscapeChar]
  {
    if b == CtrlTChar then [EscapeChar] else []
  }

  /** Exactly the "send ctrl-t" command puts a byte back, and that byte is the escape. */
  lemma ReplacementOnlyForCtrlT(b: byte)
    ensures Replacement(b) != [] <==> CommandFor(b) == SendCtrlT
    ensures Replacement(b) != [] ==> Replacement(b) == [EscapeChar]
  {
  }

  datatype CmdInfo = CmdInfo(helpText: string, nonStandard: bool)

  /** A byte is ignored exactly when the help table has no entry for it. */
  lemma IgnoredExactlyOffTable(b: byte)
    ensures CommandFor(b) == Ignored <==> b !in CmdsInfo
  {
  }

  /** `cmdsInfo`: the help text of every command; non-standard ones exist only on Wi-Se. */
  const CmdsInfo: map<byte, CmdInfo> := map[
    QuitChar := CmdInfo("Quit", false),
    ClearChar := CmdInfo("Clear screen", false),
    CtrlTChar := CmdInfo("Send ctrl-t key code", false),
    HelpChar := CmdInfo("List available key commands", false),
    ConfigChar := CmdInfo("Show configuration", false),
    VersionChar := CmdInfo("Show version", false),
    LocalEchoChar := CmdInfo("Toggle local echo mode", false),
    HexModeChar := CmdInfo("Toggle hexadecimal mode", false),
    TimestampsChar := CmdInfo("Toggle timestamps", false),
    BreakChar := CmdInfo("Send break", true),
    DetectBaudChar := CmdInfo("Request baudrate detection", true),
    StatsChar := CmdInfo("Show statistics", true)
  ]

  /** `keyFn` of the help listing: a lower-case letter sorts just before its upper-case twin. */
  function HelpKey(c: int): int {
    if 'a' as int <= c <= 'z' as int then (c - 32) * 2 - 1 else c * 2
  }

  lemma HelpKeyPairsLetters(c: int)
    requires 'a' as int <= c <= 'z' as int
    ensures HelpKey(c) + 1 == HelpKey(c - 32)
    ensures forall d :: !('a' as int <= d <= 'z' as int) ==> (HelpKey(d) < HelpKey(c) <==> d < c - 32)
  {
  }

  /** Different characters never tie, so sorting by HelpKey leaves no choice to the sort. */
  lemma HelpKeyInjective(c: int, d: int)
    requires HelpKey(c) == HelpKey(d)
    ensures c == d
  {
  }

  predicate SortedByHelpKey(s: seq<byte>) {
    forall i, j :: 0 <= i < j < |s| ==> HelpKey(s[i]) < HelpKey(s[j])
  }

  /** The order `sort.Slice` leaves the keys of CmdsInfo in. */
  const HelpOrder: seq<byte> := [
    HelpChar, BreakChar, DetectBaudChar, ConfigChar, LocalEchoChar, HexModeChar,
    ClearChar, QuitChar, StatsChar, CtrlTChar, TimestampsChar, VersionChar
  ]

  ghost predicate SameElements(s: seq<byte>, t: seq<byte>) {
    forall x :: x in s <==> x in t
  }

  /** Sorting the keys by HelpKey yields one order and one only: a strictly sorted sequence
   *  is determined by its elements. */
  lemma {:induction false} SortedUnique(s: seq<byte>, t: seq<byte>)
    requires SortedByHelpKey(s) && SortedByHelpKey(t)
    requires SameElements(s, t)
    ensures s == t
  {
    if s != [] && t != [] {
      // The first element of each is the element of least key.
      assert t[0] in s && s[0] in t;
      var i :| 0 <= i < |s| && s[i] == t[0];
      var j :| 0 <= j < |t| && t[j] == s[0];
      var s', t' := s[1..], t[1..];
      forall x | x in s' ensures x in t' {
        var k :| 0 < k < |s| && s[k] == x;
        assert x in t;
        assert x != t[0] by { assert HelpKey(s[0]) < HelpKey(s[k]); }
      }
      forall x | x in t' ensures x in s' {
        var k :| 0 < k < |t| && t[k] == x;
        assert x in s;
        assert x != s[0] by { assert HelpKey(t[0]) < HelpKey(t[k]); }
      }
      SortedUnique(s', t');
      assert s == [s[0]] + s' && t == [t[0]] + t';
    } else if s != [] {
      HeadIsElement(s);
      assert false;
    } else if t != [] {
      HeadIsElement(t);
      assert false;
    }
  }

  lemma HeadIsElement(s: seq<byte>)
    requires s != []
    ensures s[0] in s
  {
  }

  lemma {:induction false} SortedFromAdjacent(s: seq<byte>)
    requires forall i :: 0 <= i < |s| - 1 ==> HelpKey(s[i]) < HelpKey(s[i + 1])
    ensures SortedByHelpKey(s)
  {
    if |s| > 1 {
      SortedFromAdjacent(s[1..]);
      forall j | 1 <= j < |s| ensures HelpKey(s[0]) < HelpKey(s[j]) {
        if j > 1 {
          assert HelpKey(s[1..][0]) < HelpKey(s[1..][j - 1]);
        }
      }
    }
  }

  /** HelpOrder is the sorted key set of the help table, which is therefore the order the
   *  help command lists the keys in. */
  lemma HelpOrderIsSortedKeys()
    ensures SortedByHelpKey(HelpOrder)
    ensures forall k :: k in HelpOrder <==> k in CmdsInfo
    ensures forall t :: SortedByHelpKey(t) && (forall k :: k in t <==> k in CmdsInfo) ==> t == HelpOrder
  {
    SortedFromAdjacent(HelpOrder);
    forall t | SortedByHelpKey(t) && (forall k :: k in t <==> k in CmdsInfo) ensures t == HelpOrder {
      SortedUnique(t, HelpOrder);
    }
  }

  /** The keys the help command lists, in order: the non-standard ones only on Wi-Se. */
  function HelpKeys(isWiSe: bool): (r: seq<byte>)
    ensures SortedByHelpKey(r)
    ensures forall k :: k in r <==> k in CmdsInfo && (isWiSe || !CmdsInfo[k].nonStandard)
  {
    HelpOrderIsSortedKeys();
    FilterListed(HelpOrder, isWiSe)
  }

  function FilterListed(s: seq<byte>, isWiSe: bool): (r: seq<byte>)
    requires forall k :: k in s ==> k in CmdsInfo
    requires SortedByHelpKey(s)
    ensures SortedByHelpKey(r)
    ensures forall k :: k in r <==> k in s && (isWiSe || !CmdsInfo[k].nonStandard)
  {
    if s == [] then []
    else
      var rest := FilterListed(s[1..], isWiSe);
      if isWiSe || !CmdsInfo[s[0]].nonStandard then
        assert forall j :: 0 <= j < |rest| ==> HelpKey(s[0]) < HelpKey(rest[j]) by {
          forall j | 0 <= j < |rest| ensures HelpKey(s[0]) < HelpKey(rest[j]) {
            assert rest[j] in s[1..];
            var k :| 0 <= k < |s[1..]| && s[1..][k] == rest[j];
            assert s[k + 1] == rest[j];
          }
        }
        [s[0]] + rest
      else rest
  }

  /** One line of the help listing: ` ctrl-t <key>   <text>`. */
  function HelpLine(k: byte): (line: string)
    requires k in CmdsInfo
    ensures |line| == 12 + |CmdsInfo[k].helpText|
    ensures line[8] as int == k && line[12..] == CmdsInfo[k].helpText
  {
    " ctrl-t " + [k as char] + "   " + CmdsInfo[k].helpText
  }
}
