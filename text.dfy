/**
 * Bytes and the handful of string operations of Go's standard library that the client relies
 * on (`bytes.Index`, `strings.Split`, `strings.SplitN(_, _, 2)`, `strings.Join`,
 * `strings.Trim`, `strings.ToLower`, `strings.HasPrefix`, `strings.Contains`, `%d`, `%x`),
 * each with a contract that characterises it, so that the modules built on top of them can
 * be reasoned about without unfolding the definitions.
 */
module Text {
  import opened Wrappers

  /** One octet of a Go `[]byte`. */
  type byte = b: int | 0 <= b < 0x100

  /** The ASCII code of a character, as Go's `[]byte(s)` produces it for ASCII text. */
  predicate IsAscii(s: string) {
    forall i :: 0 <= i < |s| ==> s[i] as int < 0x80
  }

  function AsciiBytes(s: string): (r: seq<byte>)
    requires IsAscii(s)
    ensures |r| == |s| && forall i :: 0 <= i < |s| ==> r[i] == s[i] as int
  {
    seq(|s|, i requires 0 <= i < |s| => s[i] as int as byte)
  }

  /** Reads bytes back as characters (the inverse of AsciiBytes on ASCII text). */
  function BytesText(b: seq<byte>): (r: string)
    ensures |r| == |b| && forall i :: 0 <= i < |b| ==> r[i] as int == b[i]
  {
    seq(|b|, i requires 0 <= i < |b| => b[i] as char)
  }

  lemma AsciiRoundTrip(s: string)
    requires IsAscii(s)
    ensures BytesText(AsciiBytes(s)) == s
  {
    var t := BytesText(AsciiBytes(s));
    assert |t| == |s|;
    forall i | 0 <= i < |s| ensures t[i] == s[i] {
      assert t[i] as int == s[i] as int;
    }
  }

  // ---------------------------------------------------------------------------------------
  // Searching

  /** `bytes.Index(s, []byte{x})` / `strings.IndexByte`: the first position of `x`, or -1. */
  function IndexOf<T(==)>(s: seq<T>, x: T): (r: int)
    ensures -1 <= r < |s|
    ensures r >= 0 ==> s[r] == x && x !in s[..r]
    ensures r == -1 <==> x !in s
  {
    if |s| == 0 then -1
    else if s[0] == x then 0
    else
      var k := IndexOf(s[1..], x);
      if k < 0 then -1
      else
        assert s[..k + 1] == [s[0]] + s[1..][..k];
        k + 1
  }

  /** The first occurrence is found after a prefix that does not contain the element. */
  lemma IndexOfAfterPrefix<T>(a: seq<T>, x: T, b: seq<T>)
    requires x !in a
    ensures IndexOf(a + [x] + b, x) == |a|
  {
    var s := a + [x] + b;
    assert s[|a|] == x;
    assert s[..|a|] == a;
  }

  lemma IndexOfAbsent<T>(a: seq<T>, x: T)
    requires x !in a
    ensures IndexOf(a, x) == -1
  {
  }

  // ---------------------------------------------------------------------------------------
  // Splitting and joining

  /** `strings.SplitN(s, sep, 2)` for a one-character separator: the text before the first
   *  separator and the text after it, or None when there is no separator. */
  function Cut(s: string, sep: char): (r: Option<(string, string)>)
    ensures r.None? <==> sep !in s
    ensures r.Some? ==> s == r.value.0 + [sep] + r.value.1 && sep !in r.value.0
  {
    var i := IndexOf(s, sep);
    if i < 0 then None
    else
      assert s == s[..i] + [sep] + s[i + 1..];
      Some((s[..i], s[i + 1..]))
  }

  /** Cut splits at the first separator, so a separator-free head comes back whole. */
  lemma CutAtFirst(head: string, sep: char, tail: string)
    requires sep !in head
    ensures Cut(head + [sep] + tail, sep) == Some((head, tail))
  {
    var s := head + [sep] + tail;
    IndexOfAfterPrefix(head, sep, tail);
    assert s[..|head|] == head;
    assert s[|head| + 1..] == tail;
  }

  /** `strings.Split(s, sep)` for a one-character separator. */
  function Split(s: string, sep: char): (parts: seq<string>)
    ensures |parts| >= 1
    ensures forall i :: 0 <= i < |parts| ==> sep !in parts[i]
    decreases |s|
  {
    match Cut(s, sep)
    case None => [s]
    case Some((before, after)) => [before] + Split(after, sep)
  }

  /** `strings.Join(parts, sep)`. */
  function Join(parts: seq<string>, sep: char): string
  {
    if |parts| == 0 then ""
    else if |parts| == 1 then parts[0]
    else parts[0] + [sep] + Join(parts[1..], sep)
  }

  /** Splitting loses nothing: joining the pieces gives the text back. */
  lemma {:induction false} JoinSplit(s: string, sep: char)
    ensures Join(Split(s, sep), sep) == s
    decreases |s|
  {
    match Cut(s, sep)
    case None =>
    case Some((before, after)) =>
      JoinSplit(after, sep);
  }

  /** Joining pieces that do not contain the separator can be undone by splitting. */
  lemma {:induction false} SplitJoin(parts: seq<string>, sep: char)
    requires |parts| >= 1
    requires forall i :: 0 <= i < |parts| ==> sep !in parts[i]
    ensures Split(Join(parts, sep), sep) == parts
  {
    if |parts| == 1 {
      IndexOfAbsent(parts[0], sep);
    } else {
      var rest := Join(parts[1..], sep);
      assert Cut(Join(parts, sep), sep) == Some((parts[0], rest)) by {
        assert Join(parts, sep) == parts[0] + [sep] + rest;
        CutAtFirst(parts[0], sep, rest);
      }
      assert Split(rest, sep) == parts[1..] by {
        SplitJoin(parts[1..], sep);
      }
      assert parts == [parts[0]] + parts[1..];
    }
  }

  // ---------------------------------------------------------------------------------------
  // Trimming

  /** Every character of `s` is in the cutset. */
  predicate AllIn(s: string, cutset: set<char>) {
    forall k :: 0 <= k < |s| ==> s[k] in cutset
  }

  /** `strings.TrimLeft(s, cutset)`. */
  function TrimLeft(s: string, cutset: set<char>): string
  {
    if |s| > 0 && s[0] in cutset then TrimLeft(s[1..], cutset) else s
  }

  /** TrimLeft keeps a suffix: what it drops is all cutset, and what it keeps does not
   *  start with a cutset character. */
  lemma {:induction false} TrimLeftShape(s: string, cutset: set<char>)
    ensures |TrimLeft(s, cutset)| <= |s|
    ensures TrimLeft(s, cutset) == s[|s| - |TrimLeft(s, cutset)|..]
    ensures AllIn(s[..|s| - |TrimLeft(s, cutset)|], cutset)
    ensures TrimLeft(s, cutset) == [] || TrimLeft(s, cutset)[0] !in cutset
  {
    if |s| > 0 && s[0] in cutset {
      TrimLeftShape(s[1..], cutset);
      var n := |s| - |TrimLeft(s, cutset)|;
      assert s[..n] == [s[0]] + s[1..][..n - 1];
    } else {
      assert s[..0] == [];
    }
  }

  /** `strings.TrimRight(s, cutset)`. */
  function TrimRight(s: string, cutset: set<char>): string
  {
    if |s| > 0 && s[|s| - 1] in cutset then TrimRight(s[..|s| - 1], cutset) else s
  }

  /** TrimRight keeps a prefix: what it drops is all cutset, and what it keeps does not
   *  end with a cutset character. */
  lemma {:induction false} TrimRightShape(s: string, cutset: set<char>)
    ensures |TrimRight(s, cutset)| <= |s|
    ensures TrimRight(s, cutset) == s[..|TrimRight(s, cutset)|]
    ensures AllIn(s[|TrimRight(s, cutset)|..], cutset)
    ensures TrimRight(s, cutset) == [] || TrimRight(s, cutset)[|TrimRight(s, cutset)| - 1] !in cutset
  {
    if |s| > 0 && s[|s| - 1] in cutset {
      var init := s[..|s| - 1];
      TrimRightShape(init, cutset);
      var n := |TrimRight(s, cutset)|;
      assert s[n..] == init[n..] + [s[|s| - 1]];
    } else {
      assert s[|s|..] == [];
    }
  }

  /** `strings.Trim(s, cutset)`: drops every leading and trailing character of the cutset. */
  function Trim(s: string, cutset: set<char>): (r: string)
  {
    TrimRight(TrimLeft(s, cutset), cutset)
  }

  lemma {:induction false} TrimLeftPadded(pre: string, rest: string, cutset: set<char>)
    requires AllIn(pre, cutset)
    requires rest == [] || rest[0] !in cutset
    ensures TrimLeft(pre + rest, cutset) == rest
  {
    if pre != [] {
      assert (pre + rest)[1..] == pre[1..] + rest;
      TrimLeftPadded(pre[1..], rest, cutset);
    }
  }

  lemma {:induction false} TrimRightPadded(core: string, post: string, cutset: set<char>)
    requires AllIn(post, cutset)
    requires core == [] || core[|core| - 1] !in cutset
    ensures TrimRight(core + post, cutset) == core
  {
    if post != [] {
      assert (core + post)[..|core + post| - 1] == core + post[..|post| - 1];
      TrimRightPadded(core, post[..|post| - 1], cutset);
    }
  }

  /** Trim removes exactly the padding: a core that neither starts nor ends with a cutset
   *  character comes back unchanged whatever cutset padding surrounds it. */
  lemma TrimPadded(pre: string, core: string, post: string, cutset: set<char>)
    requires AllIn(pre, cutset) && AllIn(post, cutset)
    requires core == [] || (core[0] !in cutset && core[|core| - 1] !in cutset)
    ensures Trim(pre + core + post, cutset) == core
  {
    if core == [] {
      assert pre + core + post == (pre + post) + [];
      TrimLeftPadded(pre + post, [], cutset);
    } else {
      assert pre + core + post == pre + (core + post);
      TrimLeftPadded(pre, core + post, cutset);
      TrimRightPadded(core, post, cutset);
    }
  }

  // ---------------------------------------------------------------------------------------
  // Case and substrings (ASCII only)

  predicate IsUpper(c: char) {
    'A' <= c <= 'Z'
  }

  /** Lower-cases one ASCII character: a capital becomes the small letter at the same place
   *  in the alphabet, and nothing else is touched. */
  function LowerChar(c: char): (r: char)
    ensures !IsUpper(r)
    ensures IsUpper(c) ==> 'a' <= r <= 'z' && r as int - 'a' as int == c as int - 'A' as int
    ensures !IsUpper(c) ==> r == c
  {
    if IsUpper(c) then (c as int + 32) as char else c
  }

  /** `strings.ToLower` on ASCII text: no capital is left, every other character stays where
   *  it was, and each capital becomes its own small letter. */
  function ToLower(s: string): (r: string)
    ensures |r| == |s|
    ensures forall i :: 0 <= i < |r| ==> !IsUpper(r[i])
    ensures forall i :: 0 <= i < |s| && !IsUpper(s[i]) ==> r[i] == s[i]
    ensures forall i :: 0 <= i < |s| && IsUpper(s[i]) ==> r[i] as int - 'a' as int == s[i] as int - 'A' as int
  {
    seq(|s|, i requires 0 <= i < |s| => LowerChar(s[i]))
  }

  /** Lower-casing leaves exactly the text without capitals alone, so it is idempotent. */
  lemma ToLowerIdempotent(s: string)
    ensures ToLower(s) == s <==> forall i :: 0 <= i < |s| ==> !IsUpper(s[i])
    ensures ToLower(ToLower(s)) == ToLower(s)
  {
    var t := ToLower(s);
    forall i | 0 <= i < |t| ensures ToLower(t)[i] == t[i] {
      assert !IsUpper(t[i]);
    }
    if forall i :: 0 <= i < |s| ==> !IsUpper(s[i]) {
      assert forall i :: 0 <= i < |s| ==> t[i] == s[i];
    }
  }

  /** `strings.HasPrefix`. */
  predicate HasPrefix<T(==)>(s: seq<T>, prefix: seq<T>) {
    |prefix| <= |s| && s[..|prefix|] == prefix
  }

  predicate OccursAt(s: string, sub: string, i: int) {
    0 <= i && i + |sub| <= |s| && s[i..i + |sub|] == sub
  }

  /** `strings.Contains`. */
  function Contains(s: string, sub: string): (b: bool)
    ensures b <==> exists i :: OccursAt(s, sub, i)
  {
    if HasPrefix(s, sub) then
      assert OccursAt(s, sub, 0);
      true
    else if |s| == 0 then
      assert forall i :: OccursAt(s, sub, i) ==> i == 0;
      false
    else
      var rest := Contains(s[1..], sub);
      assert forall i :: OccursAt(s[1..], sub, i) ==> OccursAt(s, sub, i + 1) by {
        forall i | OccursAt(s[1..], sub, i) ensures OccursAt(s, sub, i + 1) {
          assert s[i + 1..i + 1 + |sub|] == s[1..][i..i + |sub|];
        }
      }
      assert forall i :: OccursAt(s, sub, i) && i > 0 ==> OccursAt(s[1..], sub, i - 1) by {
        forall i | OccursAt(s, sub, i) && i > 0 ensures OccursAt(s[1..], sub, i - 1) {
          assert s[1..][i - 1..i - 1 + |sub|] == s[i..i + |sub|];
        }
      }
      rest
  }

  // ---------------------------------------------------------------------------------------
  // Decimal numbers (`%d`, `strconv.Itoa`, JSON integers)

  predicate IsDigit(c: char) {
    '0' <= c <= '9'
  }

  predicate AllDigits(s: string) {
    forall i :: 0 <= i < |s| ==> IsDigit(s[i])
  }

  function DigitChar(d: nat): (c: char)
    requires d < 10
    ensures IsDigit(c) && c as int - '0' as int == d
  {
    ('0' as int + d) as char
  }

  /** The decimal digits of a natural number, most significant first, without leading zeros. */
  function NatToDecimal(n: nat): (s: string)
    ensures |s| >= 1 && AllDigits(s)
    ensures |s| > 1 ==> s[0] != '0'
  {
    if n < 10 then [DigitChar(n)]
    else
      var hi := NatToDecimal(n / 10);
      hi + [DigitChar(n % 10)]
  }

  /** Go's `%d` of an integer. */
  function IntToDecimal(n: int): (s: string)
    ensures |s| >= 1
    ensures n >= 0 ==> AllDigits(s)
    ensures n < 0 ==> s[0] == '-' && AllDigits(s[1..])
  {
    if n < 0 then "-" + NatToDecimal(-n) else NatToDecimal(n)
  }

  /** The value of a string of decimal digits. */
  function DecimalValue(s: string): nat
    requires AllDigits(s)
  {
    if s == [] then 0 else DecimalValue(s[..|s| - 1]) * 10 + (s[|s| - 1] as int - '0' as int)
  }

  /** A reference reader for decimal integers: an optional minus sign, then one or more digits. */
  function ParseDecimal(s: string): Option<int>
  {
    if |s| > 1 && s[0] == '-' && AllDigits(s[1..]) then
      var magnitude: int := DecimalValue(s[1..]);
      Some(-magnitude)
    else if |s| > 0 && AllDigits(s) then Some(DecimalValue(s))
    else None
  }

  lemma {:induction false} NatDecimalRoundTrip(n: nat)
    ensures DecimalValue(NatToDecimal(n)) == n
  {
    if n >= 10 {
      NatDecimalRoundTrip(n / 10);
      var s := NatToDecimal(n);
      assert s[..|s| - 1] == NatToDecimal(n / 10);
    }
  }

  /** `%d` can be read back: every integer survives formatting and parsing. */
  lemma DecimalRoundTrip(n: int)
    ensures ParseDecimal(IntToDecimal(n)) == Some(n)
  {
    var s := IntToDecimal(n);
    if n < 0 {
      NatDecimalRoundTrip(-n);
      assert s[1..] == NatToDecimal(-n);
    } else {
      NatDecimalRoundTrip(n);
      assert s[0] != '-';
    }
  }

  /** `%d` writes ASCII digits and at most a leading minus sign, so it never contains a
   *  separator of the formats built around it. */
  lemma DecimalIsPlain(n: int)
    ensures IsAscii(IntToDecimal(n))
    ensures forall i :: 0 <= i < |IntToDecimal(n)| ==> IsDigit(IntToDecimal(n)[i]) || (i == 0 && IntToDecimal(n)[i] == '-')
  {
    var s := IntToDecimal(n);
    if n < 0 {
      forall i | 1 <= i < |s| ensures IsDigit(s[i]) {
        assert s[i] == s[1..][i - 1];
      }
    }
  }

  /** Formatting is injective: different numbers never print the same. */
  lemma DecimalInjective(m: int, n: int)
    requires IntToDecimal(m) == IntToDecimal(n)
    ensures m == n
  {
    DecimalRoundTrip(m);
    DecimalRoundTrip(n);
  }

  // ---------------------------------------------------------------------------------------
  // Hexadecimal (`%x`, `%02x`, `%08x`, lower case)

  predicate IsHexDigit(c: char) {
    '0' <= c <= '9' || 'a' <= c <= 'f'
  }

  /** A reference reader for one lower-case hexadecimal digit: its value, or -1. */
  function HexCharValue(c: char): (r: int)
    ensures -1 <= r < 16
    ensures r >= 0 <==> IsHexDigit(c)
  {
    if '0' <= c <= '9' then c as int - '0' as int
    else if 'a' <= c <= 'f' then c as int - 'a' as int + 10
    else -1
  }

  /** The lower-case hexadecimal digit for a value below 16: it reads back as that value. */
  function HexDigitChar(d: nat): (c: char)
    requires d < 16
    ensures HexCharValue(c) == d
  {
    if d < 10 then ('0' as int + d) as char else ('a' as int + (d - 10)) as char
  }

  predicate AllHexDigits(s: string) {
    forall i :: 0 <= i < |s| ==> IsHexDigit(s[i])
  }

  /** Go's `%x` of a natural number: hexadecimal digits, most significant first, without
   *  leading zeros. */
  function NatToHex(n: nat): (s: string)
    ensures |s| >= 1 && AllHexDigits(s)
    ensures |s| > 1 ==> s[0] != '0'
  {
    if n < 16 then [HexDigitChar(n)] else NatToHex(n / 16) + [HexDigitChar(n % 16)]
  }

  /** The value of a string of hexadecimal digits. */
  function HexValue(s: string): nat
    requires AllHexDigits(s)
  {
    if s == [] then 0 else HexValue(s[..|s| - 1]) * 16 + HexCharValue(s[|s| - 1])
  }

  /** A reference reader for the `%x` of an integer: an optional minus sign, then one or
   *  more hexadecimal digits. */
  function ParseHex(s: string): Option<int>
  {
    if |s| > 1 && s[0] == '-' && AllHexDigits(s[1..]) then
      var magnitude: int := HexValue(s[1..]);
      Some(-magnitude)
    else if |s| > 0 && AllHexDigits(s) then Some(HexValue(s))
    else None
  }

  /** The reader on hexadecimal digits, and on hexadecimal digits after a minus sign. */
  lemma ParseHexDigits(p: string)
    requires |p| > 0 && AllHexDigits(p)
    ensures ParseHex(p) == Some(HexValue(p) as int)
  {
    assert IsHexDigit(p[0]);
  }

  lemma ParseHexNegated(t: string)
    requires |t| > 1 && t[0] == '-' && AllHexDigits(t[1..])
    ensures ParseHex(t) == Some(-(HexValue(t[1..]) as int))
  {
  }

  lemma {:induction false} NatHexRoundTrip(n: nat)
    ensures HexValue(NatToHex(n)) == n
  {
    if n >= 16 {
      NatHexRoundTrip(n / 16);
      var s := NatToHex(n);
      assert s[..|s| - 1] == NatToHex(n / 16);
    }
  }

  /** Leading zeros do not change the value of hexadecimal digits. */
  lemma {:induction false} HexLeadingZeros(k: nat, s: string)
    requires AllHexDigits(s)
    ensures AllHexDigits(seq(k, _ => '0') + s)
    ensures HexValue(seq(k, _ => '0') + s) == HexValue(s)
    decreases k + |s|
  {
    var t := seq(k, _ => '0') + s;
    assert AllHexDigits(t) by {
      forall i | 0 <= i < |t| ensures IsHexDigit(t[i]) {
        if i >= k { assert t[i] == s[i - k]; }
      }
    }
    if s != [] {
      HexLeadingZeros(k, s[..|s| - 1]);
      assert t[..|t| - 1] == seq(k, _ => '0') + s[..|s| - 1];
      assert t[|t| - 1] == s[|s| - 1];
    } else if k > 0 {
      HexLeadingZeros(k - 1, s);
      assert t[..|t| - 1] == seq(k - 1, _ => '0') + s;
      assert t[|t| - 1] == '0';
    }
  }

  /** Left-pads with zeros up to a width, as the `0` flag of Go's `fmt` does. */
  function ZeroPad(s: string, width: nat): (r: string)
    ensures |r| == if |s| < width then width else |s|
    ensures r[|r| - |s|..] == s
    ensures forall i :: 0 <= i < |r| - |s| ==> r[i] == '0'
  {
    if |s| < width then seq(width - |s|, _ => '0') + s else s
  }
  /** Zero padding keeps hexadecimal digits and their value. */
  lemma ZeroPadHex(s: string, width: nat)
    requires AllHexDigits(s)
    ensures AllHexDigits(ZeroPad(s, width))
    ensures HexValue(ZeroPad(s, width)) == HexValue(s)
  {
    var k: nat := if |s| < width then width - |s| else 0;
    assert ZeroPad(s, width) == seq(k, _ => '0') + s;
    HexLeadingZeros(k, s);
  }

}
