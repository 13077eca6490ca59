/** The string predicates and conversions the core borrows from Go's
 *  libraries: `big.Int.SetString(s, 10)`, go-ethereum's `IsHexAddress`,
 *  `HexToAddress`, `hexutil.Decode` and `hexutil.DecodeBig`, and
 *  `strings.ReplaceAll`, `strings.Split` and `strings.Contains`. A Go
 *  string is modelled as its sequence of characters; `[]byte(s)` is the
 *  UTF-8 encoding of those characters. */
module Text {
  import opened Common

  // ---------------------------------------------------------------------
  // Decimal integers: big.Int.SetString(s, 10)
  // ---------------------------------------------------------------------

  predicate IsDigit(c: char) {
    '0' <= c <= '9'
  }

  predicate AllDigits(s: string) {
    forall i :: 0 <= i < |s| ==> IsDigit(s[i])
  }

  function DigitValue(c: char): (d: nat)
    requires IsDigit(c)
    ensures d < 10
  {
    c as int - '0' as int
  }

  function DigitChar(d: nat): (c: char)
    requires d < 10
    ensures IsDigit(c) && DigitValue(c) == d
  {
    ('0' as int + d) as char
  }

  /** The number a run of decimal digits denotes, most significant first. */
  function DigitsValue(s: string): nat
    requires AllDigits(s)
    decreases |s|
  {
    if |s| == 0 then 0 else DigitsValue(s[..|s| - 1]) * 10 + DigitValue(s[|s| - 1])
  }

  /** `big.Int.SetString(s, 10)`: an optional '+' or '-', then one or more
   *  decimal digits and nothing else; there is no range limit. */
  function ParseDecimal(s: string): (r: Option<int>)
    ensures r.Some? ==> |s| > 0 && exists i :: 0 <= i < |s| && IsDigit(s[i])
    ensures r.Some? ==> forall i :: 0 < i < |s| ==> IsDigit(s[i])
    ensures r.Some? && IsDigit(s[0]) ==> r.value >= 0
  {
    if |s| > 0 && (s[0] == '+' || s[0] == '-') then
      if |s| > 1 && AllDigits(s[1..]) then
        assert IsDigit(s[1..][0]);
        var magnitude: int := DigitsValue(s[1..]);
        Some(if s[0] == '-' then -magnitude else magnitude)
      else None
    else if |s| > 0 && AllDigits(s) then
      assert IsDigit(s[0]);
      Some(DigitsValue(s))
    else None
  }

  /** The shortest decimal spelling of a natural number. */
  function FormatNat(n: nat): (s: string)
    ensures |s| > 0 && AllDigits(s)
    decreases n
  {
    if n < 10 then [DigitChar(n)] else FormatNat(n / 10) + [DigitChar(n % 10)]
  }

  /** The decimal spelling of an integer, with '-' for negatives. */
  function FormatInt(n: int): string {
    if n < 0 then "-" + FormatNat(-n) else FormatNat(n)
  }

  lemma {:induction false} FormatNatValue(n: nat)
    ensures DigitsValue(FormatNat(n)) == n
    decreases n
  {
    if n >= 10 {
      var s := FormatNat(n / 10);
      FormatNatValue(n / 10);
      assert (s + [DigitChar(n % 10)])[..|s|] == s;
    }
  }

  /** Every integer survives a trip through its decimal spelling. */
  lemma DecimalRoundTrip(n: int)
    ensures ParseDecimal(FormatInt(n)) == Some(n)
  {
    if n < 0 {
      NegativeRoundTrip(-n);
    } else {
      var s := FormatNat(n);
      assert IsDigit(s[0]);
      FormatNatValue(n);
    }
  }

  lemma NegativeRoundTrip(m: nat)
    requires m > 0
    ensures ParseDecimal("-" + FormatNat(m)) == Some(-(m as int))
  {
    var s := FormatNat(m);
    var t := "-" + s;
    assert t[0] == '-' && |t| > 1;
    assert t[1..] == s;
    FormatNatValue(m);
  }

  /** A spelling with a comma or a space in it is never a number. */
  lemma DecimalHasNoSeparator(s: string, c: char)
    requires c == ',' || c == ' '
    requires c in s
    ensures ParseDecimal(s).None?
  {
  }

  // ---------------------------------------------------------------------
  // Hexadecimal digits and byte strings: encoding/hex, hexutil.Decode
  // ---------------------------------------------------------------------

  predicate IsHexDigit(c: char) {
    '0' <= c <= '9' || 'a' <= c <= 'f' || 'A' <= c <= 'F'
  }

  predicate AllHex(s: string) {
    forall i :: 0 <= i < |s| ==> IsHexDigit(s[i])
  }

  function HexValue(c: char): (v: nat)
    requires IsHexDigit(c)
    ensures v < 16
  {
    if '0' <= c <= '9' then c as int - '0' as int
    else if 'a' <= c <= 'f' then c as int - 'a' as int + 10
    else c as int - 'A' as int + 10
  }

  /** The lower-case hex digit of a nibble. */
  function HexChar(v: nat): (c: char)
    requires v < 16
    ensures IsHexDigit(c) && HexValue(c) == v
  {
    if v < 10 then ('0' as int + v) as char else ('a' as int + v - 10) as char
  }

  /** A "0x" or "0X" prefix (go-ethereum's has0xPrefix). */
  predicate HasHexPrefix(s: string) {
    |s| >= 2 && s[0] == '0' && (s[1] == 'x' || s[1] == 'X')
  }

  /** `hex.DecodeString`: an even number of hex digits in either case, two
   *  per byte, the high nibble first. */
  function DecodeHexDigits(s: string): (r: Option<seq<Byte>>)
    ensures r.Some? <==> |s| % 2 == 0 && AllHex(s)
    ensures r.Some? ==> |r.value| == |s| / 2
    decreases |s|
  {
    if |s| == 0 then Some([])
    else if |s| < 2 || !IsHexDigit(s[0]) || !IsHexDigit(s[1]) then None
    else match DecodeHexDigits(s[2..])
      case None => None
      case Some(rest) => Some([HexValue(s[0]) * 16 + HexValue(s[1])] + rest)
  }

  /** Byte k of a decoded run comes from digits 2k and 2k+1, high nibble first. */
  lemma {:induction false} DecodeHexDigitsBytes(s: string)
    requires DecodeHexDigits(s).Some?
    ensures var r := DecodeHexDigits(s).value;
      forall k :: 0 <= k < |r| ==> r[k] == HexValue(s[2 * k]) * 16 + HexValue(s[2 * k + 1])
    decreases |s|
  {
    if |s| > 0 {
      var t := s[2..];
      DecodeHexDigitsBytes(t);
      assert forall k :: 1 <= k < |s| / 2 ==> t[2 * (k - 1)] == s[2 * k] && t[2 * (k - 1) + 1] == s[2 * k + 1];
    }
  }

  /** `hex.EncodeToString`: two lower-case hex digits per byte. */
  function EncodeHex(b: seq<Byte>): (s: string)
    ensures |s| == 2 * |b| && AllHex(s)
  {
    if |b| == 0 then [] else [HexChar(b[0] / 16), HexChar(b[0] % 16)] + EncodeHex(b[1..])
  }

  lemma {:induction false} HexRoundTrip(b: seq<Byte>)
    ensures DecodeHexDigits(EncodeHex(b)) == Some(b)
  {
    if |b| > 0 {
      var s := EncodeHex(b);
      assert s[2..] == EncodeHex(b[1..]);
      HexRoundTrip(b[1..]);
      assert [b[0]] + b[1..] == b;
    }
  }

  /** `hexutil.Decode`: a "0x" or "0X" prefix, then an even number of hex
   *  digits; "0x" alone is the empty byte string. */
  function DecodeHex(s: string): (r: Option<seq<Byte>>)
    ensures r.Some? <==> HasHexPrefix(s) && |s| % 2 == 0 && AllHex(s[2..])
  {
    if |s| == 0 || !HasHexPrefix(s) then None else DecodeHexDigits(s[2..])
  }

  // ---------------------------------------------------------------------
  // Addresses: common.IsHexAddress, common.HexToAddress
  // ---------------------------------------------------------------------

  /** The hex digits of an address spelling, without its optional prefix. */
  function AddressDigits(s: string): string {
    if HasHexPrefix(s) then s[2..] else s
  }

  /** `IsHexAddress`: an optional "0x"/"0X", then exactly 40 hex digits of
   *  either case; the EIP-55 checksum is not enforced. */
  predicate IsHexAddress(s: string): (b: bool)
    ensures b <==> (|s| == 40 && AllHex(s)) || (|s| == 42 && HasHexPrefix(s) && AllHex(s[2..]))
  {
    var d := AddressDigits(s);
    |d| == 40 && AllHex(d)
  }

  /** `HexToAddress` on a spelling that `IsHexAddress` accepts. */
  function HexToAddress(s: string): (a: Address)
    requires IsHexAddress(s)
    ensures var d := AddressDigits(s);
      forall k :: 0 <= k < 20 ==> a[k] == HexValue(d[2 * k]) * 16 + HexValue(d[2 * k + 1])
  {
    DecodeHexDigitsBytes(AddressDigits(s));
    DecodeHexDigits(AddressDigits(s)).value
  }

  /** Every address spelled as "0x" and 40 hex digits is read back as itself. */
  lemma AddressRoundTrip(a: Address)
    ensures IsHexAddress("0x" + EncodeHex(a))
    ensures HexToAddress("0x" + EncodeHex(a)) == a
  {
    var s := "0x" + EncodeHex(a);
    assert s[2..] == EncodeHex(a);
    HexRoundTrip(a);
  }

  // ---------------------------------------------------------------------
  // Hex quantities: hexutil.DecodeBig
  // ---------------------------------------------------------------------

  /** The number a run of hex digits denotes, most significant first. */
  function HexDigitsValue(s: string): nat
    requires AllHex(s)
    decreases |s|
  {
    if |s| == 0 then 0 else HexDigitsValue(s[..|s| - 1]) * 16 + HexValue(s[|s| - 1])
  }

  function Pow16(k: nat): (p: nat)
    ensures p >= 1
  {
    if k == 0 then 1 else 16 * Pow16(k - 1)
  }

  lemma {:induction false} HexDigitsBound(s: string)
    requires AllHex(s)
    ensures HexDigitsValue(s) < Pow16(|s|)
    decreases |s|
  {
    if |s| > 0 {
      HexDigitsBound(s[..|s| - 1]);
    }
  }

  /** `hexutil.DecodeBig`: "0x" or "0X", then a non-empty hex quantity with
   *  no leading zero and at most 64 digits (256 bits); each failure has its
   *  own error. The length limit counts UTF-8 bytes, as Go's `len` does, and
   *  comes before the digits are checked. */
  function DecodeBig(s: string): (r: Result<nat, HexError>)
    ensures r.Ok? ==> r.value < Pow16(64)
  {
    if |s| == 0 then Err(EmptyString)
    else if !HasHexPrefix(s) then Err(MissingPrefix)
    else if |s| == 2 then Err(EmptyNumber)
    else if |s| > 3 && s[2] == '0' then Err(LeadingZero)
    else if |Utf8(s[2..])| > 64 then Err(Big256Range)
    else if !AllHex(s[2..]) then Err(Syntax)
    else
      HexDigitsBound(s[2..]);
      PowMonotone(|s| - 2, 64);
      Ok(HexDigitsValue(s[2..]))
  }

  lemma {:induction false} PowMonotone(j: nat, k: nat)
    requires j <= k
    ensures Pow16(j) <= Pow16(k)
    decreases k
  {
    if j < k {
      PowMonotone(j, k - 1);
    }
  }

  /** The shortest lower-case hex spelling of a natural number. */
  function FormatHex(n: nat): (s: string)
    ensures |s| > 0 && AllHex(s)
    ensures n > 0 ==> s[0] != '0'
    decreases n
  {
    if n < 16 then [HexChar(n)] else FormatHex(n / 16) + [HexChar(n % 16)]
  }

  lemma {:induction false} FormatHexFacts(n: nat, k: nat)
    requires n < Pow16(k)
    ensures HexDigitsValue(FormatHex(n)) == n
    ensures k > 0 ==> |FormatHex(n)| <= k
    decreases n
  {
    if n >= 16 {
      var s := FormatHex(n / 16);
      FormatHexFacts(n / 16, k - 1);
      assert (s + [HexChar(n % 16)])[..|s|] == s;
    }
  }

  /** Every quantity below 2^256 survives `hexutil.EncodeBig` then `DecodeBig`. */
  lemma DecodeBigRoundTrip(n: nat)
    requires n < Pow16(64)
    ensures DecodeBig("0x" + FormatHex(n)) == Ok(n)
  {
    var s := "0x" + FormatHex(n);
    FormatHexFacts(n, 64);
    assert s[2..] == FormatHex(n);
    HexIsAscii(FormatHex(n));
    Utf8Ascii(FormatHex(n));
  }

  /** Hex digits are ASCII, one byte each in UTF-8. */
  lemma HexIsAscii(s: string)
    requires AllHex(s)
    ensures forall i :: 0 <= i < |s| ==> s[i] as int < 0x80
  {
  }

  // ---------------------------------------------------------------------
  // strings.ReplaceAll(s, " ", ""), strings.Split(s, ","), strings.Contains(s, "0x")
  // ---------------------------------------------------------------------

  /** `strings.ReplaceAll(s, " ", "")`: drops every space (and only the
   *  space character), keeping the rest in order. */
  function RemoveSpaces(s: string): (r: string)
    ensures |r| <= |s|
    ensures ' ' !in s ==> r == s
  {
    if |s| == 0 then []
    else if s[0] == ' ' then RemoveSpaces(s[1..])
    else [s[0]] + RemoveSpaces(s[1..])
  }

  /** `RemoveSpaces` keeps exactly the input's characters other than ' '. */
  lemma {:induction false} RemoveSpacesChars(s: string)
    ensures forall c :: c in RemoveSpaces(s) <==> c in s && c != ' '
    decreases |s|
  {
    if |s| > 0 {
      RemoveSpacesChars(s[1..]);
      assert s == [s[0]] + s[1..];
    }
  }

  /** `strings.Split(s, ",")`: the pieces between commas, in order; the
   *  empty string splits into one empty piece. */
  function Split(s: string): (r: seq<string>)
    ensures |r| >= 1
    ensures forall k :: 0 <= k < |r| ==> ',' !in r[k]
  {
    if |s| == 0 then [""]
    else
      var rest := Split(s[1..]);
      if s[0] == ',' then [""] + rest
      else [[s[0]] + rest[0]] + rest[1..]
  }

  /** `strings.Join(ts, ",")`. */
  function Join(ts: seq<string>): string
    requires |ts| >= 1
  {
    if |ts| == 1 then ts[0] else ts[0] + "," + Join(ts[1..])
  }

  /** Splitting loses nothing: joining the pieces gives the input back. */
  lemma {:induction false} JoinSplit(s: string)
    ensures Join(Split(s)) == s
  {
    if |s| > 0 {
      var rest := Split(s[1..]);
      JoinSplit(s[1..]);
      if s[0] == ',' {
        assert Join([""] + rest) == "" + "," + Join(rest);
      } else {
        var r := [[s[0]] + rest[0]] + rest[1..];
        if |rest| == 1 {
          assert r == [[s[0]] + rest[0]];
        } else {
          assert r[1..] == rest[1..];
          assert Join(rest) == rest[0] + "," + Join(rest[1..]);
        }
      }
    }
  }

  lemma {:induction false} SplitComma(u: string)
    ensures Split("," + u) == [""] + Split(u)
  {
    assert ("," + u)[1..] == u;
  }

  lemma {:induction false} SplitNoComma(t: string, u: string)
    requires ',' !in t
    ensures Split(t + u) == [t + Split(u)[0]] + Split(u)[1..]
    decreases |t|
  {
    if |t| > 0 {
      var tu := t + u;
      assert tu[0] == t[0] && t[0] != ',';
      assert tu[1..] == t[1..] + u;
      SplitNoComma(t[1..], u);
      var rest := Split(tu[1..]);
      assert rest == [t[1..] + Split(u)[0]] + Split(u)[1..];
      assert rest[0] == t[1..] + Split(u)[0] && rest[1..] == Split(u)[1..];
      assert Split(tu) == [[t[0]] + rest[0]] + rest[1..];
      assert [t[0]] + t[1..] == t;
      assert [t[0]] + (t[1..] + Split(u)[0]) == t + Split(u)[0];
    } else {
      assert t + u == u && t + Split(u)[0] == Split(u)[0];
      assert [Split(u)[0]] + Split(u)[1..] == Split(u);
    }
  }

  /** Joining comma-free pieces and splitting again gives the pieces back. */
  lemma {:induction false} SplitJoin(ts: seq<string>)
    requires |ts| >= 1
    requires forall k :: 0 <= k < |ts| ==> ',' !in ts[k]
    ensures Split(Join(ts)) == ts
    decreases |ts|
  {
    if |ts| == 1 {
      SplitNoComma(ts[0], "");
      assert ts[0] + "" == ts[0];
    } else {
      SplitJoin(ts[1..]);
      var u := "," + Join(ts[1..]);
      assert Join(ts) == ts[0] + u;
      SplitNoComma(ts[0], u);
      SplitComma(Join(ts[1..]));
      assert ts[0] + "" == ts[0];
      assert [ts[0]] + ts[1..] == ts;
    }
  }

  /** `strings.Contains(s, "0x")` (lower-case x only). */
  predicate ContainsHexMarker(s: string): (b: bool)
    ensures b ==> |s| >= 2 && '0' in s && 'x' in s
    ensures |s| >= 2 && s[0] == '0' && s[1] == 'x' ==> b
  {
    exists i :: 0 <= i < |s| - 1 && s[i] == '0' && s[i + 1] == 'x'
  }

  // ---------------------------------------------------------------------
  // []byte(s): the UTF-8 encoding of a string
  // ---------------------------------------------------------------------

  /** The UTF-8 encoding of one Unicode scalar value. */
  function EncodeChar(c: char): (b: seq<Byte>)
    ensures 1 <= |b| <= 4
    ensures (c as int < 0x80) <==> |b| == 1
    ensures |b| == 1 ==> b[0] == c as int
  {
    var n := c as int;
    if n < 0x80 then [n]
    else if n < 0x800 then [0xC0 + n / 0x40, 0x80 + n % 0x40]
    else if n < 0x10000 then [0xE0 + n / 0x1000, 0x80 + (n / 0x40) % 0x40, 0x80 + n % 0x40]
    else [0xF0 + n / 0x40000, 0x80 + (n / 0x1000) % 0x40, 0x80 + (n / 0x40) % 0x40, 0x80 + n % 0x40]
  }

  /** `[]byte(s)` for a string of Unicode scalar values. */
  function Utf8(s: string): (b: seq<Byte>)
    ensures |s| <= |b| <= 4 * |s|
  {
    if |s| == 0 then [] else EncodeChar(s[0]) + Utf8(s[1..])
  }

  /** An ASCII string is its own byte string, one byte per character. */
  lemma {:induction false} Utf8Ascii(s: string)
    requires forall i :: 0 <= i < |s| ==> s[i] as int < 0x80
    ensures |Utf8(s)| == |s|
    ensures forall i :: 0 <= i < |s| ==> Utf8(s)[i] == s[i] as int
  {
    if |s| > 0 {
      Utf8Ascii(s[1..]);
    }
  }
}
