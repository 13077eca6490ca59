/** The argument marshaller (`handleData`, core/core.go): a closed switch on
 *  the ABI type name that turns one string argument into a typed value or
 *  a "wrong data type" error. `Marshal` is its specification as a function;
 *  `HandleData` is the step-by-step conversion, with the token loops of the
 *  array types, proved equal to it. */
module Marshaller {
  import opened Common
  import opened Text

  const IntegerTypes: set<string> := {"uint256", "int256", "uint128", "int128"}
  const IntegerArrayTypes: set<string> := {"uint256[]", "int256[]", "uint128[]", "int128[]"}
  const ByteTypes: set<string> := {"bytes", "int8", "bytes32"}

  /** Every type name the switch has a case for. */
  function SupportedTypes(): set<string> {
    IntegerTypes + IntegerArrayTypes + ByteTypes + {"address", "address[]", "bool", "bool[]"}
  }

  /** The error of a rejected argument: its name, its type and the value. */
  function WrongType(arg: AbiArgument, actual: string): Error {
    WrongDataType(arg.name, arg.typ, actual)
  }

  /** The elements of an array argument: spaces removed, then split on ','. */
  function Tokens(ps: string): seq<string> {
    Split(RemoveSpaces(ps))
  }

  /** A single bool element: exactly "true" or "false". */
  function BoolToken(s: string): Option<bool> {
    if s == "true" then Some(true) else if s == "false" then Some(false) else None
  }

  /** A single address element. */
  function AddressToken(s: string): Option<Address> {
    if IsHexAddress(s) then Some(HexToAddress(s)) else None
  }

  /** Every token converted by `convert`, in order, or None when any token
   *  is rejected. */
  function ConvertEach<T>(toks: seq<string>, convert: string -> Option<T>): (r: Option<seq<T>>)
  {
    if forall k :: 0 <= k < |toks| ==> convert(toks[k]).Some? then
      Some(seq(|toks|, k requires 0 <= k < |toks| => convert(toks[k]).value))
    else None
  }

  /** What `handleData` returns for an argument declared with `arg` and the
   *  string `ps`. Array errors report the value with its spaces removed. */
  function Marshal(arg: AbiArgument, ps: string): (r: Result<Value, Error>)
    ensures r.Ok? ==> arg.typ in SupportedTypes()
    ensures r.Err? ==> r.error.WrongDataType? && r.error.arg == arg.name && r.error.expected == arg.typ
  {
    var t := arg.typ;
    if t in IntegerTypes then
      match ParseDecimal(ps)
      case Some(n) => Ok(BigInt(n))
      case None => Err(WrongType(arg, ps))
    else if t in IntegerArrayTypes then
      match ConvertEach(Tokens(ps), ParseDecimal)
      case Some(ns) => Ok(BigInts(ns))
      case None => Err(WrongType(arg, RemoveSpaces(ps)))
    else if t == "address[]" then
      match ConvertEach(Tokens(ps), AddressToken)
      case Some(addrs) => Ok(Addrs(addrs))
      case None => Err(WrongType(arg, RemoveSpaces(ps)))
    else if t == "address" then
      if IsHexAddress(ps) then Ok(Addr(HexToAddress(ps))) else Err(WrongType(arg, ps))
    else if t == "bool" then
      match BoolToken(ps)
      case Some(b) => Ok(Bool(b))
      case None => Err(WrongType(arg, ps))
    else if t == "bool[]" then
      match ConvertEach(Tokens(ps), BoolToken)
      case Some(bs) => Ok(Bools(bs))
      case None => Err(WrongType(arg, RemoveSpaces(ps)))
    else if t in ByteTypes then
      if ContainsHexMarker(ps) then
        match DecodeHex(ps)
        case Some(b) => Ok(Bytes(b))
        case None => Err(WrongType(arg, ps))
      else Ok(Bytes(Utf8(ps)))
    else Err(WrongType(arg, ps))
  }

  /** The element loop of the array cases: converts the tokens one by one
   *  and stops at the first one `convert` rejects. */
  method ConvertTokens<T>(toks: seq<string>, convert: string -> Option<T>) returns (r: Option<seq<T>>)
    ensures r == ConvertEach(toks, convert)
  {
    var out: seq<T> := [];
    var i := 0;
    while i < |toks|
      invariant 0 <= i <= |toks|
      invariant |out| == i
      invariant forall k :: 0 <= k < i ==> convert(toks[k]).Some? && out[k] == convert(toks[k]).value
    {
      var c := convert(toks[i]);
      if c.None? {
        return None;
      }
      out := out + [c.value];
      i := i + 1;
    }
    assert out == seq(|toks|, k requires 0 <= k < |toks| => convert(toks[k]).value);
    return Some(out);
  }

  /** `handleData`: the switch on the type name, proved to compute `Marshal`. */
  method HandleData(arg: AbiArgument, ps: string) returns (r: Result<Value, Error>)
    ensures r == Marshal(arg, ps)
  {
    var typeName := arg.typ;
    if typeName in IntegerTypes {
      var b := ParseDecimal(ps);
      if b.None? {
        return Err(WrongType(arg, ps));
      }
      return Ok(BigInt(b.value));
    } else if typeName in IntegerArrayTypes {
      var stripped := RemoveSpaces(ps);
      var bs := ConvertTokens(Split(stripped), ParseDecimal);
      if bs.None? {
        return Err(WrongType(arg, stripped));
      }
      return Ok(BigInts(bs.value));
    } else if typeName == "address[]" {
      var stripped := RemoveSpaces(ps);
      var addrs := ConvertTokens(Split(stripped), AddressToken);
      if addrs.None? {
        return Err(WrongType(arg, stripped));
      }
      return Ok(Addrs(addrs.value));
    } else if typeName == "address" {
      if !IsHexAddress(ps) {
        return Err(WrongType(arg, ps));
      }
      return Ok(Addr(HexToAddress(ps)));
    } else if typeName == "bool" {
      if ps == "false" {
        return Ok(Bool(false));
      } else if ps == "true" {
        return Ok(Bool(true));
      }
      return Err(WrongType(arg, ps));
    } else if typeName == "bool[]" {
      var stripped := RemoveSpaces(ps);
      var bs := ConvertTokens(Split(stripped), BoolToken);
      if bs.None? {
        return Err(WrongType(arg, stripped));
      }
      return Ok(Bools(bs.value));
    } else if typeName in ByteTypes {
      if ContainsHexMarker(ps) {
        var b := DecodeHex(ps);
        if b.None? {
          return Err(WrongType(arg, ps));
        }
        return Ok(Bytes(b.value));
      }
      return Ok(Bytes(Utf8(ps)));
    }
    return Err(WrongType(arg, ps));
  }

  // ---------------------------------------------------------------------
  // Properties of the conversion
  // ---------------------------------------------------------------------

  /** The grammar is closed: only the listed type names can succeed, and any
   *  other name fails for every input, reporting that input. */
  lemma ClosedTypeGrammar(arg: AbiArgument, ps: string)
    ensures Marshal(arg, ps).Ok? ==> arg.typ in SupportedTypes()
    ensures arg.typ !in SupportedTypes() ==> Marshal(arg, ps) == Err(WrongDataType(arg.name, arg.typ, ps))
  {
  }

  /** Scalar integers: success exactly for base-10 spellings, with their
   *  value and no range check; otherwise the error carries the input. */
  lemma ScalarInteger(arg: AbiArgument, ps: string)
    requires arg.typ in IntegerTypes
    ensures Marshal(arg, ps).Ok? <==> ParseDecimal(ps).Some?
    ensures Marshal(arg, ps).Ok? ==> Marshal(arg, ps).value == BigInt(ParseDecimal(ps).value)
    ensures Marshal(arg, ps).Err? ==> Marshal(arg, ps).error == WrongType(arg, ps)
  {
  }

  /** Any integer at all, however far outside the type's range, is accepted
   *  for every integer type when spelled in decimal. */
  lemma ScalarIntegerRoundTrip(arg: AbiArgument, n: int)
    requires arg.typ in IntegerTypes
    ensures Marshal(arg, FormatInt(n)) == Ok(BigInt(n))
  {
    DecimalRoundTrip(n);
  }

  /** The array types and the element conversion each one applies. */
  predicate ArrayCase(t: string) {
    t in IntegerArrayTypes || t == "address[]" || t == "bool[]"
  }

  /** The element a token converts to under an array type, if any. */
  function ElementOf(t: string, tok: string): Option<Value>
    requires ArrayCase(t)
  {
    if t in IntegerArrayTypes then
      (match ParseDecimal(tok) case Some(n) => Some(BigInt(n)) case None => None)
    else if t == "address[]" then
      (match AddressToken(tok) case Some(a) => Some(Addr(a)) case None => None)
    else
      (match BoolToken(tok) case Some(b) => Some(Bool(b)) case None => None)
  }

  /** The number of elements an array value carries. */
  function ElementCount(v: Value): nat {
    match v
    case BigInts(ns) => |ns|
    case Addrs(addrs) => |addrs|
    case Bools(bs) => |bs|
    case _ => 0
  }

  /** The k-th element of an array value, as a scalar value. */
  function ElementAt(v: Value, k: nat): Value
    requires k < ElementCount(v)
  {
    match v
    case BigInts(ns) => BigInt(ns[k])
    case Addrs(addrs) => Addr(addrs[k])
    case Bools(bs) => Bool(bs[k])
  }

  /** Arrays: the argument succeeds exactly when every token converts; the
   *  value then has one element per token, the k-th from the k-th token;
   *  otherwise the error carries the input with its spaces removed. */
  lemma {:induction false} ArrayElements(arg: AbiArgument, ps: string)
    requires ArrayCase(arg.typ)
    ensures var toks := Tokens(ps);
      Marshal(arg, ps).Ok? <==> forall k :: 0 <= k < |toks| ==> ElementOf(arg.typ, toks[k]).Some?
    ensures var toks := Tokens(ps);
      Marshal(arg, ps).Ok? ==>
        && ElementCount(Marshal(arg, ps).value) == |toks|
        && forall k :: 0 <= k < |toks| ==> ElementAt(Marshal(arg, ps).value, k) == ElementOf(arg.typ, toks[k]).value
    ensures Marshal(arg, ps).Err? ==> Marshal(arg, ps).error == WrongType(arg, RemoveSpaces(ps))
  {
    var toks := Tokens(ps);
    var t := arg.typ;
    if t in IntegerArrayTypes {
      IntegerArrayCase(arg, ps);
      assert forall k :: 0 <= k < |toks| ==> (ElementOf(t, toks[k]).Some? <==> ParseDecimal(toks[k]).Some?);
    } else if t == "address[]" {
      AddressArrayCase(arg, ps);
      assert forall k :: 0 <= k < |toks| ==> (ElementOf(t, toks[k]).Some? <==> AddressToken(toks[k]).Some?);
    } else {
      BoolArrayCase(arg, ps);
      assert forall k :: 0 <= k < |toks| ==> (ElementOf(t, toks[k]).Some? <==> BoolToken(toks[k]).Some?);
    }
  }

  /** The address-array branch of the switch. */
  lemma AddressArrayCase(arg: AbiArgument, ps: string)
    requires arg.typ == "address[]"
    ensures Marshal(arg, ps) ==
      match ConvertEach(Tokens(ps), AddressToken)
      case Some(addrs) => Ok(Addrs(addrs))
      case None => Err(WrongType(arg, RemoveSpaces(ps)))
  {
  }

  /** The bool-array branch of the switch. */
  lemma BoolArrayCase(arg: AbiArgument, ps: string)
    requires arg.typ == "bool[]"
    ensures Marshal(arg, ps) ==
      match ConvertEach(Tokens(ps), BoolToken)
      case Some(bs) => Ok(Bools(bs))
      case None => Err(WrongType(arg, RemoveSpaces(ps)))
  {
  }

  /** An empty string is one empty token, which no array type accepts. */
  lemma EmptyArrayInputFails(arg: AbiArgument)
    requires ArrayCase(arg.typ)
    ensures Marshal(arg, "") == Err(WrongType(arg, ""))
  {
    ArrayElements(arg, "");
    assert RemoveSpaces("") == "";
    assert Tokens("") == [""];
    assert ElementOf(arg.typ, Tokens("")[0]).None?;
  }

  /** Decimal spellings joined by commas come back as the integers, in order. */
  lemma {:induction false} IntegerArrayRoundTrip(arg: AbiArgument, ns: seq<int>)
    requires arg.typ in IntegerArrayTypes
    requires |ns| >= 1
    ensures Marshal(arg, Join(seq(|ns|, k requires 0 <= k < |ns| => FormatInt(ns[k])))) == Ok(BigInts(ns))
  {
    var toks := seq(|ns|, k requires 0 <= k < |ns| => FormatInt(ns[k]));
    var ps := Join(toks);
    forall k | 0 <= k < |toks|
      ensures ',' !in toks[k] && ' ' !in toks[k] && ParseDecimal(toks[k]) == Some(ns[k])
    {
      DecimalRoundTrip(ns[k]);
      if ',' in toks[k] { DecimalHasNoSeparator(toks[k], ','); }
      if ' ' in toks[k] { DecimalHasNoSeparator(toks[k], ' '); }
    }
    NoSpaceInJoin(toks);
    SplitJoin(toks);
    assert Tokens(ps) == toks;
    var r := ConvertEach(toks, ParseDecimal);
    assert r.Some? && r.value == ns;
    IntegerArrayCase(arg, ps);
  }

  /** The integer-array branch of the switch. */
  lemma IntegerArrayCase(arg: AbiArgument, ps: string)
    requires arg.typ in IntegerArrayTypes
    ensures Marshal(arg, ps) ==
      match ConvertEach(Tokens(ps), ParseDecimal)
      case Some(ns) => Ok(BigInts(ns))
      case None => Err(WrongType(arg, RemoveSpaces(ps)))
  {
  }

  /** Joining space-free pieces with commas adds no space. */
  lemma {:induction false} NoSpaceInJoin(ts: seq<string>)
    requires |ts| >= 1
    requires forall k :: 0 <= k < |ts| ==> ' ' !in ts[k]
    ensures ' ' !in Join(ts)
    decreases |ts|
  {
    if |ts| > 1 {
      NoSpaceInJoin(ts[1..]);
    }
  }

  /** "true" and "false" are the only accepted spellings of a bool. */
  lemma BoolExact(arg: AbiArgument, ps: string)
    requires arg.typ == "bool"
    ensures Marshal(arg, ps) == Ok(Bool(true)) <==> ps == "true"
    ensures Marshal(arg, ps) == Ok(Bool(false)) <==> ps == "false"
    ensures Marshal(arg, ps).Err? <==> ps != "true" && ps != "false"
  {
  }

  /** An address argument succeeds exactly when `IsHexAddress` accepts it,
   *  and every address spelled "0x" + 40 hex digits is read back exactly. */
  lemma AddressArgument(arg: AbiArgument, ps: string, a: Address)
    requires arg.typ == "address"
    ensures Marshal(arg, ps).Ok? <==> IsHexAddress(ps)
    ensures Marshal(arg, "0x" + EncodeHex(a)) == Ok(Addr(a))
  {
    AddressCase(arg, ps);
    AddressCase(arg, "0x" + EncodeHex(a));
    AddressRoundTrip(a);
  }

  /** The single-address branch of the switch. */
  lemma AddressCase(arg: AbiArgument, ps: string)
    requires arg.typ == "address"
    ensures Marshal(arg, ps) == if IsHexAddress(ps) then Ok(Addr(HexToAddress(ps))) else Err(WrongType(arg, ps))
  {
  }

  /** Byte types: with "0x" somewhere in the input it must be a hexutil
   *  byte string; without it, the input's own bytes are the value. */
  lemma BytesArgument(arg: AbiArgument, ps: string)
    requires arg.typ in ByteTypes
    ensures ContainsHexMarker(ps) ==> (Marshal(arg, ps).Ok? <==> DecodeHex(ps).Some?)
    ensures ContainsHexMarker(ps) && DecodeHex(ps).Some? ==> Marshal(arg, ps) == Ok(Bytes(DecodeHex(ps).value))
    ensures !ContainsHexMarker(ps) ==> Marshal(arg, ps) == Ok(Bytes(Utf8(ps)))
  {
  }

  /** Every byte string spelled "0x" + hex digits is read back exactly. */
  lemma BytesRoundTrip(arg: AbiArgument, b: seq<Byte>)
    requires arg.typ in ByteTypes
    ensures Marshal(arg, "0x" + EncodeHex(b)) == Ok(Bytes(b))
  {
    var s := "0x" + EncodeHex(b);
    assert DecodeHex(s) == Some(b) by {
      assert s[0] == '0' && s[1] == 'x';
      assert s[2..] == EncodeHex(b);
      HexRoundTrip(b);
    }
    assert ContainsHexMarker(s) by {
      assert s[0] == '0' && s[1] == 'x';
    }
    BytesArgument(arg, s);
  }

  /** Worked case: integer lists tolerate spaces around the commas. */
  lemma IntegerListExample()
    ensures Marshal(AbiArgument("v", "uint256[]"), "1, 2") == Ok(BigInts([1, 2]))
  {
    var ns: seq<int> := [1, 2];
    assert RemoveSpaces("1, 2") == "1,2";
    ListSplit();
    ListValues();
    IntegerArrayCase(AbiArgument("v", "uint256[]"), "1, 2");
  }

  lemma ListSplit()
    ensures Split("1,2") == ["1", "2"]
  {
    var toks := ["1", "2"];
    assert Join(toks) == "1,2" by {
      assert toks[1..] == ["2"];
    }
    SplitJoin(toks);
  }

  lemma ListValues()
    ensures var want: seq<int> := [1, 2]; ConvertEach(["1", "2"], ParseDecimal) == Some(want)
  {
    var toks := ["1", "2"];
    var want: seq<int> := [1, 2];
    assert ParseDecimal("1") == Some(1) && ParseDecimal("2") == Some(2) by {
      assert "1"[..0] == "" && "2"[..0] == "";
    }
    assert forall k :: 0 <= k < 2 ==> ParseDecimal(toks[k]).Some?;
    var c := ConvertEach(toks, ParseDecimal);
    assert |c.value| == 2 && c.value[0] == 1 && c.value[1] == 2;
    assert c.value == want;
  }

  /** Worked case: one bad element fails the whole list. */
  lemma BadElementExample()
    ensures Marshal(AbiArgument("v", "uint256[]"), "1,x") == Err(WrongDataType("v", "uint256[]", "1,x"))
  {
    var toks := ["1", "x"];
    assert ' ' !in "1,x" by { assert "1,x"[0] != ' ' && "1,x"[1] != ' ' && "1,x"[2] != ' '; }
    assert Join(toks) == "1,x" by {
      assert toks[1..] == ["x"];
    }
    SplitJoin(toks);
    assert !IsDigit(toks[1][0]);
    assert ElementOf("uint256[]", toks[1]).None?;
    ArrayElements(AbiArgument("v", "uint256[]"), "1,x");
  }

  /** Worked case: "0x1234" is the two bytes 0x12 0x34. */
  lemma HexBytesExample()
    ensures Marshal(AbiArgument("v", "bytes"), "0x1234") == Ok(Bytes([0x12, 0x34]))
  {
    var both: seq<Byte> := [0x12, 0x34];
    HexBytesDecoded();
    assert ContainsHexMarker("0x1234") by { assert "0x1234"[0] == '0' && "0x1234"[1] == 'x'; }
    BytesArgument(AbiArgument("v", "bytes"), "0x1234");
  }

  lemma HexBytesDecoded()
    ensures var both: seq<Byte> := [0x12, 0x34]; DecodeHex("0x1234") == Some(both)
  {
    assert "0x1234"[2..] == "1234";
    assert HexValue('1') == 1 && HexValue('2') == 2 && HexValue('3') == 3 && HexValue('4') == 4;
    assert "1234"[2..] == "34";
    assert "34"[2..] == "";
    var low: seq<Byte> := [0x34];
    var both: seq<Byte> := [0x12, 0x34];
    assert [0x34] + [] == low && [0x12] + low == both;
    assert DecodeHexDigits("34") == Some(low);
    assert DecodeHexDigits("1234") == Some(both);
  }

  /** Worked case: without "0x" the string's own bytes are taken, also for int8. */
  lemma LiteralBytesExample()
    ensures Marshal(AbiArgument("v", "int8"), "hi") == Ok(Bytes([0x68, 0x69]))
  {
    assert !ContainsHexMarker("hi");
    assert Utf8("hi") == [0x68, 0x69] by { assert "hi"[1..] == "i"; assert "i"[1..] == ""; }
  }

  /** Worked cases: a mis-cased bool and a non-number fail. */
  lemma RejectedExamples()
    ensures Marshal(AbiArgument("v", "bool"), "True").Err?
    ensures Marshal(AbiArgument("v", "int128"), "abc").Err?
  {
    BoolExact(AbiArgument("v", "bool"), "True");
    assert !IsDigit("abc"[0]) && !IsDigit("abc"[1]);
    ScalarInteger(AbiArgument("v", "int128"), "abc");
  }

  /** Worked case: a narrower integer type than the switch lists fails,
   *  whatever the input. */
  lemma NarrowIntegerExample(ps: string)
    ensures Marshal(AbiArgument("v", "uint8"), ps) == Err(WrongDataType("v", "uint8", ps))
  {
    assert "uint8"[0] != "bytes"[0];
    ClosedTypeGrammar(AbiArgument("v", "uint8"), ps);
  }

  /** Worked case: a fixed-length array type fails, whatever the input. */
  lemma FixedArrayExample(ps: string)
    ensures Marshal(AbiArgument("v", "uint256[2]"), ps) == Err(WrongDataType("v", "uint256[2]", ps))
  {
    assert "uint256[2]"[8] != "uint256[]"[8];
    ClosedTypeGrammar(AbiArgument("v", "uint256[2]"), ps);
  }
}
