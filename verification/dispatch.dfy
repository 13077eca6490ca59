/** The call pipeline (`CallContract`, core/core.go): find the ABI text,
 *  parse it, look the method up, convert each declared input in order,
 *  resolve the block number, pick the node, and make one call. `CallSpec`
 *  states the pipeline as a function; the method `CallContract` runs it
 *  step by step, with the argument loop, and is proved equal to it. */
module Dispatch {
  import opened Common
  import opened Text
  import opened Marshaller
  import opened Core

  // ---------------------------------------------------------------------
  // Arguments
  // ---------------------------------------------------------------------

  /** The string a declared input receives: its parameter when that is a
   *  string, "" when it is missing, an error when it is not a string. */
  function ParamFor(methodName: string, arg: AbiArgument, params: map<string, Param>): (r: Result<string, Error>)
    ensures arg.name !in params ==> r == Ok("")
    ensures arg.name in params && params[arg.name].Str? ==> r == Ok(params[arg.name].s)
    ensures r.Err? <==> arg.name in params && params[arg.name].NotString?
    ensures r.Err? ==> r.error == WrongParamType(methodName, arg.name)
  {
    if arg.name in params then
      match params[arg.name]
      case Str(s) => Ok(s)
      case NotString => Err(WrongParamType(methodName, arg.name))
    else Ok("")
  }

  /** One declared input, looked up and converted. */
  function MarshalParam(methodName: string, arg: AbiArgument, params: map<string, Param>): Result<Value, Error> {
    match ParamFor(methodName, arg, params)
    case Err(e) => Err(e)
    case Ok(ps) => Marshal(arg, ps)
  }

  /** Each input converted by `convert`, in order; the first failure is the
   *  result. */
  function ConvertInOrder(inputs: seq<AbiArgument>, convert: AbiArgument -> Result<Value, Error>): (r: Result<seq<Value>, Error>)
    ensures r.Ok? ==> |r.value| == |inputs|
    decreases |inputs|
  {
    if |inputs| == 0 then Ok([])
    else match ConvertInOrder(inputs[..|inputs| - 1], convert)
      case Err(e) => Err(e)
      case Ok(vs) =>
        match convert(inputs[|inputs| - 1])
        case Err(e) => Err(e)
        case Ok(v) => Ok(vs + [v])
  }

  /** The declared inputs of `methodName`, looked up in `params` and
   *  converted in declared order. */
  function MarshalArgs(methodName: string, inputs: seq<AbiArgument>, params: map<string, Param>): (r: Result<seq<Value>, Error>)
    ensures r.Ok? ==> |r.value| == |inputs|
    ensures r.Ok? <==> forall i :: 0 <= i < |inputs| ==> MarshalParam(methodName, inputs[i], params).Ok?
  {
    ConvertInOrderOk(inputs, a => MarshalParam(methodName, a, params));
    ConvertInOrder(inputs, a => MarshalParam(methodName, a, params))
  }

  /** The conversion succeeds exactly when every input converts; the values
   *  then line up one for one with the inputs. */
  lemma {:induction false} ConvertInOrderOk(inputs: seq<AbiArgument>, convert: AbiArgument -> Result<Value, Error>)
    ensures ConvertInOrder(inputs, convert).Ok? <==> forall i :: 0 <= i < |inputs| ==> convert(inputs[i]).Ok?
    ensures ConvertInOrder(inputs, convert).Ok? ==>
      var vs := ConvertInOrder(inputs, convert).value;
      && |vs| == |inputs|
      && forall i :: 0 <= i < |inputs| ==> vs[i] == convert(inputs[i]).value
    decreases |inputs|
  {
    if |inputs| > 0 {
      var n := |inputs| - 1;
      var front := inputs[..n];
      ConvertInOrderOk(front, convert);
      assert forall i :: 0 <= i < n ==> front[i] == inputs[i];
      var head := ConvertInOrder(front, convert);
      var last := convert(inputs[n]);
      if head.Err? {
        var i :| 0 <= i < n && convert(front[i]).Err?;
        assert convert(inputs[i]).Err?;
      } else if last.Ok? {
        var vs := head.value + [last.value];
        assert ConvertInOrder(inputs, convert) == Ok(vs);
        assert forall i :: 0 <= i < n ==> vs[i] == head.value[i];
      }
    }
  }

  /** The first input that fails decides the error, whatever follows it. */
  lemma {:induction false} ConvertInOrderFirstFailure(inputs: seq<AbiArgument>, convert: AbiArgument -> Result<Value, Error>, k: nat)
    requires k < |inputs|
    requires forall j :: 0 <= j < k ==> convert(inputs[j]).Ok?
    requires convert(inputs[k]).Err?
    ensures ConvertInOrder(inputs, convert) == Err(convert(inputs[k]).error)
    decreases |inputs|
  {
    var front := inputs[..|inputs| - 1];
    if k == |inputs| - 1 {
      ConvertInOrderOk(front, convert);
      assert forall j :: 0 <= j < |front| ==> front[j] == inputs[j];
    } else {
      assert forall j :: 0 <= j <= k ==> front[j] == inputs[j];
      ConvertInOrderFirstFailure(front, convert, k);
    }
  }

  /** The arguments succeed exactly when every declared input converts; the
   *  values then line up one for one with the declared inputs. */
  lemma MarshalArgsOk(methodName: string, inputs: seq<AbiArgument>, params: map<string, Param>)
    ensures MarshalArgs(methodName, inputs, params).Ok? <==>
      forall i :: 0 <= i < |inputs| ==> MarshalParam(methodName, inputs[i], params).Ok?
    ensures MarshalArgs(methodName, inputs, params).Ok? ==>
      var vs := MarshalArgs(methodName, inputs, params).value;
      && |vs| == |inputs|
      && forall i :: 0 <= i < |inputs| ==> vs[i] == MarshalParam(methodName, inputs[i], params).value
  {
    ConvertInOrderOk(inputs, a => MarshalParam(methodName, a, params));
  }

  /** The first declared input that fails decides the error. */
  lemma MarshalArgsFirstFailure(methodName: string, inputs: seq<AbiArgument>, params: map<string, Param>, k: nat)
    requires k < |inputs|
    requires forall j :: 0 <= j < k ==> MarshalParam(methodName, inputs[j], params).Ok?
    requires MarshalParam(methodName, inputs[k], params).Err?
    ensures MarshalArgs(methodName, inputs, params) == Err(MarshalParam(methodName, inputs[k], params).error)
  {
    ConvertInOrderFirstFailure(inputs, a => MarshalParam(methodName, a, params), k);
  }

  // ---------------------------------------------------------------------
  // Block number
  // ---------------------------------------------------------------------

  /** The block-number rule: "" is the latest block (no number); a string
   *  with "0x" in it is a hexutil quantity, whose decoding error is
   *  returned as is; anything else must be a base-10 integer. */
  function ResolveBlock(blockNumber: string): (r: Result<Option<int>, Error>)
    ensures r == Ok(None) <==> blockNumber == ""
    ensures r.Err? && ContainsHexMarker(blockNumber) ==>
      DecodeBig(blockNumber).Err? && r.error == BadHexBlock(DecodeBig(blockNumber).error)
    ensures r.Err? && !ContainsHexMarker(blockNumber) ==> r.error == WrongBlockNumber(blockNumber)
    ensures ContainsHexMarker(blockNumber) ==>
      && (r.Ok? <==> DecodeBig(blockNumber).Ok?)
      && (r.Ok? ==> r.value == Some(DecodeBig(blockNumber).value))
    ensures blockNumber != "" && !ContainsHexMarker(blockNumber) ==>
      && (r.Ok? <==> ParseDecimal(blockNumber).Some?)
      && (r.Ok? ==> r.value == Some(ParseDecimal(blockNumber).value))
  {
    if blockNumber == "" then Ok(None)
    else if ContainsHexMarker(blockNumber) then
      match DecodeBig(blockNumber)
      case Err(e) => Err(BadHexBlock(e))
      case Ok(n) => Ok(Some(n))
    else
      match ParseDecimal(blockNumber)
      case None => Err(WrongBlockNumber(blockNumber))
      case Some(n) => Ok(Some(n))
  }

  /** Every integer written in decimal, and every quantity below 2^256
   *  written as "0x" and its hex digits, names that block. */
  lemma BlockNumberRoundTrip(n: int, h: nat)
    requires h < Pow16(64)
    ensures ResolveBlock(FormatInt(n)) == Ok(Some(n))
    ensures ResolveBlock("0x" + FormatHex(h)) == Ok(Some(h))
  {
    DecimalBlock(n);
    HexBlock(h);
  }

  lemma DecimalBlock(n: int)
    ensures ResolveBlock(FormatInt(n)) == Ok(Some(n))
  {
    var s := FormatInt(n);
    assert !ContainsHexMarker(s) by {
      assert forall i :: 0 <= i < |s| ==> s[i] != 'x' by {
        if n < 0 {
          assert forall i :: 1 <= i < |s| ==> s[i] == FormatNat(-n)[i - 1];
        }
      }
    }
    assert s != "";
    DecimalRoundTrip(n);
  }

  lemma HexBlock(h: nat)
    requires h < Pow16(64)
    ensures ResolveBlock("0x" + FormatHex(h)) == Ok(Some(h))
  {
    var t := "0x" + FormatHex(h);
    assert ContainsHexMarker(t) by {
      assert t[0] == '0' && t[1] == 'x';
    }
    DecodeBigRoundTrip(h);
  }

  /** Hex needs a lower-case "0x" to be noticed: "0X10" is read as decimal and
   *  rejected, and "10x5" is sent to the hex decoder, which wants a prefix. */
  lemma BlockNumberMarkers()
    ensures ResolveBlock("0X10") == Err(WrongBlockNumber("0X10"))
    ensures ResolveBlock("10x5") == Err(BadHexBlock(MissingPrefix))
  {
    var upper := "0X10";
    assert upper[1] == 'X' && upper[2] == '1' && upper[3] == '0';
    assert !IsDigit(upper[1]);
    assert !ContainsHexMarker(upper);
    assert "10x5"[1] == '0' && "10x5"[2] == 'x';
  }

  /** Decimal block numbers need not be canonical: a sign and leading zeros
   *  are accepted, as `big.Int.SetString` accepts them. */
  lemma NonCanonicalBlocks()
    ensures ResolveBlock("+5") == Ok(Some(5))
    ensures ResolveBlock("007") == Ok(Some(7))
  {
    assert "+5"[0] == '+' && "+5"[1..] == "5";
    assert !ContainsHexMarker("+5");
    assert ParseDecimal("+5") == Some(5);
    var z := "007";
    assert z[0] == '0' && z[1] == '0' && z[2] == '7';
    assert !ContainsHexMarker(z);
    assert z[..2] == "00" && "00"[..1] == "0" && "0"[..0] == "";
    assert DigitsValue(z) == 7;
    assert ParseDecimal(z) == Some(7);
  }

  // ---------------------------------------------------------------------
  // The pipeline
  // ---------------------------------------------------------------------

  /** The ABI text a call works from: the given text, or the stored one when
   *  none is given. */
  function AbiText(contractABI: string, stored: string): string {
    if contractABI == "" then stored else contractABI
  }

  /** The remote part of a call: use the default node, or dial the named
   *  one, then make the one call. A dial comes before the call, and the call
   *  carries the method, the input and the block it was given. */
  function Remote(env: Env, ecli: Client, cABI: Abi, contract: Address, methodName: string,
                  input: seq<Value>, bn: Option<int>, customNode: string): (o: Outcome<seq<Value>>)
    ensures 1 <= |o.trace| <= 2
    ensures forall k :: 0 <= k < |o.trace| ==> o.trace[k].Dial? || o.trace[k].Invoke?
    ensures customNode == "" ==> o.trace == [Invoke(ecli, methodName, input, bn)]
    ensures customNode != "" ==> o.trace[0] == Dial(customNode) && (|o.trace| == 2 <==> env.dial(customNode).Ok?)
    ensures customNode != "" && env.dial(customNode).Err? ==> o.result == Err(NodeUnreachable(customNode))
    ensures |o.trace| == 2 ==> o.trace[1] == Invoke(env.dial(customNode).value, methodName, input, bn)
    ensures o.result.Ok? ==>
      var last := o.trace[|o.trace| - 1];
      last.Invoke? && env.invoke(last.client, cABI, contract, methodName, input, bn) == Ok(o.result.value)
    ensures var last := o.trace[|o.trace| - 1];
      last.Invoke? ==>
        o.result == match env.invoke(last.client, cABI, contract, methodName, input, bn)
          case Ok(out) => Ok(out)
          case Err(e) => Err(CallFailed(e))
  {
    var dialled := if customNode == "" then [] else [Dial(customNode)];
    var node := if customNode == "" then Ok(ecli) else env.dial(customNode);
    match node
    case Err(_) => Outcome(Err(NodeUnreachable(customNode)), dialled)
    case Ok(cli) =>
      var steps := dialled + [Invoke(cli, methodName, input, bn)];
      match env.invoke(cli, cABI, contract, methodName, input, bn)
      case Err(e) => Outcome(Err(CallFailed(e)), steps)
      case Ok(out) => Outcome(Ok(out), steps)
  }

  /** A call once its ABI is parsed: the method lookup, the arguments and
   *  the block are settled locally, and nothing remote happens unless all
   *  three succeed. */
  function CallWithAbi(env: Env, ecli: Client, cABI: Abi, contract: Address, methodName: string,
                       blockNumber: string, params: map<string, Param>, customNode: string): (o: Outcome<seq<Value>>)
    ensures |o.trace| > 0 <==>
      && methodName in cABI.methods
      && MarshalArgs(methodName, cABI.methods[methodName].inputs, params).Ok?
      && ResolveBlock(blockNumber).Ok?
    ensures |o.trace| > 0 ==>
      o == Remote(env, ecli, cABI, contract, methodName,
                  MarshalArgs(methodName, cABI.methods[methodName].inputs, params).value,
                  ResolveBlock(blockNumber).value, customNode)
    ensures methodName !in cABI.methods ==> o.result == Err(MethodNotAvailable(methodName))
    ensures methodName in cABI.methods && MarshalArgs(methodName, cABI.methods[methodName].inputs, params).Err? ==>
      o.result == Err(MarshalArgs(methodName, cABI.methods[methodName].inputs, params).error)
    ensures (&& methodName in cABI.methods
             && MarshalArgs(methodName, cABI.methods[methodName].inputs, params).Ok?
             && ResolveBlock(blockNumber).Err?) ==>
      o.result == Err(ResolveBlock(blockNumber).error)
  {
    if methodName !in cABI.methods then Outcome(Err(MethodNotAvailable(methodName)), [])
    else
      match MarshalArgs(methodName, cABI.methods[methodName].inputs, params)
      case Err(e) => Outcome(Err(e), [])
      case Ok(input) =>
        match ResolveBlock(blockNumber)
        case Err(e) => Outcome(Err(e), [])
        case Ok(bn) => Remote(env, ecli, cABI, contract, methodName, input, bn, customNode)
  }

  /** `CallContract` as a function of what the store holds (`stored`) and of
   *  the collaborators: read the store when no ABI is given, parse, and go
   *  on with the parsed ABI. */
  function CallSpec(env: Env, ecli: Client, stored: string, contract: Address, contractABI: string,
                    methodName: string, blockNumber: string, params: map<string, Param>,
                    customNode: string): (o: Outcome<seq<Value>>)
    ensures |o.trace| <= 3
    ensures env.parse(AbiText(contractABI, stored)).Err? ==>
      && o.result == Err(AbiUnreadable(env.parse(AbiText(contractABI, stored)).error))
      && forall k :: 0 <= k < |o.trace| ==> o.trace[k] == StoreRead(contract)
  {
    var pre := if contractABI == "" then [StoreRead(contract)] else [];
    match env.parse(AbiText(contractABI, stored))
    case Err(e) => Outcome(Err(AbiUnreadable(e)), pre)
    case Ok(cABI) =>
      var rest := CallWithAbi(env, ecli, cABI, contract, methodName, blockNumber, params, customNode);
      Outcome(rest.result, pre + rest.trace)
  }

  /** `CallContract`: proved to follow `CallSpec` on the store's contents. */
  method CallContract(c: Core, env: Env, contract: Address, contractABI: string, methodName: string,
                      blockNumber: string, params: map<string, Param>, customNode: string)
    returns (r: Result<seq<Value>, Error>, trace: seq<Step>)
    ensures Outcome(r, trace) ==
      CallSpec(env, c.ecli, StoredABI(c.s.rows, c.s.readFault, contract), contract, contractABI,
               methodName, blockNumber, params, customNode)
  {
    trace := [];
    var abiText := contractABI;
    if contractABI == "" {
      trace := [StoreRead(contract)];
      var storedABI, _ := c.s.GetContractABI(contract);
      abiText := storedABI;
    }
    var parsed := env.parse(abiText);
    if parsed.Err? {
      r := Err(AbiUnreadable(parsed.error));
      return;
    }
    var rest;
    r, rest := CallWithParsedAbi(env, c.ecli, parsed.value, contract, methodName, blockNumber, params, customNode);
    trace := trace + rest;
  }

  /** `CallContract` from the method lookup on: proved to follow `CallWithAbi`. */
  method CallWithParsedAbi(env: Env, ecli: Client, cABI: Abi, contract: Address, methodName: string,
                           blockNumber: string, params: map<string, Param>, customNode: string)
    returns (r: Result<seq<Value>, Error>, trace: seq<Step>)
    ensures Outcome(r, trace) == CallWithAbi(env, ecli, cABI, contract, methodName, blockNumber, params, customNode)
  {
    trace := [];
    if methodName !in cABI.methods {
      r := Err(MethodNotAvailable(methodName));
      return;
    }
    var marshalled := MarshalInputs(methodName, cABI.methods[methodName].inputs, params);
    if marshalled.Err? {
      r := Err(marshalled.error);
      return;
    }
    var bn := ResolveBlockNumber(blockNumber);
    if bn.Err? {
      r := Err(bn.error);
      return;
    }
    r, trace := CallNode(env, ecli, cABI, contract, methodName, marshalled.value, bn.value, customNode);
  }

  /** The block-number branch of `CallContract`. */
  method ResolveBlockNumber(blockNumber: string) returns (r: Result<Option<int>, Error>)
    ensures r == ResolveBlock(blockNumber)
  {
    if blockNumber == "" {
      return Ok(None);
    }
    if ContainsHexMarker(blockNumber) {
      var d := DecodeBig(blockNumber);
      if d.Err? {
        return Err(BadHexBlock(d.error));
      }
      return Ok(Some(d.value));
    }
    var p := ParseDecimal(blockNumber);
    if p.None? {
      return Err(WrongBlockNumber(blockNumber));
    }
    return Ok(Some(p.value));
  }

  /** The node choice and the call of `CallContract`: proved to follow `Remote`. */
  method CallNode(env: Env, ecli: Client, cABI: Abi, contract: Address, methodName: string,
                  input: seq<Value>, bn: Option<int>, customNode: string)
    returns (r: Result<seq<Value>, Error>, trace: seq<Step>)
    ensures Outcome(r, trace) == Remote(env, ecli, cABI, contract, methodName, input, bn, customNode)
  {
    trace := [];
    var eclient := ecli;
    if customNode != "" {
      trace := [Dial(customNode)];
      var dialled := env.dial(customNode);
      if dialled.Err? {
        r := Err(NodeUnreachable(customNode));
        return;
      }
      eclient := dialled.value;
    }
    trace := trace + [Invoke(eclient, methodName, input, bn)];
    var result := env.invoke(eclient, cABI, contract, methodName, input, bn);
    if result.Err? {
      r := Err(CallFailed(result.error));
      return;
    }
    r := Ok(result.value);
  }

  /** The argument loop of `CallContract`: each declared input is looked up
   *  by name and converted by `HandleData`, in declared order, stopping at
   *  the first failure. */
  method MarshalInputs(methodName: string, inputs: seq<AbiArgument>, params: map<string, Param>)
    returns (r: Result<seq<Value>, Error>)
    ensures r == MarshalArgs(methodName, inputs, params)
  {
    var input: seq<Value> := [];
    var i := 0;
    while i < |inputs|
      invariant 0 <= i <= |inputs|
      invariant MarshalArgs(methodName, inputs[..i], params) == Ok(input)
    {
      var v := MarshalInput(methodName, inputs[i], params);
      if v.Err? {
        MarshalArgsFailsAt(methodName, inputs, params, i);
        return Err(v.error);
      }
      MarshalArgsStep(methodName, inputs, params, i, input, v.value);
      input := input + [v.value];
      i := i + 1;
    }
    assert inputs[..i] == inputs;
    return Ok(input);
  }

  /** One pass of the argument loop: look the input up by name and convert
   *  it with `HandleData`. */
  method MarshalInput(methodName: string, arg: AbiArgument, params: map<string, Param>)
    returns (r: Result<Value, Error>)
    ensures r == MarshalParam(methodName, arg, params)
  {
    var ps := "";
    if arg.name in params {
      if params[arg.name].NotString? {
        return Err(WrongParamType(methodName, arg.name));
      }
      ps := params[arg.name].s;
    }
    r := HandleData(arg, ps);
  }

  /** One more converted input extends the converted prefix by its value. */
  lemma MarshalArgsStep(methodName: string, inputs: seq<AbiArgument>, params: map<string, Param>, i: nat,
                        input: seq<Value>, v: Value)
    requires i < |inputs|
    requires MarshalArgs(methodName, inputs[..i], params) == Ok(input)
    requires MarshalParam(methodName, inputs[i], params) == Ok(v)
    ensures MarshalArgs(methodName, inputs[..i + 1], params) == Ok(input + [v])
  {
    assert inputs[..i + 1][..i] == inputs[..i];
  }

  /** When the first i inputs convert and the i-th does not, the arguments
   *  fail with the i-th input's error. */
  lemma MarshalArgsFailsAt(methodName: string, inputs: seq<AbiArgument>, params: map<string, Param>, i: nat)
    requires i < |inputs|
    requires MarshalArgs(methodName, inputs[..i], params).Ok?
    requires MarshalParam(methodName, inputs[i], params).Err?
    ensures MarshalArgs(methodName, inputs, params) == Err(MarshalParam(methodName, inputs[i], params).error)
  {
    MarshalArgsOk(methodName, inputs[..i], params);
    assert forall j :: 0 <= j < i ==> inputs[..i][j] == inputs[j];
    MarshalArgsFirstFailure(methodName, inputs, params, i);
  }

  // ---------------------------------------------------------------------
  // Properties of the pipeline
  // ---------------------------------------------------------------------

  /** An unknown method fails before any argument is read and before any
   *  node is dialled or called. */
  lemma UnknownMethodStopsEarly(env: Env, ecli: Client, stored: string, contract: Address, contractABI: string,
                                methodName: string, blockNumber: string, params: map<string, Param>, customNode: string)
    requires env.parse(AbiText(contractABI, stored)).Ok?
    requires methodName !in env.parse(AbiText(contractABI, stored)).value.methods
    ensures var o := CallSpec(env, ecli, stored, contract, contractABI, methodName, blockNumber, params, customNode);
      && o.result == Err(MethodNotAvailable(methodName))
      && forall k :: 0 <= k < |o.trace| ==> o.trace[k] == StoreRead(contract)
  {
  }

  /** A call is made only after every earlier step succeeded, and it carries
   *  the declared inputs' converted values in declared order and the
   *  resolved block. */
  lemma InvokeCarriesDeclaredArguments(env: Env, ecli: Client, stored: string, contract: Address, contractABI: string,
                                       methodName: string, blockNumber: string, params: map<string, Param>,
                                       customNode: string, k: nat)
    requires var o := CallSpec(env, ecli, stored, contract, contractABI, methodName, blockNumber, params, customNode);
      k < |o.trace| && o.trace[k].Invoke?
    ensures var o := CallSpec(env, ecli, stored, contract, contractABI, methodName, blockNumber, params, customNode);
      var step := o.trace[k];
      var parsed := env.parse(AbiText(contractABI, stored));
      && parsed.Ok? && methodName in parsed.value.methods
      && step.methodName == methodName
      && ResolveBlock(blockNumber) == Ok(step.block)
      && k == |o.trace| - 1
      && var inputs := parsed.value.methods[methodName].inputs;
         && |step.input| == |inputs|
         && forall i :: 0 <= i < |inputs| ==>
              Ok(step.input[i]) == MarshalParam(methodName, inputs[i], params)
  {
    InvokeIsLast(env, ecli, stored, contract, contractABI, methodName, blockNumber, params, customNode, k);
    var parsed := env.parse(AbiText(contractABI, stored));
    MarshalArgsOk(methodName, parsed.value.methods[methodName].inputs, params);
  }

  /** The call step is the last one and comes only after the ABI parsed, the
   *  method was found, the arguments converted and the block resolved. */
  lemma InvokeIsLast(env: Env, ecli: Client, stored: string, contract: Address, contractABI: string,
                     methodName: string, blockNumber: string, params: map<string, Param>,
                     customNode: string, k: nat)
    requires var o := CallSpec(env, ecli, stored, contract, contractABI, methodName, blockNumber, params, customNode);
      k < |o.trace| && o.trace[k].Invoke?
    ensures var o := CallSpec(env, ecli, stored, contract, contractABI, methodName, blockNumber, params, customNode);
      var step := o.trace[k];
      var parsed := env.parse(AbiText(contractABI, stored));
      && k == |o.trace| - 1
      && parsed.Ok? && methodName in parsed.value.methods
      && step.methodName == methodName
      && MarshalArgs(methodName, parsed.value.methods[methodName].inputs, params) == Ok(step.input)
      && ResolveBlock(blockNumber) == Ok(step.block)
  {
  }

  /** The first input that fails to convert is the call's error, and no node
   *  is dialled or called. */
  lemma FirstBadArgumentAborts(env: Env, ecli: Client, stored: string, contract: Address, contractABI: string,
                               methodName: string, blockNumber: string, params: map<string, Param>,
                               customNode: string, i: nat)
    requires env.parse(AbiText(contractABI, stored)).Ok?
    requires methodName in env.parse(AbiText(contractABI, stored)).value.methods
    requires var inputs := env.parse(AbiText(contractABI, stored)).value.methods[methodName].inputs;
      && i < |inputs|
      && (forall j :: 0 <= j < i ==> MarshalParam(methodName, inputs[j], params).Ok?)
      && MarshalParam(methodName, inputs[i], params).Err?
    ensures var o := CallSpec(env, ecli, stored, contract, contractABI, methodName, blockNumber, params, customNode);
      var inputs := env.parse(AbiText(contractABI, stored)).value.methods[methodName].inputs;
      && o.result == Err(MarshalParam(methodName, inputs[i], params).error)
      && forall k :: 0 <= k < |o.trace| ==> o.trace[k] == StoreRead(contract)
  {
    var inputs := env.parse(AbiText(contractABI, stored)).value.methods[methodName].inputs;
    MarshalArgsFirstFailure(methodName, inputs, params, i);
  }

  /** A block number that does not resolve is the call's error, once the
   *  method and its arguments are fine; no node is dialled or called. */
  lemma BadBlockAborts(env: Env, ecli: Client, stored: string, contract: Address, contractABI: string,
                       methodName: string, blockNumber: string, params: map<string, Param>, customNode: string)
    requires env.parse(AbiText(contractABI, stored)).Ok?
    requires methodName in env.parse(AbiText(contractABI, stored)).value.methods
    requires MarshalArgs(methodName, env.parse(AbiText(contractABI, stored)).value.methods[methodName].inputs, params).Ok?
    requires ResolveBlock(blockNumber).Err?
    ensures var o := CallSpec(env, ecli, stored, contract, contractABI, methodName, blockNumber, params, customNode);
      && o.result == Err(ResolveBlock(blockNumber).error)
      && forall k :: 0 <= k < |o.trace| ==> o.trace[k] == StoreRead(contract)
  {
  }

  /** Where a call's ABI comes from: the store is read exactly when no ABI is
   *  given, and a call never asks the explorer, never checks the code at
   *  the contract and never writes the store. */
  lemma CallAbiSource(env: Env, ecli: Client, stored: string, contract: Address, contractABI: string,
                      methodName: string, blockNumber: string, params: map<string, Param>, customNode: string)
    ensures var o := CallSpec(env, ecli, stored, contract, contractABI, methodName, blockNumber, params, customNode);
      && (|o.trace| > 0 && o.trace[0] == StoreRead(contract) <==> contractABI == "")
      && forall k :: 0 <= k < |o.trace| ==>
           !o.trace[k].ExplorerQuery? && !o.trace[k].CodeRead? && !o.trace[k].StoreWrite?
  {
    var parsed := env.parse(AbiText(contractABI, stored));
    if parsed.Ok? {
      var rest := CallWithAbi(env, ecli, parsed.value, contract, methodName, blockNumber, params, customNode);
      assert forall k :: 0 <= k < |rest.trace| ==> rest.trace[k].Dial? || rest.trace[k].Invoke?;
    }
  }

  /** A successful call returns exactly what the one call it made returned. */
  lemma SuccessIsTheCallResult(env: Env, ecli: Client, stored: string, contract: Address, contractABI: string,
                               methodName: string, blockNumber: string, params: map<string, Param>, customNode: string)
    requires CallSpec(env, ecli, stored, contract, contractABI, methodName, blockNumber, params, customNode).result.Ok?
    ensures var o := CallSpec(env, ecli, stored, contract, contractABI, methodName, blockNumber, params, customNode);
      && |o.trace| >= 1
      && var last := o.trace[|o.trace| - 1];
         && last.Invoke?
         && (customNode == "" ==> last.client == ecli)
         && env.invoke(last.client, env.parse(AbiText(contractABI, stored)).value, contract, methodName, last.input, last.block)
              == Ok(o.result.value)
  {
    var parsed := env.parse(AbiText(contractABI, stored));
    var rest := CallWithAbi(env, ecli, parsed.value, contract, methodName, blockNumber, params, customNode);
    assert |rest.trace| > 0;
  }
}
