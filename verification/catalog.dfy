/** The method listing (`ContractMethods`, core/core.go): find the ABI text
 *  (the store, then the explorer, or the caller's own text once the
 *  contract is shown to have code), parse it, remember it when asked, and
 *  list the read-only methods with their arguments. `Prepare` states
 *  everything up to the listing as a function; the method `ContractMethods`
 *  runs it against the store and is proved to follow it. */
module Catalog {
  import opened Common
  import opened Core
  import Etherscan

  // ---------------------------------------------------------------------
  // Finding the ABI text
  // ---------------------------------------------------------------------

  /** `verifyContract`: the node must report the code at the contract, and
   *  the code must not be empty. */
  function VerifyContract(env: Env, ecli: Client, contract: Address): (r: Option<VerifyError>)
    ensures r.None? <==> env.codeAt(ecli, contract).Ok? && |env.codeAt(ecli, contract).value| > 0
    ensures env.codeAt(ecli, contract).Err? ==> r == Some(RpcFailure(env.codeAt(ecli, contract).error))
    ensures env.codeAt(ecli, contract).Ok? && |env.codeAt(ecli, contract).value| == 0 ==> r == Some(NoCode)
  {
    match env.codeAt(ecli, contract)
    case Err(e) => Some(RpcFailure(e))
    case Ok(code) => if |code| == 0 then Some(NoCode) else None
  }

  /** The ABI text `ContractMethods` works from, given what the store holds
   *  (`stored`, "" when nothing or when the read fails). */
  function ResolveAbi(c: Core, names: NetworkNames, env: Env, stored: string, contract: Address,
                      contractABI: string, network: string): (o: Outcome<string>)
    ensures 1 <= |o.trace| <= 2
    ensures forall k :: 0 <= k < |o.trace| ==> !o.trace[k].StoreWrite? && !o.trace[k].Invoke?
    ensures contractABI != "" ==> o.trace == [CodeRead(contract)]
    ensures contractABI != "" ==> (o.result.Ok? <==> VerifyContract(env, c.ecli, contract).None?)
    ensures contractABI != "" && o.result.Ok? ==> o.result.value == contractABI
    ensures contractABI != "" && o.result.Err? ==>
      o.result.error == ContractUnverified(VerifyContract(env, c.ecli, contract).value)
    ensures contractABI == "" ==> o.trace[0] == StoreRead(contract) && (|o.trace| == 2 <==> stored == "")
    ensures contractABI == "" && stored != "" ==> o.result == Ok(stored)
    ensures |o.trace| == 2 ==>
      o.trace[1] == ExplorerQuery(Etherscan.RequestURL(c.esc, names, env.checksumHex(contract), network))
    ensures contractABI == "" && stored == "" ==>
      o.result == match Etherscan.GetContractABI(c.esc, names, env.checksumHex(contract), network, env.doReq)
        case Ok(text) => Ok(text)
        case Err(e) => Err(AbiUnavailable(e))
  {
    if contractABI == "" then
      if stored != "" then Outcome(Ok(stored), [StoreRead(contract)])
      else
        var hex := env.checksumHex(contract);
        var steps := [StoreRead(contract), ExplorerQuery(Etherscan.RequestURL(c.esc, names, hex, network))];
        match Etherscan.GetContractABI(c.esc, names, hex, network, env.doReq)
        case Err(e) => Outcome(Err(AbiUnavailable(e)), steps)
        case Ok(text) => Outcome(Ok(text), steps)
    else
      match VerifyContract(env, c.ecli, contract)
      case Some(e) => Outcome(Err(ContractUnverified(e)), [CodeRead(contract)])
      case None => Outcome(Ok(contractABI), [CodeRead(contract)])
  }

  /** `ContractMethods` up to the listing: the parsed ABI, and the steps
   *  taken, ending with the store write when the ABI is to be remembered. */
  function Prepare(c: Core, names: NetworkNames, env: Env, stored: string, contract: Address,
                   contractABI: string, rememberABI: bool, network: string): (o: Outcome<Abi>)
    ensures var found := ResolveAbi(c, names, env, stored, contract, contractABI, network);
      && (o.result.Ok? <==> found.result.Ok? && env.parse(found.result.value).Ok?)
      && (o.result.Ok? ==> o.result.value == env.parse(found.result.value).value)
      && |o.trace| == |found.trace| + (if rememberABI && o.result.Ok? then 1 else 0)
      && o.trace[..|found.trace|] == found.trace
      && (found.result.Err? ==> o.result == Err(found.result.error))
      && (found.result.Ok? && env.parse(found.result.value).Err? ==>
            o.result == Err(AbiUnreadable(env.parse(found.result.value).error)))
      && (|o.trace| > |found.trace| ==> o.trace[|found.trace|] == StoreWrite(contract, found.result.value))
  {
    var found := ResolveAbi(c, names, env, stored, contract, contractABI, network);
    match found.result
    case Err(e) => Outcome(Err(e), found.trace)
    case Ok(text) =>
      match env.parse(text)
      case Err(e) => Outcome(Err(AbiUnreadable(e)), found.trace)
      case Ok(a) => Outcome(Ok(a), if rememberABI then found.trace + [StoreWrite(contract, text)] else found.trace)
  }

  // ---------------------------------------------------------------------
  // Listing the methods
  // ---------------------------------------------------------------------

  /** The arguments of a method as listed: each input's name and type
   *  spelling, in declared order. */
  function Arguments(inputs: seq<AbiArgument>): seq<Argument> {
    seq(|inputs|, i requires 0 <= i < |inputs| => Argument(inputs[i].name, inputs[i].typ))
  }

  /** A listed method: a read-only method of the ABI, under its ABI name,
   *  with its declared arguments. */
  predicate Listed(a: Abi, m: Method) {
    m.name in a.methods && a.methods[m.name].constant && m.arguments == Arguments(a.methods[m.name].inputs)
  }

  /** No two listed methods share a name. */
  predicate NamesDistinct(ms: seq<Method>) {
    forall i, j :: 0 <= i < j < |ms| ==> ms[i].name != ms[j].name
  }

  /** The inner loop: one listed argument per declared input. */
  method ArgumentsOf(inputs: seq<AbiArgument>) returns (args: seq<Argument>)
    ensures |args| == |inputs|
    ensures forall i :: 0 <= i < |inputs| ==> args[i].name == inputs[i].name && args[i].typ == inputs[i].typ
  {
    args := [];
    for i := 0 to |inputs|
      invariant |args| == i
      invariant forall k :: 0 <= k < i ==> args[k] == Argument(inputs[k].name, inputs[k].typ)
    {
      args := args + [Argument(inputs[i].name, inputs[i].typ)];
    }
  }

  /** The outer loop: every read-only method exactly once, in the map's
   *  (unspecified) iteration order; write methods are skipped. */
  method ListConstantMethods(a: Abi) returns (result: seq<Method>)
    ensures forall m :: m in result <==> Listed(a, m)
    ensures NamesDistinct(result)
  {
    result := [];
    var remaining := a.methods.Keys;
    while remaining != {}
      invariant remaining <= a.methods.Keys
      invariant forall m :: m in result <==> Listed(a, m) && m.name !in remaining
      invariant NamesDistinct(result)
      invariant forall k :: 0 <= k < |result| ==> result[k].name !in remaining
      decreases remaining
    {
      var name :| name in remaining;
      var detail := a.methods[name];
      remaining := remaining - {name};
      if detail.constant {
        var args := ArgumentsOf(detail.inputs);
        assert args == Arguments(detail.inputs);
        result := result + [Method(name, args)];
      }
    }
  }

  /** `ContractMethods`: follows `Prepare` on what the store held at the
   *  start, lists exactly the read-only methods of the parsed ABI, and
   *  leaves the store as the trace's writes make it. */
  method ContractMethods(c: Core, names: NetworkNames, env: Env, contract: Address, contractABI: string,
                         rememberABI: bool, network: string)
    returns (r: Result<seq<Method>, Error>, trace: seq<Step>)
    modifies c.s
    ensures var o := Prepare(c, names, env, StoredABI(old(c.s.rows), c.s.readFault, contract), contract,
                             contractABI, rememberABI, network);
      && trace == o.trace
      && (r.Ok? <==> o.result.Ok?)
      && (r.Err? ==> r.error == o.result.error)
      && (r.Ok? ==> (forall m :: m in r.value <==> Listed(o.result.value, m)) && NamesDistinct(r.value))
    ensures c.s.rows == RowsAfter(old(c.s.rows), c.s.writeFault, trace)
  {
    var found;
    found, trace := FindAbi(c, names, env, contract, contractABI, network);
    RowsAfterReadOnly(c.s.rows, c.s.writeFault, trace);
    if found.Err? {
      r := Err(found.error);
      return;
    }
    var text := found.value;
    var parsed := env.parse(text);
    if parsed.Err? {
      r := Err(AbiUnreadable(parsed.error));
      return;
    }
    if rememberABI {
      RowsAfterFinalWrite(c.s.rows, c.s.writeFault, trace, contract, text);
      trace := trace + [StoreWrite(contract, text)];
      var _ := c.s.StoreContractABI(contract, text);
    }
    var methods := ListConstantMethods(parsed.value);
    r := Ok(methods);
  }

  /** The first half of `ContractMethods`: the store, then the explorer, or
   *  the code check for a supplied ABI. Proved to follow `ResolveAbi`. */
  method FindAbi(c: Core, names: NetworkNames, env: Env, contract: Address, contractABI: string, network: string)
    returns (r: Result<string, Error>, trace: seq<Step>)
    ensures Outcome(r, trace) ==
      ResolveAbi(c, names, env, StoredABI(c.s.rows, c.s.readFault, contract), contract, contractABI, network)
  {
    if contractABI == "" {
      trace := [StoreRead(contract)];
      var rawABI, _ := c.s.GetContractABI(contract);
      if rawABI == "" {
        var hex := env.checksumHex(contract);
        trace := trace + [ExplorerQuery(Etherscan.RequestURL(c.esc, names, hex, network))];
        var fetched := Etherscan.GetContractABI(c.esc, names, hex, network, env.doReq);
        if fetched.Err? {
          r := Err(AbiUnavailable(fetched.error));
          return;
        }
        rawABI := fetched.value;
      }
      r := Ok(rawABI);
    } else {
      trace := [CodeRead(contract)];
      var unverified := VerifyContract(env, c.ecli, contract);
      if unverified.Some? {
        r := Err(ContractUnverified(unverified.value));
        return;
      }
      r := Ok(contractABI);
    }
  }

  // ---------------------------------------------------------------------
  // Properties
  // ---------------------------------------------------------------------

  /** The explorer is asked at most once, exactly when no ABI is given and
   *  the store has none, and the request goes to the host of the network
   *  passed in (not the core's own network) for the checksummed address. */
  lemma ExplorerOnlyOnMiss(c: Core, names: NetworkNames, env: Env, stored: string, contract: Address,
                           contractABI: string, rememberABI: bool, network: string)
    ensures var o := Prepare(c, names, env, stored, contract, contractABI, rememberABI, network);
      && ((exists k :: 0 <= k < |o.trace| && o.trace[k].ExplorerQuery?) <==> contractABI == "" && stored == "")
      && (forall k, l :: 0 <= k < |o.trace| && 0 <= l < |o.trace| && o.trace[k].ExplorerQuery? && o.trace[l].ExplorerQuery? ==> k == l)
      && (forall k :: 0 <= k < |o.trace| && o.trace[k].ExplorerQuery? ==>
            o.trace[k].url == Etherscan.RequestURL(c.esc, names, env.checksumHex(contract), network))
  {
    var o := Prepare(c, names, env, stored, contract, contractABI, rememberABI, network);
    if contractABI == "" && stored == "" {
      assert o.trace[1].ExplorerQuery?;
    }
  }

  /** An ABI given by the caller is used only for a contract whose code the
   *  node reports as non-empty; neither the store nor the explorer is read. */
  lemma SuppliedAbiNeedsCode(c: Core, names: NetworkNames, env: Env, stored: string, contract: Address,
                             contractABI: string, rememberABI: bool, network: string)
    requires contractABI != ""
    ensures var o := Prepare(c, names, env, stored, contract, contractABI, rememberABI, network);
      && |o.trace| >= 1 && o.trace[0] == CodeRead(contract)
      && (forall k :: 0 <= k < |o.trace| ==> !o.trace[k].StoreRead? && !o.trace[k].ExplorerQuery?)
      && (env.codeAt(c.ecli, contract).Err? ==>
            o.result == Err(ContractUnverified(RpcFailure(env.codeAt(c.ecli, contract).error))))
      && (o.result.Ok? <==>
            && env.codeAt(c.ecli, contract).Ok? && |env.codeAt(c.ecli, contract).value| > 0
            && env.parse(contractABI).Ok?)
      && (o.result.Ok? ==> o.result.value == env.parse(contractABI).value)
  {
  }

  /** A stored ABI is used as is when none is given: the store is read and
   *  nothing else is asked. */
  lemma StoredAbiPreferred(c: Core, names: NetworkNames, env: Env, stored: string, contract: Address,
                           rememberABI: bool, network: string)
    requires stored != ""
    ensures var o := Prepare(c, names, env, stored, contract, "", rememberABI, network);
      && o.trace[0] == StoreRead(contract)
      && (forall k :: 1 <= k < |o.trace| ==> o.trace[k] == StoreWrite(contract, stored))
      && (o.result.Ok? <==> env.parse(stored).Ok?)
      && (o.result.Ok? ==> o.result.value == env.parse(stored).value)
  {
  }

  /** The store is written at most once, exactly when the ABI was to be
   *  remembered and was found and parsed; the text written is the text
   *  parsed, caller-supplied text included. */
  lemma RememberWritesOnce(c: Core, names: NetworkNames, env: Env, stored: string, contract: Address,
                           contractABI: string, rememberABI: bool, network: string)
    ensures var o := Prepare(c, names, env, stored, contract, contractABI, rememberABI, network);
      && ((exists k :: 0 <= k < |o.trace| && o.trace[k].StoreWrite?) <==> rememberABI && o.result.Ok?)
      && (forall k :: 0 <= k < |o.trace| && o.trace[k].StoreWrite? ==>
            && k == |o.trace| - 1
            && o.trace[k].contract == contract
            && env.parse(o.trace[k].abi) == Ok(o.result.value)
            && (contractABI != "" ==> o.trace[k].abi == contractABI))
  {
    var o := Prepare(c, names, env, stored, contract, contractABI, rememberABI, network);
    var found := ResolveAbi(c, names, env, stored, contract, contractABI, network);
    assert forall k :: 0 <= k < |found.trace| ==> !found.trace[k].StoreWrite?;
    if rememberABI && o.result.Ok? {
      assert o.trace[|o.trace| - 1].StoreWrite?;
    }
  }

  /** Remembering pays off: after a listing that remembered a non-empty ABI
   *  on a working store, a later listing without an ABI reads it back from
   *  the store, does not ask the explorer, and gets the same ABI. */
  lemma RememberedAbiIsReused(c: Core, names: NetworkNames, env: Env, rows: map<Address, string>,
                              contract: Address, contractABI: string, network: string,
                              rememberAgain: bool, laterNetwork: string)
    requires var o := Prepare(c, names, env, StoredABI(rows, None, contract), contract, contractABI, true, network);
      o.result.Ok? && o.trace[|o.trace| - 1].abi != ""
    ensures var o := Prepare(c, names, env, StoredABI(rows, None, contract), contract, contractABI, true, network);
      var after := RowsAfter(rows, None, o.trace);
      var later := Prepare(c, names, env, StoredABI(after, None, contract), contract, "", rememberAgain, laterNetwork);
      && StoredABI(after, None, contract) == o.trace[|o.trace| - 1].abi
      && (forall k :: 0 <= k < |later.trace| ==> !later.trace[k].ExplorerQuery?)
      && later.result == o.result
  {
    var stored := StoredABI(rows, None, contract);
    var o := Prepare(c, names, env, stored, contract, contractABI, true, network);
    var found := ResolveAbi(c, names, env, stored, contract, contractABI, network);
    var text := found.result.value;
    assert o.trace == found.trace + [StoreWrite(contract, text)];
    RowsAfterFinalWrite(rows, None, found.trace, contract, text);
    var after := RowsAfter(rows, None, o.trace);
    assert StoredABI(after, None, contract) == text;
    StoredAbiPreferred(c, names, env, text, contract, rememberAgain, laterNetwork);
  }
}
