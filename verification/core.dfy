/** The `Core` of core/core.go: its collaborators, the ABI store it reads
 *  and writes, and the network identity lookups (`networkFromNode`,
 *  `NewCore`, `NetworkInfo`). The call pipeline is in module Dispatch and
 *  the method listing in module Catalog. */
module Core {
  import opened Common
  import Etherscan

  /** A connection to a node, known by the endpoint it was dialled at. */
  datatype Client = Client(endpoint: string)

  /** The libraries and remote services the core drives, each as a function:
   *  the ABI JSON parser, dialling a node, the node's chain id, the code at
   *  an address, one packed-call-unpacked round trip (`Caller.Call`), the
   *  checksummed hex spelling of an address, and the explorer's HTTP GET. */
  datatype Env = Env(
    parse: string -> Result<Abi, string>,
    dial: string -> Result<Client, string>,
    chainID: Client -> Result<int, string>,
    codeAt: (Client, Address) -> Result<seq<Byte>, string>,
    invoke: (Client, Abi, Address, string, seq<Value>, Option<int>) -> Result<seq<Value>, string>,
    checksumHex: Address -> string,
    doReq: string -> Result<Etherscan.Response, string>)

  /** One interaction with a collaborator, in the order it happens. */
  datatype Step =
    | StoreRead(contract: Address)
    | StoreWrite(contract: Address, abi: string)
    | ExplorerQuery(url: string)
    | CodeRead(contract: Address)
    | Dial(node: string)
    | ChainIDRead(client: Client)
    | Invoke(client: Client, methodName: string, input: seq<Value>, block: Option<int>)

  /** An operation's result together with the steps it took. */
  datatype Outcome<+T> = Outcome(result: Result<T, Error>, trace: seq<Step>)

  /** What a read of the store yields: the stored text, or "" when there is
   *  none or the read fails. */
  function StoredABI(rows: map<Address, string>, readFault: Option<string>, contract: Address): string {
    if readFault.None? && contract in rows then rows[contract] else ""
  }

  /** The ABI store: raw ABI text keyed by contract address, one row per
   *  contract, overwritten on every store. `readFault`/`writeFault` stand for
   *  a database that fails every read/write. */
  class AbiStore {
    var rows: map<Address, string>
    const readFault: Option<string>
    const writeFault: Option<string>

    /** `NewStorage` on a database that already holds `existing`: the table
     *  is created only when missing, so the rows already there are kept. */
    constructor (existing: map<Address, string>, readFault: Option<string>, writeFault: Option<string>)
      ensures rows == existing
      ensures this.readFault == readFault && this.writeFault == writeFault
    {
      rows := existing;
      this.readFault := readFault;
      this.writeFault := writeFault;
    }

    /** `GetContractABI`: the stored text ("" when absent) and the read error. */
    method GetContractABI(contract: Address) returns (abi: string, err: Option<string>)
      ensures abi == StoredABI(rows, readFault, contract)
      ensures err == readFault
      ensures err.None? ==> (abi != "" ==> contract in rows && rows[contract] == abi)
    {
      err := readFault;
      abi := StoredABI(rows, readFault, contract);
    }

    /** `StoreContractABI`: the row for `contract` now holds `abi`; nothing
     *  else changes. */
    method StoreContractABI(contract: Address, abi: string) returns (err: Option<string>)
      modifies this
      ensures err == writeFault
      ensures rows == if writeFault.None? then old(rows)[contract := abi] else old(rows)
    {
      err := writeFault;
      if writeFault.None? {
        rows := rows[contract := abi];
      }
    }
  }

  /** The rows after the store writes of a trace, in order; a failing store
   *  keeps its rows. */
  function RowsAfter(rows: map<Address, string>, writeFault: Option<string>, trace: seq<Step>): map<Address, string>
    decreases |trace|
  {
    if |trace| == 0 then rows
    else
      var next := match trace[0]
        case StoreWrite(c, t) => if writeFault.None? then rows[c := t] else rows
        case _ => rows;
      RowsAfter(next, writeFault, trace[1..])
  }

  /** Steps other than store writes leave the rows as they are. */
  lemma {:induction false} RowsAfterReadOnly(rows: map<Address, string>, writeFault: Option<string>, trace: seq<Step>)
    requires forall k :: 0 <= k < |trace| ==> !trace[k].StoreWrite?
    ensures RowsAfter(rows, writeFault, trace) == rows
    decreases |trace|
  {
    if |trace| > 0 {
      assert forall k :: 0 <= k < |trace| - 1 ==> trace[1..][k] == trace[k + 1];
      RowsAfterReadOnly(rows, writeFault, trace[1..]);
    }
  }

  /** A store write after steps that write nothing sets that one row, unless
   *  the store fails its writes. */
  lemma {:induction false} RowsAfterFinalWrite(rows: map<Address, string>, writeFault: Option<string>, trace: seq<Step>,
                                               contract: Address, abi: string)
    requires forall k :: 0 <= k < |trace| ==> !trace[k].StoreWrite?
    ensures RowsAfter(rows, writeFault, trace + [StoreWrite(contract, abi)]) ==
      if writeFault.None? then rows[contract := abi] else rows
    decreases |trace|
  {
    var t := trace + [StoreWrite(contract, abi)];
    if |trace| == 0 {
      assert t[1..] == [];
    } else {
      assert t[1..] == trace[1..] + [StoreWrite(contract, abi)];
      assert forall k :: 0 <= k < |trace| - 1 ==> trace[1..][k] == trace[k + 1];
      RowsAfterFinalWrite(rows, writeFault, trace[1..], contract, abi);
    }
  }

  /** Last write wins: storing twice for one contract leaves the second text,
   *  which a later read returns. */
  lemma {:induction false} LastWriteWins(rows: map<Address, string>, contract: Address, first: string, second: string)
    ensures var after := RowsAfter(rows, None, [StoreWrite(contract, first), StoreWrite(contract, second)]);
      && StoredABI(after, None, contract) == second
      && after.Keys == rows.Keys + {contract}
  {
    var t := [StoreWrite(contract, first), StoreWrite(contract, second)];
    var once := rows[contract := first];
    assert t[1..] == [StoreWrite(contract, second)];
    assert RowsAfter(rows, None, t) == RowsAfter(once, None, t[1..]);
    assert RowsAfter(once, None, t[1..]) == RowsAfter(once[contract := second], None, []);
  }

  /** The core: the explorer client, the default node, the store and the
   *  network name found when it was made. None of them changes afterwards. */
  datatype Core = Core(esc: Etherscan.Etherscan, ecli: Client, s: AbiStore, network: string)

  /** `big.Int.Int64` on a chain id: its low 64 bits as a signed number. */
  function Int64(x: int): (r: int)
    ensures -0x8000_0000_0000_0000 <= r < 0x8000_0000_0000_0000
    ensures (r - x) % 0x1_0000_0000_0000_0000 == 0
  {
    var m := x % 0x1_0000_0000_0000_0000;
    if m >= 0x8000_0000_0000_0000 then m - 0x1_0000_0000_0000_0000 else m
  }

  /** The switch of `networkFromNode`. */
  function NetworkFromChainID(names: NetworkNames, id: int): (r: string)
    ensures r in names.Known() + [names.unknown]
    ensures id !in {1, 3, 42, 56, 97} ==> r == names.unknown
  {
    match id
    case 1 => names.ethereumMainnet
    case 3 => names.ethereumRopsten
    case 42 => names.ethereumKovan
    case 56 => names.bscMainnet
    case 97 => names.bscTestnet
    case _ => names.unknown
  }

  /** Chain ids 1, 3, 42, 56 and 97 name the five networks; every other id,
   *  taken as the node's 64-bit chain id, is the unknown network. */
  lemma ChainIDTable(names: NetworkNames, chainID: int)
    requires names.Valid()
    ensures var n := NetworkFromChainID(names, Int64(chainID));
      && (n == names.ethereumMainnet <==> Int64(chainID) == 1)
      && (n == names.ethereumRopsten <==> Int64(chainID) == 3)
      && (n == names.ethereumKovan <==> Int64(chainID) == 42)
      && (n == names.bscMainnet <==> Int64(chainID) == 56)
      && (n == names.bscTestnet <==> Int64(chainID) == 97)
      && (n == names.unknown <==> Int64(chainID) !in {1, 3, 42, 56, 97})
  {
    var all := names.Known() + [names.unknown];
    assert all[0] != all[1] && all[0] != all[2] && all[0] != all[3] && all[0] != all[4] && all[0] != all[5];
    assert all[1] != all[2] && all[1] != all[3] && all[1] != all[4] && all[1] != all[5];
    assert all[2] != all[3] && all[2] != all[4] && all[2] != all[5];
    assert all[3] != all[4] && all[3] != all[5] && all[4] != all[5];
  }

  /** `networkFromNode`: ask the node for its chain id and look it up. */
  function NetworkFromNode(names: NetworkNames, env: Env, cli: Client): (r: Result<string, Error>)
    ensures env.chainID(cli).Err? ==> r == Err(RpcError(env.chainID(cli).error))
    ensures env.chainID(cli).Ok? ==> r == Ok(NetworkFromChainID(names, Int64(env.chainID(cli).value)))
    ensures r.Ok? ==> r.value in names.Known() + [names.unknown]
  {
    match env.chainID(cli)
    case Err(e) => Err(RpcError(e))
    case Ok(id) => Ok(NetworkFromChainID(names, Int64(id)))
  }

  /** `NewCore`: fails exactly when the default node cannot report its chain
   *  id; otherwise the core remembers the node's network. */
  function NewCore(esc: Etherscan.Etherscan, ecli: Client, s: AbiStore, names: NetworkNames, env: Env): (r: Result<Core, Error>)
    ensures r.Ok? <==> env.chainID(ecli).Ok?
    ensures r.Ok? ==> r.value == Core(esc, ecli, s, NetworkFromChainID(names, Int64(env.chainID(ecli).value)))
  {
    match NetworkFromNode(names, env, ecli)
    case Err(e) => Err(e)
    case Ok(network) => Ok(Core(esc, ecli, s, network))
  }

  /** `NetworkInfo`: with no node given, the core's own network and no
   *  remote step; otherwise dial the node and ask it, returning its errors. */
  function NetworkInfo(c: Core, names: NetworkNames, env: Env, node: string): (o: Outcome<string>)
    ensures node == "" ==> o == Outcome(Ok(c.network), [])
    ensures node != "" ==> |o.trace| >= 1 && o.trace[0] == Dial(node)
    ensures node != "" && env.dial(node).Err? ==> o.result == Err(RpcError(env.dial(node).error)) && |o.trace| == 1
    ensures node != "" && env.dial(node).Ok? ==>
      o == Outcome(NetworkFromNode(names, env, env.dial(node).value), [Dial(node), ChainIDRead(env.dial(node).value)])
  {
    if node == "" then Outcome(Ok(c.network), [])
    else match env.dial(node)
      case Err(e) => Outcome(Err(RpcError(e)), [Dial(node)])
      case Ok(cli) => Outcome(NetworkFromNode(names, env, cli), [Dial(node), ChainIDRead(cli)])
  }
}
