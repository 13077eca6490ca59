/** Values shared by every part of the contract caller: the records the
 *  listing returns (common/types.go), the parsed ABI the core works over,
 *  the typed arguments it produces, and the errors it reports. */
module Common {

  datatype Option<+T> = None | Some(value: T)

  datatype Result<+T, +E> = Ok(value: T) | Err(error: E)

  type Byte = b: int | 0 <= b < 256

  /** An account or contract address: exactly 20 bytes. */
  type Address = a: seq<Byte> | |a| == 20
    witness [0, 0, 0, 0, 0, 0, 0, 0, 0, 0, 0, 0, 0, 0, 0, 0, 0, 0, 0, 0]

  /** common.Argument: one declared input of a listed method. */
  datatype Argument = Argument(name: string, typ: string)

  /** common.Method: a listed method with its inputs in declared order. */
  datatype Method = Method(name: string, arguments: seq<Argument>)

  /** One input of a parsed ABI method: its name and its type as the ABI
   *  library spells it (`Type.String()`, e.g. "uint256[]"). */
  datatype AbiArgument = AbiArgument(name: string, typ: string)

  /** One parsed ABI method; `constant` is the library's `IsConstant()`. */
  datatype AbiMethod = AbiMethod(constant: bool, inputs: seq<AbiArgument>)

  /** A parsed ABI: its methods keyed by name. */
  datatype Abi = Abi(methods: map<string, AbiMethod>)

  /** A converted call argument, as handed to the ABI encoder. */
  datatype Value =
    | BigInt(n: int)
    | BigInts(ns: seq<int>)
    | Addr(address: Address)
    | Addrs(addresses: seq<Address>)
    | Bool(b: bool)
    | Bools(bs: seq<bool>)
    | Bytes(data: seq<Byte>)

  /** A value of the request's parameter map: a JSON string or anything else. */
  datatype Param = Str(s: string) | NotString

  /** The failures of go-ethereum's hexutil number decoding. */
  datatype HexError =
    | EmptyString
    | MissingPrefix
    | EmptyNumber
    | LeadingZero
    | Big256Range
    | Syntax

  /** How fetching an ABI from the block explorer fails. */
  datatype ExplorerError =
    | Transport(detail: string)   // the HTTP request itself failed
    | NotOk(message: string)      // "error msg: <message>"

  /** How checking that a contract has code fails. */
  datatype VerifyError =
    | RpcFailure(detail: string)  // the CodeAt call failed
    | NoCode                      // "no code at given contract"

  /** The errors the core reports, one constructor per message it formats. */
  datatype Error =
    | WrongDataType(arg: string, expected: string, actual: string)
    | WrongParamType(methodName: string, arg: string)
    | AbiUnreadable(detail: string)
    | MethodNotAvailable(methodName: string)
    | BadHexBlock(hexError: HexError)
    | WrongBlockNumber(input: string)
    | NodeUnreachable(node: string)
    | CallFailed(detail: string)
    | AbiUnavailable(fetchError: ExplorerError)
    | ContractUnverified(verifyError: VerifyError)
    | RpcError(detail: string)

  /** The application's network names (common.EthereumMainnet, ...,
   *  common.UnknowNetwork). Their spelling is not part of this model. */
  datatype NetworkNames = NetworkNames(
    ethereumMainnet: string,
    ethereumRopsten: string,
    ethereumKovan: string,
    bscMainnet: string,
    bscTestnet: string,
    unknown: string)
  {
    /** The five named networks, in the order the lookups test them. */
    function Known(): seq<string> {
      [ethereumMainnet, ethereumRopsten, ethereumKovan, bscMainnet, bscTestnet]
    }

    /** The names are non-empty and pairwise distinct. */
    predicate Valid() {
      var all := Known() + [unknown];
      (forall i :: 0 <= i < |all| ==> all[i] != "") &&
      (forall i, j :: 0 <= i < j < |all| ==> all[i] != all[j])
    }
  }
}
