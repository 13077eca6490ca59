# contract-caller core, modelled in Dafny

contract-caller lets a user read a smart contract without writing code. Given
a contract address and, optionally, its ABI text, the core does three things.

- It lists the contract's read-only methods and their arguments (`ContractMethods`).
  The ABI comes from the caller, from a local ABI store, or from the
  Etherscan/BscScan explorer of the chosen network.
- It calls one method with string arguments (`CallContract`). Each string is
  converted to the declared ABI type by `handleData`. The call goes to the
  default node or to a node the caller names, at the latest block or at a
  block given in decimal or hex.
- It reports which network a node belongs to (`networkFromNode`, `NewCore`,
  `NetworkInfo`).

The project has seven modules:

- `Common` (common.dfy): the records of the core. These are ABI methods and
  arguments, listed methods, converted values, errors, and the network names.
- `Text` (text.dfy): the library routines the core relies on, written out.
  This covers `big.Int.SetString` in base 10, go-ethereum's `IsHexAddress`,
  `HexToAddress`, `hexutil.Decode` and `hexutil.DecodeBig`, and
  `strings.ReplaceAll`, `Split` and `Contains`. It also has the UTF-8
  encoding behind `[]byte(s)`.
- `Etherscan` (etherscan.dfy): the explorer client. It picks the host per
  network, builds the request URL, and reads the reply.
- `Marshaller` (marshal.dfy): `handleData`.
- `Core` (core.dfy): three parts.
  - The collaborators, as the function values of `Env`: ABI JSON parsing,
    dialling a node, chain id, code lookup, the packed call, checksummed
    address spelling, and the explorer's HTTP request.
  - The ABI store, a class whose `rows` map the methods update.
  - The network lookups.
- `Dispatch` (dispatch.dfy): `CallContract`.
- `Catalog` (catalog.dfy): `ContractMethods`.

The operations that make several remote or store steps in a row return a
trace of `Step`s next to their result: `NetworkInfo`, the ABI lookup
(`ResolveAbi`, `Prepare`, `ContractMethods`) and the call pipeline (`Remote`,
`CallWithAbi`, `CallSpec`, `CallContract`). The steps are store reads and
writes, explorer queries, code reads, dials, chain id reads, and calls. The
single-step helpers (`NetworkFromNode`, `NewCore`, `VerifyContract`,
`Etherscan.GetContractABI`) return only their result; where a larger
operation uses one of them, that operation records the step (`NetworkInfo` the
chain id read, `ResolveAbi` the code read and the explorer query). The trace
is how the model states which remote actions happen and in what order. `CallContract` and `ContractMethods` are methods
that work step by step as the Go code does, with the Go code's loops. Each
one is proved equal to a specification function (`CallSpec`, `Prepare`), and
the properties are lemmas about those functions. Both methods are split into
stages that follow the Go code's branches (`FindAbi`; `CallWithParsedAbi`,
`MarshalInputs`, `MarshalInput`, `ResolveBlockNumber`, `CallNode`), each proved against the
matching part of the specification.

Three details of the code are easy to misread, and the model keeps them as the code has them:

- Array arguments drop only the space character (`strings.ReplaceAll(ps, " ", "")`),
  not all whitespace.
- A block number is treated as hex when it contains "0x" anywhere, not only
  when it starts with it. "0X10" is read as decimal and rejected.
- `rememberABI` stores whatever text was parsed. This includes a caller-supplied
  ABI and an ABI that was just read back from the store.

## Model

| member | source | states |
|---|---|---|
| Text.ParseDecimal | core/core.go:230 | `big.Int.SetString(s, 10)`: a success has at least one digit, and every character after an optional sign is a digit |
| Text.DecimalRoundTrip | core/core.go:230 | every integer, negative or beyond any fixed width, reads back from its decimal spelling |
| Text.DecimalHasNoSeparator | core/core.go:241 | a token that still holds a comma or a space is never a number |
| Text.DecodeHexDigits | core/core.go:296 | hex digits decode exactly when there is an even number of them, one byte per pair |
| Text.DecodeHexDigitsBytes | core/core.go:296 | byte k of a decoded run is digit 2k times 16 plus digit 2k+1 |
| Text.HexRoundTrip | core/core.go:296 | decoding the hex spelling of any byte string gives it back |
| Text.DecodeHex | core/core.go:295-301 | `hexutil.Decode` succeeds exactly on "0x"/"0X" followed by an even number of hex digits |
| Text.IsHexAddress | core/core.go:254 | `IsHexAddress` accepts exactly 40 hex digits, or "0x"/"0X" followed by 40 hex digits |
| Text.HexToAddress | core/core.go:258 | byte k of the address is hex digit 2k times 16 plus digit 2k+1 of the spelling without its prefix |
| Text.AddressRoundTrip | core/core.go:262-266 | every address spelled "0x" plus its 40 hex digits passes `IsHexAddress`, and `HexToAddress` gives the address back |
| Text.HexDigitsBound | core/core.go:192 | k hex digits denote a number below 16^k |
| Text.DecodeBig | core/core.go:192 | a decoded hex quantity is below 2^256; the 64-digit limit counts UTF-8 bytes, as Go's `len` does, and is checked before the digits |
| Text.FormatHexFacts | core/core.go:192 | the shortest hex spelling of n < 16^k has at most k digits and denotes n |
| Text.DecodeBigRoundTrip | core/core.go:192 | every quantity below 2^256, written as "0x" plus its digits, decodes to itself |
| Text.RemoveSpaces | core/core.go:237 | the result is no longer than the input, and an input without a space is unchanged |
| Text.RemoveSpacesChars | core/core.go:237 | the result holds exactly the input's characters other than ' ' |
| Text.Split | core/core.go:238 | the split gives at least one piece, and no piece holds a comma |
| Text.JoinSplit | core/core.go:238 | joining the pieces with commas gives the input back |
| Text.SplitJoin | core/core.go:238 | comma-free pieces joined by commas split back into the same pieces |
| Text.ContainsHexMarker | core/core.go:191 | `strings.Contains(s, "0x")` holds for any input that starts with "0x", and only for inputs with a '0' and an 'x' in them |
| Text.EncodeChar | core/core.go:303 | a UTF-8 sequence is 1 to 4 bytes, and it is one byte exactly for ASCII |
| Text.Utf8 | core/core.go:303 | `[]byte(s)` has between one and four bytes per character |
| Text.Utf8Ascii | core/core.go:303 | an ASCII string's bytes are its characters, one each |
| Marshaller.Marshal | core/core.go:226-308 | `handleData` as a function: only a type the switch lists can succeed, and every error is a wrong-data-type error naming the argument and its declared type |
| Marshaller.ConvertTokens | core/core.go:240-247 | the element loop returns every token converted, in order, or nothing when any token is rejected |
| Marshaller.HandleData | core/core.go:226-308 | `handleData`, step by step, equals `Marshal` |
| Marshaller.ClosedTypeGrammar | core/core.go:228-307 | only the listed type names can succeed; any other type fails with the input as the reported value |
| Marshaller.ScalarInteger | core/core.go:229-235 | an integer type succeeds exactly on base-10 input, with its value and no range check; otherwise the error reports the input |
| Marshaller.ScalarIntegerRoundTrip | core/core.go:229-235 | every integer in decimal is accepted for all four integer types |
| Marshaller.ArrayElements | core/core.go:236-293 | an array succeeds exactly when every token of the space-stripped, comma-split input converts; the k-th element comes from the k-th token; the error reports the stripped input |
| Marshaller.EmptyArrayInputFails | core/core.go:236-293 | "" is one empty token, so every array type rejects it |
| Marshaller.IntegerArrayRoundTrip | core/core.go:236-248 | integers in decimal joined by commas come back as the same list |
| Marshaller.NoSpaceInJoin | core/core.go:237 | joining space-free pieces adds no space |
| Marshaller.BoolExact | core/core.go:267-277 | only "true" and "false" are bools, each mapping to its own value |
| Marshaller.AddressArgument | core/core.go:261-266 | an address succeeds exactly when `IsHexAddress` holds; "0x" plus 40 hex digits reads back as the address |
| Marshaller.BytesArgument | core/core.go:294-303 | with "0x" in the input, it must be a `hexutil` byte string; without it, the value is the input's own UTF-8 bytes |
| Marshaller.BytesRoundTrip | core/core.go:294-302 | any byte string spelled "0x" plus hex digits reads back as itself |
| Marshaller.IntegerListExample | core/core.go:236-248 | "1, 2" for uint256[] gives [1, 2] |
| Marshaller.BadElementExample | core/core.go:240-245 | "1,x" for uint256[] fails, and the error reports the input |
| Marshaller.HexBytesDecoded | core/core.go:295-301 | `hexutil.Decode` reads "0x1234" as the two bytes 0x12, 0x34 |
| Marshaller.HexBytesExample | core/core.go:295-301 | "0x1234" for bytes gives the two bytes 0x12, 0x34 |
| Marshaller.LiteralBytesExample | core/core.go:303 | "hi" for int8 gives the bytes 0x68, 0x69 |
| Marshaller.RejectedExamples | core/core.go:229-277 | "True" as a bool and "abc" as an int128 both fail |
| Marshaller.NarrowIntegerExample | core/core.go:304-307 | uint8 is not among the switch's types, so every input fails with the input reported |
| Marshaller.FixedArrayExample | core/core.go:304-307 | a fixed-length array type such as uint256[2] fails for every input, with the input reported |
| Etherscan.NewEtherscan | lib/etherscan/etherscan.go:21-27 | the client keeps the key, and its base is the Ethereum mainnet explorer |
| Etherscan.BaseAPIURL | lib/etherscan/etherscan.go:35-50 | a network outside the five named ones uses the client's base; every result is that base or one of the five hosts |
| Etherscan.KnownNetworkHosts | lib/etherscan/etherscan.go:35-50 | each of the five named networks maps to its own fixed host, whatever the base |
| Etherscan.DefaultHost | lib/etherscan/etherscan.go:21-50 | a new client sends "", the unknown network and any other name to api.etherscan.io |
| Etherscan.RequestURL | lib/etherscan/etherscan.go:54-55 | the URL is the network's host, then the getabi path and query up to `address=`, then the address, then `&apikey=`, then the key, each at its own place |
| Etherscan.GetContractABI | lib/etherscan/etherscan.go:53-65 | a transport error is returned as is; a status other than "1" fails with the reply's message; the result is the reply's text exactly when the status is "1" |
| Core.AbiStore.constructor | storage/storage.go:18-42 | a store opened on a database keeps the rows already in it, and keeps its fault settings |
| Core.AbiStore.GetContractABI | storage/storage.go:45-62 | a read gives the stored text, or "" when there is no row or the read fails, together with the read error |
| Core.AbiStore.StoreContractABI | storage/storage.go:64-77 | a write replaces the contract's row and touches no other; a failing store is unchanged |
| Core.RowsAfterReadOnly | storage/storage.go:45-62 | steps that are not store writes leave the rows unchanged |
| Core.RowsAfterFinalWrite | storage/storage.go:64-77 | a final write after read-only steps sets exactly that row, unless the store fails |
| Core.LastWriteWins | storage/storage.go:64-77 | two writes for one contract leave the second text, which a read returns, and add only that key |
| Core.Int64 | core/core.go:38 | `big.Int.Int64` gives a signed 64-bit value congruent to the chain id modulo 2^64 |
| Core.NetworkFromChainID | core/core.go:38-51 | the switch gives one of the six network names, and the unknown network for any id other than 1, 3, 42, 56 and 97 |
| Core.ChainIDTable | core/core.go:38-51 | chain ids 1, 3, 42, 56 and 97 name the five networks, each exactly for its id; every other id is the unknown network |
| Core.NetworkFromNode | core/core.go:33-52 | a chain-id error is returned; otherwise the name is the table's entry for the chain id's low 64 bits, one of the six network names |
| Core.NewCore | core/core.go:55-67 | a core is made exactly when the default node reports its chain id, and it keeps that node's network |
| Core.NetworkInfo | core/core.go:311-320 | with no node given, the core's own network and no remote step; otherwise a dial then a chain-id read, returning their errors |
| Dispatch.ParamFor | core/core.go:171-178 | a missing parameter is ""; a string parameter is passed through unchanged; a parameter that is not a string fails with the method and argument names |
| Dispatch.ConvertInOrderOk | core/core.go:166-185 | converting a list in order succeeds exactly when every element converts, and the values line up with the elements |
| Dispatch.ConvertInOrderFirstFailure | core/core.go:166-185 | when the first i elements convert and the i-th does not, the whole conversion fails with the i-th element's error |
| Dispatch.MarshalArgs | core/core.go:166-185 | the arguments succeed exactly when every declared input converts, with one value per input |
| Dispatch.MarshalArgsOk | core/core.go:167-185 | the arguments succeed exactly when every declared input converts; the values line up with the inputs in declared order |
| Dispatch.MarshalArgsFirstFailure | core/core.go:167-185 | the first input that fails decides the call's error, whatever follows it |
| Dispatch.MarshalArgsFailsAt | core/core.go:179-183 | a failure after i good inputs is the failure of the whole list |
| Dispatch.ResolveBlock | core/core.go:186-204 | only "" means the latest block; with "0x" in it the input succeeds exactly when `DecodeBig` does, with its value, and otherwise fails with the decoder's error; without it the input succeeds exactly when it is a base-10 integer, with its value, and otherwise fails as a wrong block number reporting the input |
| Dispatch.DecimalBlock | core/core.go:197-203 | every integer written in decimal resolves to that block |
| Dispatch.HexBlock | core/core.go:191-196 | every quantity below 2^256 written as "0x" plus its digits resolves to that block |
| Dispatch.BlockNumberRoundTrip | core/core.go:190-204 | every integer in decimal, and every quantity below 2^256 in "0x" hex, resolves to that block |
| Dispatch.BlockNumberMarkers | core/core.go:191 | "0X10" is rejected as decimal; "10x5" goes to the hex decoder, which wants a prefix |
| Dispatch.NonCanonicalBlocks | core/core.go:197-203 | a sign and leading zeros are accepted: "+5" is block 5 and "007" is block 7 |
| Dispatch.Remote | core/core.go:205-223 | with no node named, one call on the default node; otherwise a dial first, and a call on the dialled node only when the dial succeeds; a failed dial reports the node; the result is the call's own result, or `CallFailed` with the call's error |
| Dispatch.CallWithAbi | core/core.go:160-223 | a remote step happens exactly when the method exists, every argument converts and the block resolves, and then the outcome is the node choice and call; otherwise the error is the unknown method, else the first argument error, else the block error |
| Dispatch.CallSpec | core/core.go:140-224 | `CallContract` as a function of the stored text: at most three steps; an ABI that does not parse fails with the parser's error before anything but the store read |
| Dispatch.CallContract | core/core.go:140-224 | `CallContract`, step by step, equals `CallSpec` on the store's contents |
| Dispatch.CallWithParsedAbi | core/core.go:160-223 | the method lookup, the argument loop, the block and the call, step by step, follow `CallWithAbi` |
| Dispatch.MarshalInputs | core/core.go:166-185 | the argument loop equals the in-order conversion `MarshalArgs`, stopping at the first failure |
| Dispatch.MarshalInput | core/core.go:167-184 | one pass of the argument loop equals the lookup-then-convert `MarshalParam` |
| Dispatch.ResolveBlockNumber | core/core.go:186-204 | the block-number branch equals `ResolveBlock` |
| Dispatch.CallNode | core/core.go:205-223 | the node choice and the call, step by step, follow `Remote` |
| Dispatch.UnknownMethodStopsEarly | core/core.go:160-164 | an unknown method fails with its name before any argument is read or any node is dialled or called |
| Dispatch.InvokeIsLast | core/core.go:155-218 | a call step is the trace's last step; it happens only after the ABI parsed and the method was found, and it carries the method name, the converted arguments and the resolved block |
| Dispatch.InvokeCarriesDeclaredArguments | core/core.go:166-218 | the one call is the last step and happens only after every earlier step succeeded; it carries each declared input's converted value in declared order and the resolved block |
| Dispatch.FirstBadArgumentAborts | core/core.go:166-185 | the first input that fails is the call's error, and nothing is dialled or called |
| Dispatch.BadBlockAborts | core/core.go:186-204 | once the method and its arguments are fine, a block number that does not resolve is the call's error, and nothing is dialled or called |
| Dispatch.CallAbiSource | core/core.go:148-154 | the store is read exactly when no ABI is given; a call never queries the explorer, reads code or writes the store |
| Dispatch.SuccessIsTheCallResult | core/core.go:205-223 | a success returns exactly what the one call returned, made on the default node when no node is named |
| Catalog.VerifyContract | core/core.go:70-79 | a contract passes exactly when the node reports non-empty code at it; a node error is returned, and empty code is the no-code error |
| Catalog.ResolveAbi | core/core.go:89-109 | a supplied ABI costs one code read and is kept exactly when the contract has code, otherwise the error is `ContractUnverified` with the code check's reason; without one the store is read, a stored ABI is used as is, and only a miss asks the explorer, at the network's host for the checksummed address, whose text is the result and whose failure is `AbiUnavailable`; no step writes or calls |
| Catalog.FindAbi | core/core.go:89-109 | the ABI lookup, step by step, follows `ResolveAbi` on the store's contents |
| Catalog.Prepare | core/core.go:87-118 | the listing's ABI exists exactly when the text was found and parses, and is the parsed text; a lookup error is passed through and a parse failure is the unreadable-ABI error; the steps are the lookup's steps, plus, exactly when remembering a parsed ABI, one store write of the found text |
| Catalog.ArgumentsOf | core/core.go:124-130 | one listed argument per declared input, with the same name and type, in order |
| Catalog.ListConstantMethods | core/core.go:119-135 | the listing holds exactly the read-only methods, each under its ABI name with its arguments, each name once |
| Catalog.ContractMethods | core/core.go:87-137 | `ContractMethods` follows `Prepare` on the store's contents, lists exactly the read-only methods, and leaves the store as the trace's writes make it |
| Catalog.ExplorerOnlyOnMiss | core/core.go:89-103 | the explorer is asked at most once, exactly when no ABI is given and none is stored, at the given network's host and with the checksummed address |
| Catalog.SuppliedAbiNeedsCode | core/core.go:105-113 | a supplied ABI is used only when the node reports non-empty code; neither the store nor the explorer is read |
| Catalog.StoredAbiPreferred | core/core.go:89-104 | a stored ABI is used as is; nothing beyond the store is asked |
| Catalog.RememberWritesOnce | core/core.go:114-118 | the store is written at most once, exactly when remembering and the ABI was found and parsed; the text written is the parsed text, a supplied one included |
| Catalog.RememberedAbiIsReused | core/core.go:89-118 | after a remembered listing on a working store, a listing without an ABI reads it back, asks no explorer, and gets the same ABI |

## Left out

- The HTTP server, the command line, the web front end, and the REST client that carries the explorer request are not part of this model. The request is the `doReq` function of `Env`.
- The ABI store's database is a `map` from address to text. SQL, files and the bolt variant are not modelled. A failing database is one that fails every read or every write (`readFault`, `writeFault`).
- `abi.JSON`, the contract caller's pack/call/unpack (`Caller.Call`), `ethclient.Dial`, `ChainID`, `CodeAt` and `Address.Hex` are functions of `Env`. The model states what the core does with their results, not how they compute them.
- Method-name mangling for overloads and the mutability rules behind `IsConstant` belong to `abi.JSON` and are not modelled. An ABI method carries a `constant` flag.
- Logging (zap) and the explorer's debug print of the host are left out. They change no result.
- Error messages are constructors of `Error` that carry the same fields as the Go strings, not the formatted text.
- Go strings are Dafny strings of Unicode scalar values. Invalid UTF-8 in a Go string is not modelled.
- A nil slice and an empty slice are both the empty sequence. The JSON `null` that an empty listing produces is a serving concern.
- The spellings of the network-name constants are not in the modelled files, so they are a `NetworkNames` record. The lemmas that tell networks apart require the names to be distinct.
- The converted values are `Value`. The Go types `*big.Int`, `[]*big.Int`, `common.Address`, `bool` and `[]byte` are its constructors. The call's decoded outputs are a `seq<Value>` produced by the collaborator.
- Core.AbiStore.constructor: the open and table-creation errors of `NewStorage` are not returned; a database that cannot be used is modelled by the read and write faults.
- Text.ParseDecimal: the ensures gives the shape of accepted input and `DecimalRoundTrip` gives the values; the full grammar is stated by the function body only.
- Dispatch.CallContract: a block-number decoding error is wrapped as `BadHexBlock(e)`. In Go it is returned as is.
- Core.NetworkInfo: a dial error is wrapped as `RpcError(e)`. In Go it is returned as is.
- Core.NetworkFromNode: a chain-id error is wrapped as `RpcError(e)`. In Go it is returned as is.
- Core.NewCore: the chain-id error it passes on from `NetworkFromNode` is wrapped as `RpcError(e)`. In Go it is returned as is.
- Catalog.ListConstantMethods: the order of the listing is the Go map's iteration order, which is unspecified. The model picks keys with `:|`, and its contract states the listing as a set with distinct names.
