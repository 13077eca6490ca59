/** The block-explorer client (lib/etherscan/etherscan.go): which host a
 *  network's ABI is fetched from, the request URL, and how the explorer's
 *  JSON reply becomes ABI text or an error. The HTTP exchange itself is a
 *  function parameter. */
module Etherscan {
  import opened Common

  /** The explorer client; neither field changes after construction. */
  datatype Etherscan = Etherscan(apiKey: string, baseAPI: string)

  /** The explorer's JSON reply: status, message and the ABI text. */
  datatype Response = Response(status: string, message: string, result: string)

  const DefaultBaseAPI: string := "https://api.etherscan.io"

  /** The path and query of the getabi request, up to the address. */
  const GetAbiQuery: string := "/api?module=contract&action=getabi&address="

  /** The query parameter that carries the API key. */
  const ApiKeyParam: string := "&apikey="

  /** `NewEtherscan`: the given key, and the Ethereum mainnet explorer as the
   *  base for networks it does not know. */
  function NewEtherscan(apiKey: string): (e: Etherscan)
    ensures e.apiKey == apiKey
    ensures e.baseAPI == DefaultBaseAPI
  {
    Etherscan(apiKey, DefaultBaseAPI)
  }

  /** `baseAPIURLFromNetwork`: a fixed host for each of the five named
   *  networks, the client's own base for any other string. */
  function BaseAPIURL(e: Etherscan, names: NetworkNames, network: string): (url: string)
    ensures network !in names.Known() ==> url == e.baseAPI
    ensures url == e.baseAPI || url in KnownHosts()
  {
    if network == names.ethereumMainnet then "https://api.etherscan.io"
    else if network == names.ethereumRopsten then "https://api-ropsten.etherscan.io"
    else if network == names.ethereumKovan then "https://api-kovan.etherscan.io"
    else if network == names.bscMainnet then "https://api.bscscan.com"
    else if network == names.bscTestnet then "https://api-testnet.bscscan.com"
    else e.baseAPI
  }

  /** The explorer hosts of the five named networks, in the order of `Known()`. */
  function KnownHosts(): seq<string> {
    ["https://api.etherscan.io", "https://api-ropsten.etherscan.io",
     "https://api-kovan.etherscan.io", "https://api.bscscan.com",
     "https://api-testnet.bscscan.com"]
  }

  /** With distinct names, each named network is served by its own host,
   *  whatever the client's base. */
  lemma KnownNetworkHosts(e: Etherscan, names: NetworkNames)
    requires names.Valid()
    ensures BaseAPIURL(e, names, names.ethereumMainnet) == "https://api.etherscan.io"
    ensures BaseAPIURL(e, names, names.ethereumRopsten) == "https://api-ropsten.etherscan.io"
    ensures BaseAPIURL(e, names, names.ethereumKovan) == "https://api-kovan.etherscan.io"
    ensures BaseAPIURL(e, names, names.bscMainnet) == "https://api.bscscan.com"
    ensures BaseAPIURL(e, names, names.bscTestnet) == "https://api-testnet.bscscan.com"
  {
    var all := names.Known() + [names.unknown];
    assert all[0] != all[1] && all[0] != all[2] && all[0] != all[3] && all[0] != all[4];
    assert all[1] != all[2] && all[1] != all[3] && all[1] != all[4];
    assert all[2] != all[3] && all[2] != all[4] && all[3] != all[4];
  }

  /** A client made by `NewEtherscan` sends every network it does not name,
   *  the empty string included, to the Ethereum mainnet explorer. */
  lemma DefaultHost(apiKey: string, names: NetworkNames, network: string)
    requires names.Valid()
    requires network == "" || network == names.unknown || network !in names.Known()
    ensures BaseAPIURL(NewEtherscan(apiKey), names, network) == "https://api.etherscan.io"
  {
    var all := names.Known() + [names.unknown];
    assert forall i :: 0 <= i < 5 ==> all[i] == names.Known()[i];
    assert all[5] == names.unknown;
  }

  /** The getabi request: base, path and query, in that order. */
  function RequestURL(e: Etherscan, names: NetworkNames, addressHex: string, network: string): (url: string)
    ensures var base := BaseAPIURL(e, names, network);
      var a := |base| + |GetAbiQuery|;
      var k := a + |addressHex| + |ApiKeyParam|;
      && |url| == k + |e.apiKey|
      && url[..|base|] == base
      && url[|base|..a] == GetAbiQuery
      && url[a..a + |addressHex|] == addressHex
      && url[a + |addressHex|..k] == ApiKeyParam
      && url[k..] == e.apiKey
  {
    BaseAPIURL(e, names, network) + GetAbiQuery + addressHex + ApiKeyParam + e.apiKey
  }

  /** `GetContractABI`: one request to the URL above; a transport failure is
   *  returned as is, a reply whose status is not "1" becomes an error with
   *  the reply's message, and status "1" yields the reply's result unchanged. */
  function GetContractABI(e: Etherscan, names: NetworkNames, addressHex: string, network: string,
                          doReq: string -> Result<Response, string>): (r: Result<string, ExplorerError>)
    ensures var reply := doReq(RequestURL(e, names, addressHex, network));
      && (reply.Err? ==> r == Err(Transport(reply.error)))
      && (reply.Ok? && reply.value.status != "1" ==> r == Err(NotOk(reply.value.message)))
      && (r.Ok? <==> reply.Ok? && reply.value.status == "1")
      && (r.Ok? ==> r.value == reply.value.result)
  {
    match doReq(RequestURL(e, names, addressHex, network))
    case Err(t) => Err(Transport(t))
    case Ok(resp) =>
      if resp.status != "1" then Err(NotOk(resp.message)) else Ok(resp.result)
  }
}
