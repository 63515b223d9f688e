/**
 * The POST handler of the query route: reject a missing query, dispatch on
 * the intent the language model extracted, and shape each handler's result.
 * The service calls and the address validator are parameters (`Services`);
 * `ServicesOf` plugs in the Solana service modelled in the other modules.
 */
module QueryRoute {
  import opened Wrappers
  import opened Chain
  import opened History
  import opened JsText
  import opened Timeframe
  import Interactions
  import Purchases
  import RecentBlocks

  /** `parsedQuery.entities`, each entity as the text the language model gave. */
  datatype Entities = Entities(walletAddress: Option<string>, timeframe: Option<string>, limit: Option<string>)

  datatype ParsedQuery = ParsedQuery(intent: Option<string>, entities: Entities)

  /** JavaScript truthiness of an optional string: absent and "" are falsy. */
  predicate Truthy(v: Option<string>) {
    v.Some? && v.value != ""
  }

  /** The six intents the `switch` handles. */
  datatype Intent =
    | WalletInteractionsQuery
    | TokenPurchasesQuery
    | TransactionHistoryQuery
    | AccountInfoQuery
    | TokenBalancesQuery
    | RecentBlocksQuery

  function Label(i: Intent): string {
    match i
    case WalletInteractionsQuery => "get_wallet_interactions"
    case TokenPurchasesQuery => "get_token_purchases"
    case TransactionHistoryQuery => "get_transaction_history"
    case AccountInfoQuery => "get_account_info"
    case TokenBalancesQuery => "get_token_balances"
    case RecentBlocksQuery => "get_recent_blocks"
  }

  /** The `case` of the `switch` a label selects, if any. */
  function IntentOf(name: string): (r: Option<Intent>)
    ensures r.Some? ==> Label(r.value) == name
    ensures forall i :: Label(i) == name ==> r == Some(i)
  {
    if name == "get_wallet_interactions" then Some(WalletInteractionsQuery)
    else if name == "get_token_purchases" then Some(TokenPurchasesQuery)
    else if name == "get_transaction_history" then Some(TransactionHistoryQuery)
    else if name == "get_account_info" then Some(AccountInfoQuery)
    else if name == "get_token_balances" then Some(TokenBalancesQuery)
    else if name == "get_recent_blocks" then Some(RecentBlocksQuery)
    else None
  }

  /** One element of `getTokenAccounts`, which this model takes as given. */
  datatype TokenAccount = TokenAccount(address: Address, mint: Address, owner: Address, amount: Option<real>, decimals: int)

  /** The four fields the transaction-history handler keeps of each entry. */
  datatype TxSummary = TxSummary(signature: string, blockTime: Option<int>, slot: int, confirmationStatus: Option<string>)

  /** The `result` object each handler builds. */
  datatype QueryData =
    | InteractionsData(walletAddress: Address, timeframeDays: nat, interactionCount: nat, interactions: seq<Address>)
    | PurchasesData(walletAddress: Address, timeframeDays: nat, purchaseCount: nat, purchases: seq<Purchases.PurchaseEvent>)
    | HistoryData(walletAddress: Address, transactionCount: nat, transactions: seq<TxSummary>)
    | AccountData(walletAddress: Address, accountInfo: AccountInfo)
    | BalancesData(walletAddress: Address, tokenCount: nat, tokens: seq<TokenAccount>)
    | BlocksData(blockCount: nat, blocks: seq<RecentBlocks.BlockSummary>)

  /** Why a handler throws. */
  datatype HandlerError =
    | MissingWalletAddress   // "Wallet address is required for this query"
    | InvalidAddressFormat   // "Invalid Solana address format"
    | ServiceFailed(cause: ServiceError)

  datatype BadRequestReason =
    | QueryRequired                         // "Query is required and must be a string"
    | NotUnderstood                         // "Could not understand the query..."
    | UnsupportedQueryType(intent: string)  // "Unsupported query type"

  /** What the POST handler answers. */
  datatype Response =
    | BadRequest(reason: BadRequestReason)        // status 400
    | ServerError(cause: HandlerError)            // status 500, "Failed to process query"
    | Answered(intent: Intent, data: QueryData)   // the `data` of a successful answer

  /** The collaborators the handlers call. */
  datatype Services = Services(
    validateAddress: Address -> bool,
    walletInteractions: (Address, int) -> Result<seq<Address>, ServiceError>,
    tokenPurchases: (Address, int) -> Result<seq<Purchases.PurchaseEvent>, ServiceError>,
    transactionHistory: (Address, Num) -> Result<seq<TxRecord>, ServiceError>,
    accountInfo: Address -> Result<AccountInfo, ServiceError>,
    tokenAccounts: Address -> Result<seq<TokenAccount>, ServiceError>,
    recentBlocks: Num -> Result<seq<RecentBlocks.BlockSummary>, ServiceError>)

  /** `list.slice(0, 50)`. */
  function First50<T>(xs: seq<T>): (r: seq<T>)
    ensures |r| == if |xs| < 50 then |xs| else 50
    ensures r == xs[..|r|]
  {
    if |xs| <= 50 then xs else xs[..50]
  }

  /**
   * The window a handler uses: the parsed timeframe entity if truthy, else
   * `default`. An absent or empty timeframe gives the default, but a
   * timeframe without digits gives `parseTimeframe`'s own 7 days.
   */
  function WindowDays(timeframe: Option<string>, default: nat): (r: nat)
    ensures !Truthy(timeframe) ==> r == default
    ensures Truthy(timeframe) && (forall i :: 0 <= i < |timeframe.value| ==> !IsDigit(timeframe.value[i])) ==> r == 7
    ensures Truthy(timeframe) && HasMatch(Lower(timeframe.value), "day") ==> FromMatch(Lower(timeframe.value), "day", 1, r)
  {
    if Truthy(timeframe) then
      DigitlessSevenDays(timeframe.value);
      ParseTimeframe(timeframe.value)
    else default
  }

  /**
   * `limit ? parseInt(limit) : default`: an absent or empty limit gives the
   * default, a run of digits its decimal value, text without digits NaN.
   */
  function LimitOf(limit: Option<string>, default: int): (r: Num)
    ensures !Truthy(limit) ==> r == Int(default)
    ensures Truthy(limit) ==> r == ParseInt(limit.value)
    ensures Truthy(limit) && AllDigits(limit.value) ==> r == Int(DecimalValue(limit.value))
    ensures Truthy(limit) && (forall i :: 0 <= i < |limit.value| ==> !IsDigit(limit.value[i])) ==> r == NaN
  {
    if Truthy(limit) then
      if AllDigits(limit.value) then
        ParseIntDigits(limit.value);
        ParseInt(limit.value)
      else ParseInt(limit.value)
    else Int(default)
  }

  /** The two address checks that open every wallet-based handler. */
  function CheckedAddress(svc: Services, e: Entities): (r: Result<Address, HandlerError>)
    ensures r == Err(MissingWalletAddress) <==> !Truthy(e.walletAddress)
    ensures r == Err(InvalidAddressFormat) <==> Truthy(e.walletAddress) && !svc.validateAddress(e.walletAddress.value)
    ensures r.Ok? ==> Truthy(e.walletAddress) && r.value == e.walletAddress.value && svc.validateAddress(r.value)
  {
    if !Truthy(e.walletAddress) then Err(MissingWalletAddress)
    else if !svc.validateAddress(e.walletAddress.value) then Err(InvalidAddressFormat)
    else Ok(e.walletAddress.value)
  }

  /** `handleWalletInteractions`: a 7-day default window; the full count beside the first 50. */
  function HandleWalletInteractions(svc: Services, e: Entities): (r: Result<QueryData, HandlerError>)
    ensures CheckedAddress(svc, e).Err? ==> r == Err(CheckedAddress(svc, e).error)
    ensures r.Ok? <==> CheckedAddress(svc, e).Ok? && svc.walletInteractions(e.walletAddress.value, WindowDays(e.timeframe, 7)).Ok?
    ensures r.Ok? ==>
      var xs := svc.walletInteractions(e.walletAddress.value, WindowDays(e.timeframe, 7)).value;
      && r.value.InteractionsData?
      && r.value.walletAddress == e.walletAddress.value
      && r.value.timeframeDays == (if Truthy(e.timeframe) then ParseTimeframe(e.timeframe.value) else 7)
      && r.value.interactionCount == |xs|
      && r.value.interactions == xs[..if |xs| < 50 then |xs| else 50]
  {
    match CheckedAddress(svc, e)
    case Err(err) => Err(err)
    case Ok(address) =>
      var days := WindowDays(e.timeframe, 7);
      match svc.walletInteractions(address, days)
      case Err(cause) => Err(ServiceFailed(cause))
      case Ok(xs) => Ok(InteractionsData(address, days, |xs|, First50(xs)))
  }

  /** `handleTokenPurchases`: a 40-day default window; the full count beside the first 50. */
  function HandleTokenPurchases(svc: Services, e: Entities): (r: Result<QueryData, HandlerError>)
    ensures CheckedAddress(svc, e).Err? ==> r == Err(CheckedAddress(svc, e).error)
    ensures r.Ok? <==> CheckedAddress(svc, e).Ok? && svc.tokenPurchases(e.walletAddress.value, WindowDays(e.timeframe, 40)).Ok?
    ensures r.Ok? ==>
      var ps := svc.tokenPurchases(e.walletAddress.value, WindowDays(e.timeframe, 40)).value;
      && r.value.PurchasesData?
      && r.value.walletAddress == e.walletAddress.value
      && r.value.timeframeDays == (if Truthy(e.timeframe) then ParseTimeframe(e.timeframe.value) else 40)
      && r.value.purchaseCount == |ps|
      && r.value.purchases == ps[..if |ps| < 50 then |ps| else 50]
  {
    match CheckedAddress(svc, e)
    case Err(err) => Err(err)
    case Ok(address) =>
      var days := WindowDays(e.timeframe, 40);
      match svc.tokenPurchases(address, days)
      case Err(cause) => Err(ServiceFailed(cause))
      case Ok(ps) => Ok(PurchasesData(address, days, |ps|, First50(ps)))
  }

  /** The four fields kept of one history entry; `err` and the transaction are dropped. */
  function Summarize(tx: TxRecord): (r: TxSummary)
    ensures r.signature == tx.signature && r.blockTime == tx.blockTime
    ensures r.slot == tx.slot && r.confirmationStatus == tx.confirmationStatus
  {
    TxSummary(tx.signature, tx.blockTime, tx.slot, tx.confirmationStatus)
  }

  /** `handleTransactionHistory`: a default limit of 50; every entry cut down to four fields, in order. */
  function HandleTransactionHistory(svc: Services, e: Entities): (r: Result<QueryData, HandlerError>)
    ensures CheckedAddress(svc, e).Err? ==> r == Err(CheckedAddress(svc, e).error)
    ensures r.Ok? <==> CheckedAddress(svc, e).Ok? && svc.transactionHistory(e.walletAddress.value, LimitOf(e.limit, 50)).Ok?
    ensures r.Ok? ==>
      var txs := svc.transactionHistory(e.walletAddress.value, LimitOf(e.limit, 50)).value;
      && r.value.HistoryData?
      && r.value.walletAddress == e.walletAddress.value
      && r.value.transactionCount == |txs| == |r.value.transactions|
      && forall i :: 0 <= i < |txs| ==>
           r.value.transactions[i] == TxSummary(txs[i].signature, txs[i].blockTime, txs[i].slot, txs[i].confirmationStatus)
  {
    match CheckedAddress(svc, e)
    case Err(err) => Err(err)
    case Ok(address) =>
      match svc.transactionHistory(address, LimitOf(e.limit, 50))
      case Err(cause) => Err(ServiceFailed(cause))
      case Ok(txs) => Ok(HistoryData(address, |txs|, seq(|txs|, i requires 0 <= i < |txs| => Summarize(txs[i]))))
  }

  /** `handleAccountInfo`. */
  function HandleAccountInfo(svc: Services, e: Entities): (r: Result<QueryData, HandlerError>)
    ensures CheckedAddress(svc, e).Err? ==> r == Err(CheckedAddress(svc, e).error)
    ensures r.Ok? <==> CheckedAddress(svc, e).Ok? && svc.accountInfo(e.walletAddress.value).Ok?
    ensures r.Ok? ==>
      r.value == AccountData(e.walletAddress.value, svc.accountInfo(e.walletAddress.value).value)
  {
    match CheckedAddress(svc, e)
    case Err(err) => Err(err)
    case Ok(address) =>
      match svc.accountInfo(address)
      case Err(cause) => Err(ServiceFailed(cause))
      case Ok(info) => Ok(AccountData(address, info))
  }

  /** `handleTokenBalances`: the token accounts and their count. */
  function HandleTokenBalances(svc: Services, e: Entities): (r: Result<QueryData, HandlerError>)
    ensures CheckedAddress(svc, e).Err? ==> r == Err(CheckedAddress(svc, e).error)
    ensures r.Ok? <==> CheckedAddress(svc, e).Ok? && svc.tokenAccounts(e.walletAddress.value).Ok?
    ensures r.Ok? ==>
      var tokens := svc.tokenAccounts(e.walletAddress.value).value;
      r.value == BalancesData(e.walletAddress.value, |tokens|, tokens)
  {
    match CheckedAddress(svc, e)
    case Err(err) => Err(err)
    case Ok(address) =>
      match svc.tokenAccounts(address)
      case Err(cause) => Err(ServiceFailed(cause))
      case Ok(tokens) => Ok(BalancesData(address, |tokens|, tokens))
  }

  /** `handleRecentBlocks`: no address; a default limit of 10; the blocks and their count. */
  function HandleRecentBlocks(svc: Services, e: Entities): (r: Result<QueryData, HandlerError>)
    ensures r.Err? <==> svc.recentBlocks(LimitOf(e.limit, 10)).Err?
    ensures r.Ok? ==>
      && r.value.BlocksData?
      && r.value.blocks == svc.recentBlocks(LimitOf(e.limit, 10)).value
      && r.value.blockCount == |r.value.blocks|
  {
    match svc.recentBlocks(LimitOf(e.limit, 10))
    case Err(cause) => Err(ServiceFailed(cause))
    case Ok(blocks) => Ok(BlocksData(|blocks|, blocks))
  }

  predicate WalletBased(i: Intent) {
    i != RecentBlocksQuery
  }

  /** The shape of `result` each `case` of the `switch` builds. */
  predicate Answers(i: Intent, d: QueryData) {
    match i
    case WalletInteractionsQuery => d.InteractionsData?
    case TokenPurchasesQuery => d.PurchasesData?
    case TransactionHistoryQuery => d.HistoryData?
    case AccountInfoQuery => d.AccountData?
    case TokenBalancesQuery => d.BalancesData?
    case RecentBlocksQuery => d.BlocksData?
  }

  /**
   * The `switch`: each intent runs its own handler. Every wallet-based
   * handler rejects a missing or invalid address before any service runs;
   * past that, a handler fails only when its service does, and a success
   * has the shape of that intent's answer, about the queried wallet, and
   * is exactly what that intent's handler returns.
   */
  function RunHandler(intent: Intent, svc: Services, e: Entities): (r: Result<QueryData, HandlerError>)
    ensures WalletBased(intent) && CheckedAddress(svc, e).Err? ==> r == Err(CheckedAddress(svc, e).error)
    ensures r.Err? && !(WalletBased(intent) && CheckedAddress(svc, e).Err?) ==> r.error.ServiceFailed?
    ensures r.Ok? ==> Answers(intent, r.value)
    ensures r.Ok? && WalletBased(intent) ==> r.value.walletAddress == e.walletAddress.value
    ensures intent == WalletInteractionsQuery ==> r == HandleWalletInteractions(svc, e)
    ensures intent == TokenPurchasesQuery ==> r == HandleTokenPurchases(svc, e)
    ensures intent == TransactionHistoryQuery ==> r == HandleTransactionHistory(svc, e)
    ensures intent == AccountInfoQuery ==> r == HandleAccountInfo(svc, e)
    ensures intent == TokenBalancesQuery ==> r == HandleTokenBalances(svc, e)
    ensures intent == RecentBlocksQuery ==> r == HandleRecentBlocks(svc, e)
  {
    match intent
    case WalletInteractionsQuery => HandleWalletInteractions(svc, e)
    case TokenPurchasesQuery => HandleTokenPurchases(svc, e)
    case TransactionHistoryQuery => HandleTransactionHistory(svc, e)
    case AccountInfoQuery => HandleAccountInfo(svc, e)
    case TokenBalancesQuery => HandleTokenBalances(svc, e)
    case RecentBlocksQuery => HandleRecentBlocks(svc, e)
  }

  /**
   * The POST handler, from the request's `query` and the language model's
   * parse of it to the answer's `data`.
   */
  function HandleQuery(query: Option<string>, parsed: ParsedQuery, svc: Services): (r: Response)
    ensures r == BadRequest(QueryRequired) <==> !Truthy(query)
    ensures r == BadRequest(NotUnderstood) <==> Truthy(query) && !Truthy(parsed.intent)
    ensures r.BadRequest? <==> !Truthy(query) || !Truthy(parsed.intent) || IntentOf(parsed.intent.value).None?
    ensures r.BadRequest? && r.reason.UnsupportedQueryType? ==> r.reason.intent == parsed.intent.value
    ensures !r.BadRequest? ==> Truthy(parsed.intent) && IntentOf(parsed.intent.value).Some?
    ensures r.Answered? ==> Label(r.intent) == parsed.intent.value
    ensures !r.BadRequest? ==>
      var res := RunHandler(IntentOf(parsed.intent.value).value, svc, parsed.entities);
      && (r.ServerError? <==> res.Err?)
      && (r.ServerError? ==> r.cause == res.error)
      && (r.Answered? ==> r.intent == IntentOf(parsed.intent.value).value && r.data == res.value)
  {
    if !Truthy(query) then BadRequest(QueryRequired)
    else if !Truthy(parsed.intent) then BadRequest(NotUnderstood)
    else
      match IntentOf(parsed.intent.value)
      case None => BadRequest(UnsupportedQueryType(parsed.intent.value))
      case Some(intent) =>
        match RunHandler(intent, svc, parsed.entities)
        case Err(cause) => ServerError(cause)
        case Ok(data) => Answered(intent, data)
  }

  /**
   * A wallet-based intent with no wallet address fails, and one with an
   * address the validator rejects fails, before any service is asked: the
   * answer does not depend on the services beyond the validator.
   */
  lemma AddressCheckedFirst(query: Option<string>, parsed: ParsedQuery, svc: Services, other: Services)
    requires Truthy(query) && Truthy(parsed.intent)
    requires IntentOf(parsed.intent.value).Some? && WalletBased(IntentOf(parsed.intent.value).value)
    requires other.validateAddress == svc.validateAddress
    ensures !Truthy(parsed.entities.walletAddress) ==> HandleQuery(query, parsed, svc) == ServerError(MissingWalletAddress)
    ensures Truthy(parsed.entities.walletAddress) && !svc.validateAddress(parsed.entities.walletAddress.value) ==>
      HandleQuery(query, parsed, svc) == ServerError(InvalidAddressFormat)
    ensures CheckedAddress(svc, parsed.entities).Err? ==> HandleQuery(query, parsed, svc) == HandleQuery(query, parsed, other)
  {
  }

  /** A rejected query runs no handler: no service influences the answer. */
  lemma RejectedQueryRunsNoHandler(query: Option<string>, parsed: ParsedQuery, svc: Services, other: Services)
    requires HandleQuery(query, parsed, svc).BadRequest?
    ensures HandleQuery(query, parsed, other) == HandleQuery(query, parsed, svc)
  {
  }

  /** The Solana service of this model, seen from the route at time `nowMs`. */
  function ServicesOf(rpc: Rpc, nowMs: int, tokenAccounts: Address -> Result<seq<TokenAccount>, ServiceError>): Services {
    Services(
      rpc.isValidKey,
      (a, d) => Interactions.WalletInteractionsOf(rpc, a, d, nowMs),
      (a, d) => Purchases.TokenPurchasesOf(rpc, a, d, nowMs),
      (a, n) => GetTransactionHistory(rpc, a, n),
      a => GetAccountInfo(rpc, a),
      tokenAccounts,
      n => RecentBlocks.RecentBlocksOf(rpc, n))
  }

  /**
   * End to end: the interactions an answer lists are distinct, never the
   * queried wallet, and each is a key of one of its in-window transactions.
   */
  lemma InteractionsAnswerSound(query: Option<string>, parsed: ParsedQuery, rpc: Rpc, nowMs: int,
                                tokenAccounts: Address -> Result<seq<TokenAccount>, ServiceError>)
    requires HandleQuery(query, parsed, ServicesOf(rpc, nowMs, tokenAccounts)).Answered?
    requires HandleQuery(query, parsed, ServicesOf(rpc, nowMs, tokenAccounts)).intent == WalletInteractionsQuery
    ensures
      var d := HandleQuery(query, parsed, ServicesOf(rpc, nowMs, tokenAccounts)).data;
      var history := GetTransactionHistory(rpc, d.walletAddress, Int(1000));
      && d.InteractionsData?
      && d.walletAddress == parsed.entities.walletAddress.value
      && d.timeframeDays == WindowDays(parsed.entities.timeframe, 7)
      && history.Ok?
      && Interactions.NoDuplicates(d.interactions)
      && d.walletAddress !in d.interactions
      && |d.interactions| <= 50
      && forall a :: a in d.interactions ==> Interactions.Interacted(history.value, d.walletAddress, nowMs, d.timeframeDays, a)
  {
    var svc := ServicesOf(rpc, nowMs, tokenAccounts);
    var e := parsed.entities;
    var address := e.walletAddress.value;
    var days := WindowDays(e.timeframe, 7);
    var history := GetTransactionHistory(rpc, address, Int(1000)).value;
    var xs := Interactions.Dedup(Interactions.Seen(history, address, nowMs, days));
    assert svc.walletInteractions(address, days) == Ok(xs);
    Interactions.DedupProperties(Interactions.Seen(history, address, nowMs, days));
    Interactions.SeenMembers(history, address, nowMs, days);
    var shown := First50(xs);
    assert forall a :: a in shown ==> a in xs;
    assert Interactions.NoDuplicates(shown);
  }

  /**
   * End to end: every purchase an answer lists is a Token-program
   * instruction of an in-window transaction, and the reported count is the
   * number of such instructions.
   */
  lemma PurchasesAnswerSound(query: Option<string>, parsed: ParsedQuery, rpc: Rpc, nowMs: int,
                             tokenAccounts: Address -> Result<seq<TokenAccount>, ServiceError>)
    requires HandleQuery(query, parsed, ServicesOf(rpc, nowMs, tokenAccounts)).Answered?
    requires HandleQuery(query, parsed, ServicesOf(rpc, nowMs, tokenAccounts)).intent == TokenPurchasesQuery
    ensures
      var d := HandleQuery(query, parsed, ServicesOf(rpc, nowMs, tokenAccounts)).data;
      var history := GetTransactionHistory(rpc, d.walletAddress, Int(1000));
      && d.PurchasesData?
      && d.walletAddress == parsed.entities.walletAddress.value
      && d.timeframeDays == WindowDays(parsed.entities.timeframe, 40)
      && history.Ok?
      && d.purchaseCount == Purchases.InWindowTokenCount(history.value, nowMs, d.timeframeDays)
      && forall p :: p in d.purchases ==> Purchases.IsPurchase(history.value, nowMs, d.timeframeDays, p)
  {
    var svc := ServicesOf(rpc, nowMs, tokenAccounts);
    var e := parsed.entities;
    var address := e.walletAddress.value;
    var days := WindowDays(e.timeframe, 40);
    var history := GetTransactionHistory(rpc, address, Int(1000)).value;
    var ps := Purchases.Purchases(history, nowMs, days);
    assert svc.tokenPurchases(address, days) == Ok(ps);
    Purchases.PurchasesCount(history, nowMs, days);
    Purchases.PurchasesMembers(history, nowMs, days);
    assert forall p :: p in First50(ps) ==> p in ps;
  }
}
