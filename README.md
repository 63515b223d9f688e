# Solana query gateway: a Dafny model of its aggregation core

This project models the client-side logic of a query gateway over the Solana
RPC interface:

- the Solana service, which assembles a wallet's transaction history, collects
  the wallets it interacted with in a time window, detects Token-program
  instructions ("purchases"), lists recent blocks and reads account info;
- the language service's `parseTimeframe`, which turns phrases like
  "2 weeks" into a number of days;
- the query route's intent dispatch, with its address checks, default windows
  and limits, and the shapes of its answers.

The chain is modelled as data. `Chain.Rpc` is a record of total functions, one
per remote call. `None` stands for the `null` the chain returns for an absent
entity. `Threw` stands for a call that throws. "Now" is a parameter: `nowMs`,
the integer milliseconds `Date.now()` returns. The route's collaborators are
the record `QueryRoute.Services`. `QueryRoute.ServicesOf` fills that record
with the model's own service functions.

Files and modules:

- `wrappers.dfy` (`Wrappers`): `Option`, `Result`.
- `chain.dfy` (`Chain`): chain data, the RPC record, service errors.
- `history.dfy` (`History`): `getAccountInfo`, `getTransactionHistory`, the
  time-window test.
- `interactions.dfy` (`Interactions`): `getWalletInteractions`, as loops over
  a `Set`. The set is kept as its insertion-ordered contents.
- `purchases.dfy` (`Purchases`): `getTokenPurchases`, as loops that push
  events.
- `blocks.dfy` (`RecentBlocks`): `getRecentBlocks`, as a counting-down loop.
- `jstext.dfy` (`JsText`): `toLowerCase`, the regex classes `\d` and `\s`,
  and `parseInt`.
- `timeframe.dfy` (`Timeframe`): `parseTimeframe`. The leftmost-match
  semantics of `(\d+)\s*unit` are written out.
- `query.dfy` (`QueryRoute`): the POST handler's dispatch and the `handle*`
  helpers.

Each method that loops (`Aggregate`, `Detect`, `GetRecentBlocks`) is proved
equal to a specification function of its inputs. The properties are then
proved about those functions.

The time window is `blockTime && blockTime > Date.now()/1000 - days*86400`.
The model compares `blockTime * 1000 > nowMs - days * 86_400_000`, which is
the same strict comparison without the division. A missing block time and a
block time of 0 are both falsy, so both are excluded.

Two behaviours of the code are worth stating plainly:

- A transaction exactly at the cutoff is outside the window, because both
  scans compare with a strict `>` (services/solanaService.js:137, :164).
- A transaction lookup that throws fails the whole history fetch, because
  the lookups are joined with `Promise.all` (services/solanaService.js:42).
  Only lookups that return `null` are dropped (:58).

## Model

| member | source | states |
|---|---|---|
| History.GetAccountInfo | services/solanaService.js:14-34 | an invalid key is an invalid-address error, a call that throws is an RPC failure; a null account is "Account not found" exactly when the chain answers null; otherwise lamports, owner, executable, rentEpoch and data are copied beside the address |
| History.ResolveAll | services/solanaService.js:42-56 | the map step fails exactly when some signature's lookup throws; otherwise it yields one entry per signature, in order, copying the record's fields and holding the lookup's transaction |
| History.KeepResolved | services/solanaService.js:58 | the filter keeps exactly the entries whose transaction is non-null and never lengthens the list |
| History.GetTransactionHistory | services/solanaService.js:37-62 | the call fails exactly when the key is invalid, the signature listing throws, or some transaction lookup throws; every returned entry has a non-null transaction |
| History.KeepResolvedIsSubsequence | services/solanaService.js:58 | the filtered entries' signature records form a subsequence of the listed ones, so their order is kept |
| History.KeepResolvedCount | services/solanaService.js:42-58 | the number of entries returned equals the number of signatures whose lookup returned a transaction |
| History.KeepResolvedMembers | services/solanaService.js:42-58 | an entry is returned exactly when it is the entry of a signature whose lookup returned a non-null transaction |
| History.HistoryContents | services/solanaService.js:37-62 | a successful history has no more entries than signatures listed, one per resolved signature, is a subsequence of the listing, and holds exactly the resolved signatures' entries |
| History.InWindowInSeconds | services/solanaService.js:132-137 | the millisecond comparison is exactly `blockTime && blockTime > Date.now()/1000 - days*24*60*60 && transaction`, with the cutoff computed in exact (fractional) seconds |
| Interactions.Add | services/solanaService.js:143 | `Set.add` adds exactly the new key and keeps the set free of duplicates |
| Interactions.DedupProperties | services/solanaService.js:134-149 | the set's contents have no duplicates and hold exactly the keys that were added |
| Interactions.OthersMembers | services/solanaService.js:141-145 | from one transaction, exactly its account keys other than the queried address are added |
| Interactions.SeenMembers | services/solanaService.js:136-146 | a key is added exactly when it is a key of an in-window transaction and is not the queried address |
| Interactions.SeenAppend | services/solanaService.js:136 | the scan processes the history one transaction at a time, so splitting the history splits the added keys |
| Interactions.OutOfWindowIgnored | services/solanaService.js:137 | a transaction with no block time, a block time of 0, a block time at or before the cutoff, or no transaction, changes nothing wherever it occurs |
| Interactions.Aggregate | services/solanaService.js:134-149 | the loops leave the set holding the distinct keys of in-window transactions other than the address, in first-seen order: no duplicates, never the address, exactly the interacting keys |
| Interactions.WalletInteractionsOf | services/solanaService.js:129-153 | the specification of the call: it fails exactly when the 1000-entry history fetch fails; otherwise the result has no duplicates, never the address, and holds exactly the keys that interacted in the window |
| Interactions.GetWalletInteractions | services/solanaService.js:129-153 | the call fails exactly when the 1000-entry history fetch fails; otherwise it returns the aggregate of that history, with no duplicates and never the queried address |
| Purchases.TokenEventsMembers | services/solanaService.js:169-177 | the events of one transaction are exactly those of its Token-program instructions, each carrying the transaction's signature and block time |
| Purchases.TokenEventsCount | services/solanaService.js:169-177 | one transaction yields exactly as many events as it has Token-program instructions |
| Purchases.TokenEventsAppend | services/solanaService.js:169-177 | within one transaction, events follow instruction order: the events of concatenated instruction lists are those of the first list followed by those of the second |
| Purchases.PurchasesAppend | services/solanaService.js:163-180 | events are in transaction order: the events of a concatenated history are those of the first part followed by those of the second |
| Purchases.PurchasesCount | services/solanaService.js:161-182 | the number of events equals the number of Token-program instructions across in-window transactions |
| Purchases.PurchasesMembers | services/solanaService.js:163-182 | an event is emitted exactly when it is a Token-program instruction of an in-window transaction, paired with that transaction's signature and block time |
| Purchases.OutOfWindowIgnored | services/solanaService.js:164 | a transaction outside the window contributes no event wherever it occurs |
| Purchases.Detect | services/solanaService.js:161-182 | the loops push exactly the specified events, as many as there are in-window Token-program instructions, and only those |
| Purchases.TokenPurchasesOf | services/solanaService.js:156-186 | the specification of the call: it fails exactly when the 1000-entry history fetch fails; otherwise it has one event per in-window Token-program instruction and holds exactly those purchases |
| Purchases.GetTokenPurchases | services/solanaService.js:156-186 | the call fails exactly when the 1000-entry history fetch fails; otherwise it returns the events of that history, each for a Token-program instruction |
| RecentBlocks.Scan | services/solanaService.js:90-100 | the loop fails exactly when the block lookup of some slot in the scanned range throws |
| RecentBlocks.ScanBounds | services/solanaService.js:87-102 | at most `limit` blocks are returned, with strictly decreasing slots in (slot - limit, slot], each copying its block's time and parent slot and counting its transactions |
| RecentBlocks.ScanMembers | services/solanaService.js:90-100 | a slot in the range is listed exactly when its block is non-null |
| RecentBlocks.RecentBlocksOf | services/solanaService.js:85-106 | the specification of the call: it fails, with an RPC error, exactly when `getSlot` throws or a block lookup in the scanned range throws |
| RecentBlocks.GetRecentBlocks | services/solanaService.js:85-106 | the loop computes the specified result; it fails exactly when `getSlot` throws or some block lookup in range throws; a NaN, zero or negative limit scans nothing |
| RecentBlocks.RecentBlocksShape | services/solanaService.js:85-106 | a successful call returns at most `limit` blocks, with strictly decreasing slots in (slot − limit, slot], the current slot included, exactly the non-null ones, each with its block's transaction count |
| JsText.LowerChar | services/nlpService.js:124 | lower-casing leaves digits, white space and lower-case letters unchanged, maps each ASCII capital to the letter 32 code points above it and the Kelvin sign to `k`, and yields an ASCII lower-case letter exactly from one of those |
| JsText.Lower | services/nlpService.js:124 | the model's lower-casing works character by character and keeps the length (see "Left out" for where `toLowerCase` differs) |
| JsText.ParseInt | routes/query.js:156 | `parseInt(limit)` gives a number only when the text holds a digit; otherwise NaN |
| JsText.ParseIntPrefix | routes/query.js:156 | after leading white space and an optional sign, the longest run of decimal digits gives the signed decimal value, whatever follows (" 20", "-5", "20 items"); a lone `0` followed by `x` or `X` is the hexadecimal case instead |
| JsText.ParseIntHexPrefix | routes/query.js:156 | after leading white space and an optional sign, `0x` or `0X` and the longest run of hexadecimal digits gives their signed base-16 value |
| JsText.ParseIntNoDigit | routes/query.js:156 | when the first character after the leading white space and optional sign is not a digit ("last 20", "-x", ""), the result is NaN |
| JsText.ParseIntHexNoDigit | routes/query.js:156 | `0x` or `0X` after the leading white space and optional sign, with no hexadecimal digit after it ("0x", "-0x", "0xg"), gives NaN |
| JsText.LowerIdempotent | services/nlpService.js:124 | lower-casing a lower-cased text changes nothing |
| JsText.ParseIntDigits | services/nlpService.js:129-131 | `parseInt` of a captured run of digits is that run's decimal value |
| Timeframe.ParseTimeframe | services/nlpService.js:123-134 | the result is 7 or the number of days a match in the lower-cased text denotes (N for `N day`, 7·N for `N week`, 30·N for `N month`); a day phrase anywhere decides over week and month phrases, a week phrase over month phrases, and with no phrase the result is 7 |
| Timeframe.FirstMatchIsLeftmost | services/nlpService.js:125-127 | `match` finds no match exactly when the pattern matches nowhere; otherwise it returns the group of the leftmost match |
| Timeframe.MatchAfter | services/nlpService.js:125-127 | in text of the form prefix, digits, white space, unit, with no match starting in the prefix, the first match captures exactly those digits |
| Timeframe.DaysPattern | services/nlpService.js:124-129 | the first "N day(s)" in the text, in any case and with any white space, gives N even if week or month phrases or later day phrases are also present ("3 days 5 days" gives 3) |
| Timeframe.WeeksPattern | services/nlpService.js:124-130 | with no day phrase, the first "N week(s)" gives 7·N ("3 weeks 5 weeks" gives 21) |
| Timeframe.MonthsPattern | services/nlpService.js:124-131 | with neither day nor week phrases, the first "N month(s)" gives 30·N |
| Timeframe.DefaultSevenDays | services/nlpService.js:133 | text that matches none of the three patterns gives 7 |
| Timeframe.DigitlessSevenDays | services/nlpService.js:133 | any text without a digit, empty or not, gives 7 |
| Timeframe.CaseInsensitive | services/nlpService.js:124 | the result depends only on the lower-cased text |
| Timeframe.DaysOverWeeksExample | services/nlpService.js:129-131 | "2 weeks 3 days" gives 3 |
| QueryRoute.IntentOf | routes/query.js:42-65 | exactly the six intent labels select a handler, and each label selects its own |
| QueryRoute.First50 | routes/query.js:119 | `slice(0, 50)` is the first min(50, n) elements |
| QueryRoute.CheckedAddress | routes/query.js:104-110 | a missing address is rejected first, then an address the validator refuses; otherwise the address is passed on |
| QueryRoute.WindowDays | routes/query.js:112 | an absent or empty timeframe gives the handler's default; a timeframe without digits gives 7, not the default; a day phrase sets the window from its number |
| QueryRoute.LimitOf | routes/query.js:156 | an absent or empty limit gives the default; any other limit gives `parseInt` of it (described by the four `JsText.ParseInt*` lemmas); a run of digits gives its decimal value; text without digits gives NaN |
| QueryRoute.Summarize | routes/query.js:162-167 | an entry's summary keeps its signature, blockTime, slot and confirmationStatus |
| QueryRoute.HandleWalletInteractions | routes/query.js:101-121 | the address checks come first; the answer names the queried wallet; the window is the parsed timeframe or 7 days; the count is the full length, while the list is its first min(50, n) |
| QueryRoute.HandleTokenPurchases | routes/query.js:123-143 | the address checks come first; the answer names the queried wallet; the window is the parsed timeframe or 40 days; the count is the full length, while the list is its first min(50, n) |
| QueryRoute.HandleTransactionHistory | routes/query.js:145-169 | the address checks come first; the answer names the queried wallet; the limit is parsed or defaults to 50; the count is kept and each entry, in order, is cut down to signature, blockTime, slot and confirmationStatus |
| QueryRoute.HandleAccountInfo | routes/query.js:171-188 | the address checks come first; the account info is returned beside the address |
| QueryRoute.HandleTokenBalances | routes/query.js:190-208 | the address checks come first; the token accounts are returned with their count |
| QueryRoute.HandleRecentBlocks | routes/query.js:210-220 | the limit is parsed or defaults to 10; the blocks are returned with `block_count` equal to their number; fails exactly when the service fails |
| QueryRoute.RunHandler | routes/query.js:42-60 | each intent runs its own handler; a wallet-based one fails on a missing or invalid address before any service runs, and otherwise fails only when its service does; a success has that intent's answer shape, names the queried wallet, and each intent's result is exactly its own handler's result |
| QueryRoute.HandleQuery | routes/query.js:8-97 | a missing query gives "Query is required"; a missing intent gives "Could not understand"; an intent outside the six labels gives "Unsupported query type" naming it; otherwise the label's own handler runs, its error becomes a server error carrying that cause, and its result becomes the answer's data |
| QueryRoute.AddressCheckedFirst | routes/query.js:104-110 | for the five wallet-based intents, a missing or invalid address fails before any service is consulted, so the answer is the same whatever the services do |
| QueryRoute.RejectedQueryRunsNoHandler | routes/query.js:33-65 | a rejected query runs no handler: its answer does not depend on the services |
| QueryRoute.InteractionsAnswerSound | routes/query.js:112-120 | with the modelled service, the answer names the queried wallet and its window (timeframe or 7 days); listed interactions are distinct, never the wallet, at most 50, and each is a key of an in-window transaction of its history |
| QueryRoute.PurchasesAnswerSound | routes/query.js:134-142 | with the modelled service, the answer names the queried wallet and its window (timeframe or 40 days); `purchase_count` is the number of in-window Token-program instructions, and every listed purchase is one of them |

## Left out

- `getTokenAccounts` (services/solanaService.js:65-82): a field projection of a library response whose `uiAmount` is a float. The token-balances handler takes its result as given.
- `getEnhancedTransactionData` (services/solanaService.js:109-126): an HTTP call to an external API.
- `parseQuery` and `generateResponse` (services/nlpService.js:12-109): calls to a hosted language model. The parsed query is an input. The generated text, the timestamp and the rest of the final answer are not modelled.
- `validateSolanaAddress` and `new PublicKey(...)`: the base58 key check is the predicate `Rpc.isValidKey` / `Services.validateAddress`. It is not implemented.
- The Redis cache of the query route, and all of routes/blockchain.js, server.js, server-minimal.js, routes/health.js, config/database.js and scripts/setup.js: cache input and output, server wiring, health checks and database setup.
- Concurrency: `Promise.all` is modelled as a map, which fails if any lookup throws, followed by a filter. Which rejection is reported first is not modelled.
- Error messages: the model keeps the kind of failure, not the `Failed to ...: ...` text.
- Number precision: integers are unbounded. JavaScript loses precision above 2^53, both in `parseInt` of long digit runs and in the window arithmetic.
- `Date.now() / 1000` is a float. The model compares in integer milliseconds. This agrees with the service whenever the float division and subtraction are exact to better than a millisecond, which holds for realistic timestamps.
- JsText.Lower, JsText.LowerChar: only ASCII capitals and the Kelvin sign are lowered; other characters are left as they are. JavaScript's `toLowerCase` lowers many more, and some change length ("İ", U+0130, becomes two characters). No pattern outcome depends on this: the patterns look only for ASCII letters, digits and white space, and the Kelvin sign is the one non-ASCII character that lowers to one of those letters.
- Entities: wallet address, timeframe and limit are taken as text. A non-zero number as `timeframe` makes `timeframeText.toLowerCase()` throw (services/nlpService.js:124), so the request ends in the 500 answer (routes/query.js:91-96); that path is not modelled. A timeframe of 0 is falsy and gives the handler's default, like an absent one. A number-valued `limit` would go through `parseInt`'s string conversion, which is not modelled either.
- A parse without `entities`: the handlers destructure `parsedQuery.entities` (routes/query.js:102, :124, :146, :172, :191, :211), which throws when it is missing and leads to the 500 answer. `ParsedQuery` always carries entities, so that path is not modelled.
- Message shapes: a transaction is taken to expose `accountKeys` and instructions that each carry a `programId`, as the code reads them. How the RPC library actually shapes versioned or compiled messages is not part of this model.
- Determinism: every service function is a function of the chain snapshot, so repeated calls give the same result by construction. No separate lemma states this.
