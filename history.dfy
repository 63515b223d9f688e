/**
 * `getAccountInfo` and `getTransactionHistory` of the Solana service, and the
 * time-window test that the interaction and purchase scans share.
 */
module History {
  import opened Wrappers
  import opened Chain

  /**
   * One element of the array `getTransactionHistory` builds: the fields of
   * the signature record plus the transaction its lookup resolved to
   * (`None` for `null`).
   */
  datatype TxRecord = TxRecord(
    signature: string,
    slot: int,
    blockTime: Option<int>,
    confirmationStatus: Option<string>,
    err: Option<string>,
    transaction: Option<Transaction>)

  /** The object built for signature `sig` once its lookup resolved to `tx`. */
  function Entry(sig: SignatureRecord, tx: Option<Transaction>): TxRecord {
    TxRecord(sig.signature, sig.slot, sig.blockTime, sig.confirmationStatus, sig.err, tx)
  }

  /** The signature-record fields an entry carries. */
  function SignatureOf(e: TxRecord): (s: SignatureRecord)
    ensures Entry(s, e.transaction) == e
  {
    SignatureRecord(e.signature, e.slot, e.blockTime, e.confirmationStatus, e.err)
  }

  function Signatures(es: seq<TxRecord>): (r: seq<SignatureRecord>)
    ensures |r| == |es| && forall i :: 0 <= i < |es| ==> r[i] == SignatureOf(es[i])
  {
    if es == [] then [] else [SignatureOf(es[0])] + Signatures(es[1..])
  }

  /** `a` can be obtained from `b` by deleting elements. */
  predicate IsSubsequence<T(==)>(a: seq<T>, b: seq<T>)
    decreases |b|
  {
    if a == [] then true
    else if b == [] then false
    else if a[0] == b[0] then IsSubsequence(a[1..], b[1..])
    else IsSubsequence(a, b[1..])
  }

  // ---------------------------------------------------------------- account

  /** The object `getAccountInfo` returns. */
  datatype AccountInfo = AccountInfo(
    address: Address,
    lamports: int,
    owner: Address,
    executable: bool,
    rentEpoch: int,
    data: seq<Byte>)

  /**
   * `getAccountInfo(address)`: an invalid key or a failed call throws, a
   * `null` account throws "Account not found", and otherwise the account's
   * fields are copied next to the queried address.
   */
  function GetAccountInfo(rpc: Rpc, address: Address): (r: Result<AccountInfo, ServiceError>)
    ensures !rpc.isValidKey(address) ==> r == Err(InvalidAddress)
    ensures r == Err(AccountNotFound) <==> rpc.isValidKey(address) && rpc.getAccountInfo(address) == Returned(None)
    ensures rpc.isValidKey(address) && rpc.getAccountInfo(address).Threw? ==> r == Err(RpcFailed)
    ensures r.Ok? <==> rpc.isValidKey(address) && rpc.getAccountInfo(address).Returned? && rpc.getAccountInfo(address).value.Some?
    ensures r.Ok? ==>
      var a := rpc.getAccountInfo(address).value.value;
      && r.value.address == address
      && r.value.lamports == a.lamports && r.value.owner == a.owner
      && r.value.executable == a.executable && r.value.rentEpoch == a.rentEpoch && r.value.data == a.data
  {
    if !rpc.isValidKey(address) then Err(InvalidAddress)
    else match rpc.getAccountInfo(address)
      case Threw => Err(RpcFailed)
      case Returned(None) => Err(AccountNotFound)
      case Returned(Some(a)) => Ok(AccountInfo(address, a.lamports, a.owner, a.executable, a.rentEpoch, a.data))
  }

  // ---------------------------------------------------------------- history

  /**
   * The `Promise.all` over `signatures.map(...)`: every signature is looked
   * up and turned into an entry; one lookup that throws rejects the whole.
   */
  function ResolveAll(rpc: Rpc, sigs: seq<SignatureRecord>): (r: Result<seq<TxRecord>, ServiceError>)
    ensures r.Err? <==> exists i :: 0 <= i < |sigs| && rpc.getTransaction(sigs[i].signature).Threw?
    ensures r.Err? ==> r.error == RpcFailed
    ensures r.Ok? ==>
      && |r.value| == |sigs|
      && forall i :: 0 <= i < |sigs| ==> r.value[i] == Entry(sigs[i], rpc.getTransaction(sigs[i].signature).value)
  {
    if sigs == [] then Ok([])
    else match rpc.getTransaction(sigs[0].signature)
      case Threw => Err(RpcFailed)
      case Returned(tx) =>
        match ResolveAll(rpc, sigs[1..])
        case Err(e) => Err(e)
        case Ok(rest) => Ok([Entry(sigs[0], tx)] + rest)
  }

  /** `transactions.filter(tx => tx.transaction !== null)`. */
  function KeepResolved(entries: seq<TxRecord>): (r: seq<TxRecord>)
    ensures |r| <= |entries|
    ensures forall e :: e in r <==> e in entries && e.transaction.Some?
  {
    if entries == [] then []
    else (if entries[0].transaction.Some? then [entries[0]] else []) + KeepResolved(entries[1..])
  }

  /**
   * `getTransactionHistory(address, limit)`: list the signatures, resolve
   * them all, drop those whose transaction is `null`.
   */
  function GetTransactionHistory(rpc: Rpc, address: Address, limit: Num): (r: Result<seq<TxRecord>, ServiceError>)
    ensures r.Err? <==>
      || !rpc.isValidKey(address)
      || rpc.getSignaturesForAddress(address, limit).Threw?
      || exists i :: 0 <= i < |rpc.getSignaturesForAddress(address, limit).value|
           && rpc.getTransaction(rpc.getSignaturesForAddress(address, limit).value[i].signature).Threw?
    ensures r.Ok? ==> forall e :: e in r.value ==> e.transaction.Some?
  {
    if !rpc.isValidKey(address) then Err(InvalidAddress)
    else match rpc.getSignaturesForAddress(address, limit)
      case Threw => Err(RpcFailed)
      case Returned(sigs) =>
        match ResolveAll(rpc, sigs)
        case Err(e) => Err(e)
        case Ok(entries) => Ok(KeepResolved(entries))
  }

  /** How many of `sigs` resolve to a non-null transaction. */
  function ResolvedCount(rpc: Rpc, sigs: seq<SignatureRecord>): nat {
    if sigs == [] then 0
    else (if rpc.getTransaction(sigs[0].signature).Returned? && rpc.getTransaction(sigs[0].signature).value.Some? then 1 else 0) + ResolvedCount(rpc, sigs[1..])
  }

  lemma {:induction false} KeepResolvedIsSubsequence(entries: seq<TxRecord>)
    ensures IsSubsequence(Signatures(KeepResolved(entries)), Signatures(entries))
  {
    if entries != [] {
      var rest := KeepResolved(entries[1..]);
      KeepResolvedIsSubsequence(entries[1..]);
      if entries[0].transaction.Some? {
        assert KeepResolved(entries) == [entries[0]] + rest;
        assert ([entries[0]] + rest)[1..] == rest;
      } else {
        assert KeepResolved(entries) == rest;
        SubsequenceOfTail(Signatures(rest), Signatures(entries));
      }
    }
  }

  /** Deleting one more element from the front keeps a subsequence. */
  lemma {:induction false} SubsequenceOfTail<T>(a: seq<T>, b: seq<T>)
    requires b != [] && IsSubsequence(a, b[1..])
    ensures IsSubsequence(a, b)
    decreases |b|, 0
  {
    if a != [] && a[0] == b[0] {
      SubsequenceDropHead(a, b[1..]);
    }
  }

  lemma {:induction false} SubsequenceDropHead<T>(a: seq<T>, b: seq<T>)
    requires a != [] && IsSubsequence(a, b)
    ensures IsSubsequence(a[1..], b)
    decreases |b|, 1
  {
    if a[0] == b[0] {
      if a[1..] != [] { SubsequenceOfTail(a[1..], b); }
    } else {
      SubsequenceDropHead(a, b[1..]);
      if a[1..] != [] { SubsequenceOfTail(a[1..], b); }
    }
  }

  lemma {:induction false} KeepResolvedCount(rpc: Rpc, sigs: seq<SignatureRecord>, entries: seq<TxRecord>)
    requires ResolveAll(rpc, sigs) == Ok(entries)
    ensures |KeepResolved(entries)| == ResolvedCount(rpc, sigs)
  {
    if sigs != [] {
      var rest := ResolveAll(rpc, sigs[1..]);
      assert rest == Ok(entries[1..]);
      KeepResolvedCount(rpc, sigs[1..], entries[1..]);
    }
  }

  lemma {:induction false} KeepResolvedMembers(rpc: Rpc, sigs: seq<SignatureRecord>, entries: seq<TxRecord>)
    requires ResolveAll(rpc, sigs) == Ok(entries)
    ensures forall e :: e in KeepResolved(entries) <==>
      exists i :: 0 <= i < |sigs| && rpc.getTransaction(sigs[i].signature).value.Some?
               && e == Entry(sigs[i], rpc.getTransaction(sigs[i].signature).value)
  {
    forall e | e in KeepResolved(entries)
      ensures exists i :: 0 <= i < |sigs| && rpc.getTransaction(sigs[i].signature).value.Some?
                       && e == Entry(sigs[i], rpc.getTransaction(sigs[i].signature).value)
    {
      var i :| 0 <= i < |entries| && entries[i] == e;
      assert rpc.getTransaction(sigs[i].signature).value.Some?;
    }
    forall i | 0 <= i < |sigs| && rpc.getTransaction(sigs[i].signature).value.Some?
      ensures Entry(sigs[i], rpc.getTransaction(sigs[i].signature).value) in KeepResolved(entries)
    {
      assert entries[i] in entries;
    }
  }

  /**
   * What `getTransactionHistory` returns, in terms of the listed signatures:
   * the entries of exactly those signatures whose transaction is non-null,
   * each copying its signature record, in signature order, and no more of
   * them than signatures were listed.
   */
  lemma {:induction false} HistoryContents(rpc: Rpc, address: Address, limit: Num)
    requires GetTransactionHistory(rpc, address, limit).Ok?
    ensures
      var sigs := rpc.getSignaturesForAddress(address, limit).value;
      var h := GetTransactionHistory(rpc, address, limit).value;
      && |h| <= |sigs|
      && |h| == ResolvedCount(rpc, sigs)
      && IsSubsequence(Signatures(h), sigs)
      && forall e :: e in h <==>
           exists i :: 0 <= i < |sigs| && rpc.getTransaction(sigs[i].signature).value.Some?
                    && e == Entry(sigs[i], rpc.getTransaction(sigs[i].signature).value)
  {
    var sigs := rpc.getSignaturesForAddress(address, limit).value;
    var entries := ResolveAll(rpc, sigs).value;
    assert GetTransactionHistory(rpc, address, limit).value == KeepResolved(entries);
    KeepResolvedIsSubsequence(entries);
    assert Signatures(entries) == sigs;
    KeepResolvedCount(rpc, sigs, entries);
    KeepResolvedMembers(rpc, sigs, entries);
  }

  // ------------------------------------------------------------ time window

  /**
   * `tx.blockTime && tx.blockTime > cutoffTime && tx.transaction`, where
   * `cutoffTime = Date.now() / 1000 - days * 24 * 60 * 60`. `nowMs` is
   * `Date.now()` (integer milliseconds); both sides are scaled by 1000 so the
   * strict comparison is exact. A missing or zero block time is falsy.
   */
  predicate InWindow(e: TxRecord, nowMs: int, days: int) {
    && e.blockTime.Some?
    && e.blockTime.value != 0
    && e.blockTime.value * 1000 > nowMs - days * 86_400_000
    && e.transaction.Some?
  }

  /**
   * The scaled comparison is the service's own, with the cutoff in
   * (fractional) seconds: nothing is lost by working in milliseconds.
   */
  lemma InWindowInSeconds(e: TxRecord, nowMs: int, days: int)
    ensures InWindow(e, nowMs, days) <==>
      && e.transaction.Some?
      && e.blockTime.Some? && e.blockTime.value != 0
      && e.blockTime.value as real > nowMs as real / 1000.0 - (days * 24 * 60 * 60) as real
  {
  }
}
