/**
 * `getWalletInteractions`: every account key seen in an in-window
 * transaction of the wallet's history, other than the wallet itself,
 * collected in a JavaScript `Set`.
 */
module Interactions {
  import opened Wrappers
  import opened Chain
  import opened History

  /** `set.add(a)` on a JavaScript `Set`, seen as its insertion-ordered contents. */
  function Add(s: seq<Address>, a: Address): (r: seq<Address>)
    ensures forall b :: b in r <==> b in s || b == a
    ensures NoDuplicates(s) ==> NoDuplicates(r)
  {
    if a in s then s else s + [a]
  }

  predicate NoDuplicates(s: seq<Address>) {
    forall i, j :: 0 <= i < j < |s| ==> s[i] != s[j]
  }

  /** The contents of a fresh `Set` after adding each of `xs` in turn. */
  function Dedup(xs: seq<Address>): seq<Address> {
    if xs == [] then [] else Add(Dedup(xs[..|xs| - 1]), xs[|xs| - 1])
  }

  /** The keys of one transaction that differ from the subject, in key order. */
  function Others(keys: seq<Address>, subject: Address): seq<Address> {
    if keys == [] then []
    else Others(keys[..|keys| - 1], subject) + (if keys[|keys| - 1] != subject then [keys[|keys| - 1]] else [])
  }

  /** Every `interactions.add(key)` the scan of `history` performs, in order. */
  function Seen(history: seq<TxRecord>, subject: Address, nowMs: int, days: int): seq<Address> {
    if history == [] then []
    else
      var tx := history[|history| - 1];
      Seen(history[..|history| - 1], subject, nowMs, days)
        + (if InWindow(tx, nowMs, days) then Others(tx.transaction.value.accountKeys, subject) else [])
  }

  /** `a` is an account key, other than `subject`, of some in-window transaction. */
  ghost predicate Interacted(history: seq<TxRecord>, subject: Address, nowMs: int, days: int, a: Address) {
    && a != subject
    && exists i, k ::
         && 0 <= i < |history| && InWindow(history[i], nowMs, days)
         && 0 <= k < |history[i].transaction.value.accountKeys|
         && history[i].transaction.value.accountKeys[k] == a
  }

  lemma {:induction false} DedupProperties(xs: seq<Address>)
    ensures NoDuplicates(Dedup(xs))
    ensures forall a :: a in Dedup(xs) <==> a in xs
  {
    if xs != [] {
      var init := xs[..|xs| - 1];
      DedupProperties(init);
      assert xs == init + [xs[|xs| - 1]];
    }
  }

  lemma {:induction false} OthersMembers(keys: seq<Address>, subject: Address)
    ensures forall a :: a in Others(keys, subject) <==> a in keys && a != subject
  {
    if keys != [] {
      OthersMembers(keys[..|keys| - 1], subject);
      assert keys == keys[..|keys| - 1] + [keys[|keys| - 1]];
    }
  }

  lemma {:induction false} SeenMembers(history: seq<TxRecord>, subject: Address, nowMs: int, days: int)
    ensures forall a :: a in Seen(history, subject, nowMs, days) <==> Interacted(history, subject, nowMs, days, a)
  {
    if history != [] {
      var n := |history| - 1;
      var init := history[..n];
      SeenMembers(init, subject, nowMs, days);
      forall a
        ensures a in Seen(history, subject, nowMs, days) <==> Interacted(history, subject, nowMs, days, a)
      {
        if InWindow(history[n], nowMs, days) {
          OthersMembers(history[n].transaction.value.accountKeys, subject);
        }
        if Interacted(history, subject, nowMs, days, a) {
          var i, k :| && 0 <= i < |history| && InWindow(history[i], nowMs, days)
                      && 0 <= k < |history[i].transaction.value.accountKeys|
                      && history[i].transaction.value.accountKeys[k] == a;
          if i < n {
            assert init[i] == history[i];
            assert Interacted(init, subject, nowMs, days, a);
          } else {
            assert a in history[n].transaction.value.accountKeys;
          }
        }
        if a in Seen(init, subject, nowMs, days) {
          var i, k :| && 0 <= i < |init| && InWindow(init[i], nowMs, days)
                      && 0 <= k < |init[i].transaction.value.accountKeys|
                      && init[i].transaction.value.accountKeys[k] == a;
          assert history[i] == init[i];
        }
        if InWindow(history[n], nowMs, days) && a in Others(history[n].transaction.value.accountKeys, subject) {
          var k :| 0 <= k < |history[n].transaction.value.accountKeys| && history[n].transaction.value.accountKeys[k] == a;
          assert Interacted(history, subject, nowMs, days, a);
        }
      }
    }
  }

  /** The scan reads the history transaction by transaction. */
  lemma {:induction false} SeenAppend(h1: seq<TxRecord>, h2: seq<TxRecord>, subject: Address, nowMs: int, days: int)
    ensures Seen(h1 + h2, subject, nowMs, days) == Seen(h1, subject, nowMs, days) + Seen(h2, subject, nowMs, days)
  {
    if h2 == [] {
      assert h1 + h2 == h1;
    } else {
      var n := |h2| - 1;
      SeenAppend(h1, h2[..n], subject, nowMs, days);
      assert (h1 + h2)[..|h1 + h2| - 1] == h1 + h2[..n];
    }
  }

  /**
   * A transaction outside the window (no block time, block time zero, at or
   * before the cutoff, or no transaction) adds nothing, wherever it sits in
   * the history.
   */
  lemma OutOfWindowIgnored(h1: seq<TxRecord>, tx: TxRecord, h2: seq<TxRecord>, subject: Address, nowMs: int, days: int)
    requires !InWindow(tx, nowMs, days)
    ensures Dedup(Seen(h1 + [tx] + h2, subject, nowMs, days)) == Dedup(Seen(h1 + h2, subject, nowMs, days))
  {
    SeenAppend(h1 + [tx], h2, subject, nowMs, days);
    SeenAppend(h1, h2, subject, nowMs, days);
    assert (h1 + [tx])[..|h1|] == h1;
    assert Seen(h1 + [tx], subject, nowMs, days) == Seen(h1, subject, nowMs, days);
  }

  lemma SeenStep(history: seq<TxRecord>, i: nat, subject: Address, nowMs: int, days: int)
    requires i < |history|
    ensures Seen(history[..i + 1], subject, nowMs, days)
         == Seen(history[..i], subject, nowMs, days)
            + (if InWindow(history[i], nowMs, days) then Others(history[i].transaction.value.accountKeys, subject) else [])
  {
    assert history[..i + 1][..i] == history[..i];
  }

  lemma OthersStep(keys: seq<Address>, k: nat, subject: Address)
    requires k < |keys|
    ensures Others(keys[..k + 1], subject) == Others(keys[..k], subject) + (if keys[k] != subject then [keys[k]] else [])
  {
    assert keys[..k + 1][..k] == keys[..k];
  }

  lemma DedupSnoc(xs: seq<Address>, x: Address)
    ensures Dedup(xs + [x]) == Add(Dedup(xs), x)
  {
    assert (xs + [x])[..|xs|] == xs;
  }

  /**
   * The loops of `getWalletInteractions` over an already fetched history:
   * the `Set` ends up holding the distinct keys of in-window transactions
   * other than `address`, in first-seen order.
   */
  method Aggregate(history: seq<TxRecord>, address: Address, nowMs: int, days: int) returns (interactions: seq<Address>)
    ensures interactions == Dedup(Seen(history, address, nowMs, days))
    ensures NoDuplicates(interactions)
    ensures address !in interactions
    ensures forall a :: a in interactions <==> Interacted(history, address, nowMs, days, a)
  {
    interactions := [];
    for i := 0 to |history|
      invariant interactions == Dedup(Seen(history[..i], address, nowMs, days))
    {
      var tx := history[i];
      ghost var before := Seen(history[..i], address, nowMs, days);
      SeenStep(history, i, address, nowMs, days);
      if InWindow(tx, nowMs, days) {
        var keys := tx.transaction.value.accountKeys;
        assert before + Others(keys[..0], address) == before;
        for k := 0 to |keys|
          invariant interactions == Dedup(before + Others(keys[..k], address))
        {
          OthersStep(keys, k, address);
          ghost var sofar := before + Others(keys[..k], address);
          if keys[k] != address {
            assert before + Others(keys[..k + 1], address) == sofar + [keys[k]];
            DedupSnoc(sofar, keys[k]);
            interactions := Add(interactions, keys[k]);
          } else {
            assert before + Others(keys[..k + 1], address) == sofar;
          }
        }
        assert keys[..|keys|] == keys;
      } else {
        assert before + [] == before;
      }
    }
    assert history[..|history|] == history;
    DedupProperties(Seen(history, address, nowMs, days));
    SeenMembers(history, address, nowMs, days);
  }

  /** What `getWalletInteractions(address, days)` returns, at time `nowMs`. */
  function WalletInteractionsOf(rpc: Rpc, address: Address, days: int, nowMs: int): (r: Result<seq<Address>, ServiceError>)
    ensures r.Err? <==> GetTransactionHistory(rpc, address, Int(1000)).Err?
    ensures r.Ok? ==>
      && NoDuplicates(r.value)
      && address !in r.value
      && forall a :: a in r.value <==> Interacted(GetTransactionHistory(rpc, address, Int(1000)).value, address, nowMs, days, a)
  {
    match GetTransactionHistory(rpc, address, Int(1000))
    case Err(e) => Err(e)
    case Ok(history) =>
      DedupProperties(Seen(history, address, nowMs, days));
      SeenMembers(history, address, nowMs, days);
      Ok(Dedup(Seen(history, address, nowMs, days)))
  }

  /**
   * `getWalletInteractions(address, days)`: fetch up to 1000 history
   * entries (any failure there fails the call), then aggregate.
   */
  method GetWalletInteractions(rpc: Rpc, address: Address, days: int, nowMs: int) returns (r: Result<seq<Address>, ServiceError>)
    ensures r == WalletInteractionsOf(rpc, address, days, nowMs)
    ensures r.Err? <==> GetTransactionHistory(rpc, address, Int(1000)).Err?
    ensures r.Ok? ==> NoDuplicates(r.value) && address !in r.value
  {
    var fetched := GetTransactionHistory(rpc, address, Int(1000));
    if fetched.Err? {
      return Err(fetched.error);
    }
    var interactions := Aggregate(fetched.value, address, nowMs, days);
    r := Ok(interactions);
  }
}
