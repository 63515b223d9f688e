/**
 * `getTokenPurchases`: one event for every Token-program instruction of every
 * in-window transaction of the wallet's history, in transaction order and,
 * within a transaction, in instruction order.
 */
module Purchases {
  import opened Wrappers
  import opened Chain
  import opened History

  /** The object pushed for one matching instruction. */
  datatype PurchaseEvent = PurchaseEvent(signature: string, blockTime: Option<int>, instruction: Instruction)

  predicate IsTokenInstruction(ins: Instruction) {
    ins.programId == TokenProgramId
  }

  /** The events pushed while scanning `instrs`, the instructions of `tx`. */
  function TokenEvents(tx: TxRecord, instrs: seq<Instruction>): seq<PurchaseEvent> {
    if instrs == [] then []
    else
      var last := instrs[|instrs| - 1];
      TokenEvents(tx, instrs[..|instrs| - 1])
        + (if IsTokenInstruction(last) then [PurchaseEvent(tx.signature, tx.blockTime, last)] else [])
  }

  /** Every `purchases.push(...)` the scan of `history` performs, in order. */
  function Purchases(history: seq<TxRecord>, nowMs: int, days: int): seq<PurchaseEvent> {
    if history == [] then []
    else
      var tx := history[|history| - 1];
      Purchases(history[..|history| - 1], nowMs, days)
        + (if InWindow(tx, nowMs, days) then TokenEvents(tx, tx.transaction.value.instructions) else [])
  }

  /** How many of `instrs` name the Token program. */
  function TokenInstructionCount(instrs: seq<Instruction>): nat {
    if instrs == [] then 0
    else (if IsTokenInstruction(instrs[0]) then 1 else 0) + TokenInstructionCount(instrs[1..])
  }

  /** How many Token-program instructions the in-window transactions of `history` hold. */
  function InWindowTokenCount(history: seq<TxRecord>, nowMs: int, days: int): nat {
    if history == [] then 0
    else
      (if InWindow(history[0], nowMs, days) then TokenInstructionCount(history[0].transaction.value.instructions) else 0)
        + InWindowTokenCount(history[1..], nowMs, days)
  }

  /**
   * `p` is the event of a Token-program instruction of an in-window
   * transaction, carrying that transaction's signature and block time.
   */
  ghost predicate IsPurchase(history: seq<TxRecord>, nowMs: int, days: int, p: PurchaseEvent) {
    exists i, k ::
      && 0 <= i < |history| && InWindow(history[i], nowMs, days)
      && 0 <= k < |history[i].transaction.value.instructions|
      && IsTokenInstruction(history[i].transaction.value.instructions[k])
      && p == PurchaseEvent(history[i].signature, history[i].blockTime, history[i].transaction.value.instructions[k])
  }

  lemma {:induction false} TokenEventsMembers(tx: TxRecord, instrs: seq<Instruction>)
    ensures forall p :: p in TokenEvents(tx, instrs) <==>
      exists k :: 0 <= k < |instrs| && IsTokenInstruction(instrs[k])
               && p == PurchaseEvent(tx.signature, tx.blockTime, instrs[k])
  {
    if instrs != [] {
      var n := |instrs| - 1;
      TokenEventsMembers(tx, instrs[..n]);
      forall p
        ensures p in TokenEvents(tx, instrs) ==>
          exists k :: 0 <= k < |instrs| && IsTokenInstruction(instrs[k])
                   && p == PurchaseEvent(tx.signature, tx.blockTime, instrs[k])
      {
        if p in TokenEvents(tx, instrs[..n]) {
          var k :| 0 <= k < n && IsTokenInstruction(instrs[..n][k])
                   && p == PurchaseEvent(tx.signature, tx.blockTime, instrs[..n][k]);
          assert instrs[k] == instrs[..n][k];
        }
      }
      forall k | 0 <= k < |instrs| && IsTokenInstruction(instrs[k])
        ensures PurchaseEvent(tx.signature, tx.blockTime, instrs[k]) in TokenEvents(tx, instrs)
      {
        if k < n {
          assert instrs[..n][k] == instrs[k];
        }
      }
    }
  }

  lemma {:induction false} TokenEventsCount(tx: TxRecord, instrs: seq<Instruction>)
    ensures |TokenEvents(tx, instrs)| == TokenInstructionCount(instrs)
  {
    if instrs != [] {
      var n := |instrs| - 1;
      TokenEventsCount(tx, instrs[..n]);
      TokenCountSnoc(instrs[..n], instrs[n]);
      assert instrs[..n] + [instrs[n]] == instrs;
    }
  }

  lemma {:induction false} TokenCountSnoc(instrs: seq<Instruction>, ins: Instruction)
    ensures TokenInstructionCount(instrs + [ins]) == TokenInstructionCount(instrs) + (if IsTokenInstruction(ins) then 1 else 0)
  {
    if instrs != [] {
      TokenCountSnoc(instrs[1..], ins);
      assert (instrs + [ins])[1..] == instrs[1..] + [ins];
    }
  }

  /** Within one transaction, events follow instruction order. */
  lemma {:induction false} TokenEventsAppend(tx: TxRecord, a: seq<Instruction>, b: seq<Instruction>)
    ensures TokenEvents(tx, a + b) == TokenEvents(tx, a) + TokenEvents(tx, b)
  {
    if b == [] {
      assert a + b == a;
    } else {
      var n := |b| - 1;
      TokenEventsAppend(tx, a, b[..n]);
      assert (a + b)[..|a + b| - 1] == a + b[..n];
    }
  }

  /** The scan reads the history transaction by transaction. */
  lemma {:induction false} PurchasesAppend(h1: seq<TxRecord>, h2: seq<TxRecord>, nowMs: int, days: int)
    ensures Purchases(h1 + h2, nowMs, days) == Purchases(h1, nowMs, days) + Purchases(h2, nowMs, days)
  {
    if h2 == [] {
      assert h1 + h2 == h1;
    } else {
      var n := |h2| - 1;
      PurchasesAppend(h1, h2[..n], nowMs, days);
      assert (h1 + h2)[..|h1 + h2| - 1] == h1 + h2[..n];
    }
  }

  /** Exactly one event per Token-program instruction of an in-window transaction. */
  lemma {:induction false} PurchasesCount(history: seq<TxRecord>, nowMs: int, days: int)
    ensures |Purchases(history, nowMs, days)| == InWindowTokenCount(history, nowMs, days)
  {
    if history != [] {
      PurchasesCount(history[1..], nowMs, days);
      PurchasesAppend([history[0]], history[1..], nowMs, days);
      assert [history[0]] + history[1..] == history;
      assert [history[0]][..0] == [];
      if InWindow(history[0], nowMs, days) {
        TokenEventsCount(history[0], history[0].transaction.value.instructions);
      }
    }
  }

  lemma {:induction false} PurchasesMembers(history: seq<TxRecord>, nowMs: int, days: int)
    ensures forall p :: p in Purchases(history, nowMs, days) <==> IsPurchase(history, nowMs, days, p)
  {
    if history != [] {
      var n := |history| - 1;
      var tx := history[n];
      PurchasesMembers(history[..n], nowMs, days);
      if InWindow(tx, nowMs, days) {
        TokenEventsMembers(tx, tx.transaction.value.instructions);
      }
      forall p
        ensures p in Purchases(history, nowMs, days) <==> IsPurchase(history, nowMs, days, p)
      {
        IsPurchaseSnoc(history, nowMs, days, p);
      }
    }
  }

  /** A purchase of a history is one of all but its last transaction, or one of the last. */
  lemma IsPurchaseSnoc(history: seq<TxRecord>, nowMs: int, days: int, p: PurchaseEvent)
    requires history != []
    ensures
      var n := |history| - 1;
      var tx := history[n];
      IsPurchase(history, nowMs, days, p) <==>
        || IsPurchase(history[..n], nowMs, days, p)
        || (&& InWindow(tx, nowMs, days)
            && exists k :: 0 <= k < |tx.transaction.value.instructions|
                 && IsTokenInstruction(tx.transaction.value.instructions[k])
                 && p == PurchaseEvent(tx.signature, tx.blockTime, tx.transaction.value.instructions[k]))
  {
    var n := |history| - 1;
    var init := history[..n];
    var tx := history[n];
    if IsPurchase(history, nowMs, days, p) {
      var i, k :|
        && 0 <= i < |history| && InWindow(history[i], nowMs, days)
        && 0 <= k < |history[i].transaction.value.instructions|
        && IsTokenInstruction(history[i].transaction.value.instructions[k])
        && p == PurchaseEvent(history[i].signature, history[i].blockTime, history[i].transaction.value.instructions[k]);
      if i < n {
        assert init[i] == history[i];
      }
    }
    if IsPurchase(init, nowMs, days, p) {
      var i, k :|
        && 0 <= i < |init| && InWindow(init[i], nowMs, days)
        && 0 <= k < |init[i].transaction.value.instructions|
        && IsTokenInstruction(init[i].transaction.value.instructions[k])
        && p == PurchaseEvent(init[i].signature, init[i].blockTime, init[i].transaction.value.instructions[k]);
      assert history[i] == init[i];
    }
  }


  /**
   * A transaction outside the window (no block time, block time zero, at or
   * before the cutoff, or no transaction) contributes no event, wherever it
   * sits in the history.
   */
  lemma OutOfWindowIgnored(h1: seq<TxRecord>, tx: TxRecord, h2: seq<TxRecord>, nowMs: int, days: int)
    requires !InWindow(tx, nowMs, days)
    ensures Purchases(h1 + [tx] + h2, nowMs, days) == Purchases(h1 + h2, nowMs, days)
  {
    PurchasesAppend(h1 + [tx], h2, nowMs, days);
    PurchasesAppend(h1, h2, nowMs, days);
    assert (h1 + [tx])[..|h1|] == h1;
    assert Purchases(h1 + [tx], nowMs, days) == Purchases(h1, nowMs, days);
  }

  lemma PurchasesStep(history: seq<TxRecord>, i: nat, nowMs: int, days: int)
    requires i < |history|
    ensures Purchases(history[..i + 1], nowMs, days)
         == Purchases(history[..i], nowMs, days)
            + (if InWindow(history[i], nowMs, days) then TokenEvents(history[i], history[i].transaction.value.instructions) else [])
  {
    assert history[..i + 1][..i] == history[..i];
  }

  lemma TokenEventsStep(tx: TxRecord, instrs: seq<Instruction>, k: nat)
    requires k < |instrs|
    ensures TokenEvents(tx, instrs[..k + 1])
         == TokenEvents(tx, instrs[..k])
            + (if IsTokenInstruction(instrs[k]) then [PurchaseEvent(tx.signature, tx.blockTime, instrs[k])] else [])
  {
    assert instrs[..k + 1][..k] == instrs[..k];
  }

  /**
   * The loops of `getTokenPurchases` over an already fetched history.
   */
  method Detect(history: seq<TxRecord>, nowMs: int, days: int) returns (purchases: seq<PurchaseEvent>)
    ensures purchases == Purchases(history, nowMs, days)
    ensures |purchases| == InWindowTokenCount(history, nowMs, days)
    ensures forall p :: p in purchases <==> IsPurchase(history, nowMs, days, p)
  {
    purchases := [];
    for i := 0 to |history|
      invariant purchases == Purchases(history[..i], nowMs, days)
    {
      var tx := history[i];
      ghost var before := Purchases(history[..i], nowMs, days);
      PurchasesStep(history, i, nowMs, days);
      if InWindow(tx, nowMs, days) {
        var instructions := tx.transaction.value.instructions;
        assert before + TokenEvents(tx, instructions[..0]) == before;
        for k := 0 to |instructions|
          invariant purchases == before + TokenEvents(tx, instructions[..k])
        {
          var instruction := instructions[k];
          TokenEventsStep(tx, instructions, k);
          if instruction.programId == TokenProgramId {
            purchases := purchases + [PurchaseEvent(tx.signature, tx.blockTime, instruction)];
          }
        }
        assert instructions[..|instructions|] == instructions;
      } else {
        assert before + [] == before;
      }
    }
    assert history[..|history|] == history;
    PurchasesCount(history, nowMs, days);
    PurchasesMembers(history, nowMs, days);
  }

  /** What `getTokenPurchases(address, days)` returns, at time `nowMs`. */
  function TokenPurchasesOf(rpc: Rpc, address: Address, days: int, nowMs: int): (r: Result<seq<PurchaseEvent>, ServiceError>)
    ensures r.Err? <==> GetTransactionHistory(rpc, address, Int(1000)).Err?
    ensures r.Ok? ==>
      var history := GetTransactionHistory(rpc, address, Int(1000)).value;
      && |r.value| == InWindowTokenCount(history, nowMs, days)
      && forall p :: p in r.value <==> IsPurchase(history, nowMs, days, p)
  {
    match GetTransactionHistory(rpc, address, Int(1000))
    case Err(e) => Err(e)
    case Ok(history) =>
      PurchasesCount(history, nowMs, days);
      PurchasesMembers(history, nowMs, days);
      Ok(Purchases(history, nowMs, days))
  }

  /**
   * `getTokenPurchases(address, days)`: fetch up to 1000 history entries
   * (any failure there fails the call), then scan them.
   */
  method GetTokenPurchases(rpc: Rpc, address: Address, days: int, nowMs: int) returns (r: Result<seq<PurchaseEvent>, ServiceError>)
    ensures r == TokenPurchasesOf(rpc, address, days, nowMs)
    ensures r.Err? <==> GetTransactionHistory(rpc, address, Int(1000)).Err?
    ensures r.Ok? ==> forall p :: p in r.value ==> IsTokenInstruction(p.instruction)
  {
    var fetched := GetTransactionHistory(rpc, address, Int(1000));
    if fetched.Err? {
      return Err(fetched.error);
    }
    var purchases := Detect(fetched.value, nowMs, days);
    r := Ok(purchases);
  }
}
