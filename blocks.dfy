/**
 * `getRecentBlocks(limit)`: read the current slot, then ask for the blocks of
 * the `limit` slots counting down from it, keeping those the chain has.
 */
module RecentBlocks {
  import opened Wrappers
  import opened Chain

  /** The object pushed for one slot whose block exists. */
  datatype BlockSummary = BlockSummary(slot: int, blockTime: Option<int>, transactionCount: nat, parentSlot: int)

  function Summary(slot: int, b: Block): BlockSummary {
    BlockSummary(slot, b.blockTime, |b.transactions|, b.parentSlot)
  }

  /**
   * How many times `for (let i = 0; i < limit; i++)` runs: none for a
   * limit that is zero, negative or NaN.
   */
  function Iterations(limit: Num): nat {
    if limit.Int? && limit.n > 0 then limit.n else 0
  }

  /**
   * The first `n` rounds of the loop below the current slot `slot`. A
   * `getBlock` that throws ends the whole call with an error.
   */
  function Scan(rpc: Rpc, slot: int, n: nat): (r: Result<seq<BlockSummary>, ServiceError>)
    ensures r.Err? <==> exists s :: slot - n < s <= slot && rpc.getBlock(s).Threw?
    ensures r.Err? ==> r.error == RpcFailed
  {
    if n == 0 then Ok([])
    else
      match Scan(rpc, slot, n - 1)
      case Err(e) => Err(e)
      case Ok(blocks) =>
        match rpc.getBlock(slot - (n - 1))
        case Threw => Err(RpcFailed)
        case Returned(None) => Ok(blocks)
        case Returned(Some(b)) => Ok(blocks + [Summary(slot - (n - 1), b)])
  }

  /** What `getRecentBlocks(limit)` returns. */
  function RecentBlocksOf(rpc: Rpc, limit: Num): (r: Result<seq<BlockSummary>, ServiceError>)
    ensures r.Err? <==>
      || rpc.getSlot.Threw?
      || exists s :: rpc.getSlot.value - Iterations(limit) < s <= rpc.getSlot.value && rpc.getBlock(s).Threw?
    ensures r.Err? ==> r.error == RpcFailed
  {
    match rpc.getSlot
    case Threw => Err(RpcFailed)
    case Returned(slot) => Scan(rpc, slot, Iterations(limit))
  }

  /** One round of the loop: the block of slot `slot - (n - 1)` is appended when non-null. */
  lemma ScanStep(rpc: Rpc, slot: int, n: nat)
    requires n > 0 && Scan(rpc, slot, n).Ok?
    ensures Scan(rpc, slot, n - 1).Ok? && rpc.getBlock(slot - (n - 1)).Returned?
    ensures
      var b := rpc.getBlock(slot - (n - 1)).value;
      Scan(rpc, slot, n).value
        == Scan(rpc, slot, n - 1).value + (if b.Some? then [Summary(slot - (n - 1), b.value)] else [])
  {
  }

  /**
   * A successful scan of `n` slots below `slot` returns at most `n` blocks,
   * with strictly decreasing slots in `(slot - n, slot]`, each copying its
   * non-null block's time and parent slot and counting its transactions.
   */
  lemma {:induction false} ScanBounds(rpc: Rpc, slot: int, n: nat)
    requires Scan(rpc, slot, n).Ok?
    ensures
      var bs := Scan(rpc, slot, n).value;
      && |bs| <= n
      && (forall j :: 0 <= j < |bs| ==> slot - n < bs[j].slot <= slot)
      && (forall j, k :: 0 <= j < k < |bs| ==> bs[j].slot > bs[k].slot)
      && (forall j :: 0 <= j < |bs| ==>
            && rpc.getBlock(bs[j].slot).Returned? && rpc.getBlock(bs[j].slot).value.Some?
            && bs[j] == Summary(bs[j].slot, rpc.getBlock(bs[j].slot).value.value))
  {
    if n > 0 {
      ScanStep(rpc, slot, n);
      ScanBounds(rpc, slot, n - 1);
    }
  }

  /** A slot in `(slot - n, slot]` is listed exactly when its block is non-null. */
  lemma {:induction false} ScanMembers(rpc: Rpc, slot: int, n: nat)
    requires Scan(rpc, slot, n).Ok?
    ensures
      var bs := Scan(rpc, slot, n).value;
      forall s :: slot - n < s <= slot ==>
        (rpc.getBlock(s).value.Some? <==> exists j :: 0 <= j < |bs| && bs[j].slot == s)
  {
    if n > 0 {
      ScanStep(rpc, slot, n);
      ScanMembers(rpc, slot, n - 1);
      ScanBounds(rpc, slot, n - 1);
      var prev := Scan(rpc, slot, n - 1).value;
      var bs := Scan(rpc, slot, n).value;
      var s0 := slot - (n - 1);
      forall s | slot - n < s <= slot
        ensures rpc.getBlock(s).value.Some? <==> exists j :: 0 <= j < |bs| && bs[j].slot == s
      {
        if s == s0 {
          if rpc.getBlock(s0).value.Some? {
            assert bs[|prev|].slot == s0;
          }
        } else {
          if exists j :: 0 <= j < |bs| && bs[j].slot == s {
            var j :| 0 <= j < |bs| && bs[j].slot == s;
            assert j < |prev| && prev[j].slot == s;
          }
          if rpc.getBlock(s).value.Some? {
            var j :| 0 <= j < |prev| && prev[j].slot == s;
            assert bs[j].slot == s;
          }
        }
      }
    }
  }

  /**
   * `getRecentBlocks(limit)` as the Solana service writes it: a `for` loop
   * that pushes one summary per non-null block.
   */
  method GetRecentBlocks(rpc: Rpc, limit: Num) returns (r: Result<seq<BlockSummary>, ServiceError>)
    ensures r == RecentBlocksOf(rpc, limit)
    ensures r.Err? <==>
      || rpc.getSlot.Threw?
      || exists s :: rpc.getSlot.value - Iterations(limit) < s <= rpc.getSlot.value && rpc.getBlock(s).Threw?
  {
    if rpc.getSlot.Threw? {
      return Err(RpcFailed);
    }
    var slot := rpc.getSlot.value;
    var blocks: seq<BlockSummary> := [];
    var i := 0;
    while limit.Int? && i < limit.n
      invariant 0 <= i <= Iterations(limit)
      invariant Scan(rpc, slot, i) == Ok(blocks)
    {
      var block := rpc.getBlock(slot - i);
      if block.Threw? {
        assert slot - Iterations(limit) < slot - i <= slot && rpc.getBlock(slot - i).Threw?;
        return Err(RpcFailed);
      }
      if block.value.Some? {
        blocks := blocks + [Summary(slot - i, block.value.value)];
      }
      i := i + 1;
    }
    r := Ok(blocks);
  }

  /** The slots of a successful `getRecentBlocks(limit)`, against the current slot. */
  lemma RecentBlocksShape(rpc: Rpc, limit: Num)
    requires RecentBlocksOf(rpc, limit).Ok?
    ensures
      var slot := rpc.getSlot.value;
      var n := Iterations(limit);
      var bs := RecentBlocksOf(rpc, limit).value;
      && |bs| <= n
      && (forall j :: 0 <= j < |bs| ==> slot - n < bs[j].slot <= slot)
      && (forall j, k :: 0 <= j < k < |bs| ==> bs[j].slot > bs[k].slot)
      && (forall s :: slot - n < s <= slot ==>
            (rpc.getBlock(s).value.Some? <==> exists j :: 0 <= j < |bs| && bs[j].slot == s))
      && (forall j :: 0 <= j < |bs| ==>
            bs[j].transactionCount == |rpc.getBlock(bs[j].slot).value.value.transactions|)
  {
    ScanBounds(rpc, rpc.getSlot.value, Iterations(limit));
    ScanMembers(rpc, rpc.getSlot.value, Iterations(limit));
  }
}
