/** The keyset scan that cuts the open members into request batches. */
module PendingInputs {
  import opened Wrappers
  import opened LedgerModel
  import opened EmbeddingLedger
  import opened Sequences

  predicate IsOpen(store: Store, n: Seqno) {
    n !in store.completions && n !in store.rejections
  }

  /** The members that are neither completed nor rejected, in order. */
  function Eligible(store: Store, members: seq<Item>): seq<Item> {
    if members == [] then []
    else (if IsOpen(store, members[0].seqno) then [members[0]] else []) + Eligible(store, members[1..])
  }

  /** How far a batch of the first `n` items grows. */
  function Grow(items: seq<Item>, n: nat, maxInputs: nat): (size: nat)
    requires n <= |items|
    ensures n <= size <= |items|
    decreases |items| - n
  {
    if n == |items| || n == maxInputs || Tokens(items[..n]) + items[n].tokens > REQUEST_LIMIT then n
    else Grow(items, n + 1, maxInputs)
  }

  function FirstSize(items: seq<Item>, maxInputs: nat): nat {
    if items == [] then 0 else Grow(items, 1, maxInputs)
  }

  function GreedyBatches(items: seq<Item>, maxInputs: nat): seq<seq<Item>> {
    if items == [] then []
    else
      var size := FirstSize(items, maxInputs);
      [items[..size]] + GreedyBatches(items[size..], maxInputs)
  }

  ghost predicate Fits(batch: seq<Item>, maxInputs: nat) {
    1 <= |batch| <= maxInputs && Tokens(batch) <= REQUEST_LIMIT
  }

  // ---------- what the greedy batches are ----------

  lemma {:induction false} TokensMonotone(items: seq<Item>, m: nat, n: nat)
    requires m <= n <= |items|
    ensures Tokens(items[..m]) <= Tokens(items[..n])
  {
    if m < n {
      TokensMonotone(items, m, n - 1);
      TakeNext(items, n - 1);
    }
  }

  lemma {:induction false} TokensSplit(items: seq<Item>, m: nat)
    requires m <= |items|
    ensures Tokens(items) == Tokens(items[..m]) + Tokens(items[m..])
  {
    if m == |items| {
      assert items[..m] == items;
    } else {
      var n := |items| - 1;
      TokensSplit(items[..n], m);
      assert items[..n][..m] == items[..m] && items[m..][..n - m] == items[..n][m..];
    }
  }

  lemma {:induction false} GrowWithin(items: seq<Item>, n: nat, maxInputs: nat)
    requires 1 <= n <= |items| && n <= maxInputs
    ensures var size := Grow(items, n, maxInputs);
      size <= maxInputs && (size > n ==> Tokens(items[..size]) <= REQUEST_LIMIT)
    decreases |items| - n
  {
    if Grow(items, n, maxInputs) > n {
      TakeNext(items, n);
      GrowWithin(items, n + 1, maxInputs);
    }
  }

  ghost predicate Acceptable(batch: seq<Item>, maxInputs: nat) {
    1 <= |batch| <= maxInputs && (|batch| == 1 || Tokens(batch) <= REQUEST_LIMIT)
  }

  /** Batches concatenate to the items; each is non-empty and within both limits, unless it is one
      input that exceeds the token limit alone. */
  lemma {:induction false} GreedyBatchesCover(items: seq<Item>, maxInputs: nat)
    requires 1 <= maxInputs
    ensures var batches := GreedyBatches(items, maxInputs);
      Flatten(batches) == items && forall i :: 0 <= i < |batches| ==> Acceptable(batches[i], maxInputs)
    decreases |items|
  {
    hide Tokens, Grow;
    if items != [] {
      var size := FirstSize(items, maxInputs);
      GrowWithin(items, 1, maxInputs);
      GreedyBatchesCover(items[size..], maxInputs);
      var batches := GreedyBatches(items, maxInputs);
      FlattenFirst(batches);
      assert batches[0] == items[..size] && batches[1..] == GreedyBatches(items[size..], maxInputs);
      forall i | 0 <= i < |batches| ensures Acceptable(batches[i], maxInputs) {
        if i > 0 { assert batches[i] == batches[1..][i - 1]; }
      }
    }
  }

  /** A prefix within the limits is no longer than the greedy batch. */
  lemma {:induction false} GrowReaches(items: seq<Item>, n: nat, k: nat, maxInputs: nat)
    requires 1 <= n <= k <= |items| && k <= maxInputs && Tokens(items[..k]) <= REQUEST_LIMIT
    ensures Grow(items, n, maxInputs) >= k
    decreases |items| - n
  {
    if n < k {
      TokensMonotone(items, n + 1, k);
      TakeNext(items, n);
      GrowReaches(items, n + 1, k, maxInputs);
    }
  }

  /** Dropping leading items never needs more batches. */
  lemma {:induction false} FewerItemsFewerBatches(items: seq<Item>, drop: nat, maxInputs: nat)
    requires drop <= |items| && 1 <= maxInputs
    ensures |GreedyBatches(items[drop..], maxInputs)| <= |GreedyBatches(items, maxInputs)|
    decreases |items|
  {
    hide Tokens, Grow;
    if drop == 0 {
      assert items[0..] == items;
    } else if drop < |items| {
      var size, rest := FirstSize(items, maxInputs), items[drop..];
      GrowWithin(items, 1, maxInputs);
      if size <= drop {
        FewerItemsFewerBatches(items[size..], drop - size, maxInputs);
        assert items[size..][drop - size..] == rest;
      } else {
        var k := size - drop;
        assert rest[..k] == items[..size][drop..];
        TokensSplit(items[..size], drop);
        GrowReaches(rest, 1, k, maxInputs);
        var later := FirstSize(rest, maxInputs);
        FewerItemsFewerBatches(items[size..], drop + later - size, maxInputs);
        assert items[size..][drop + later - size..] == rest[later..];
      }
    }
  }

  /** No order-preserving split within both limits has fewer batches. */
  lemma {:induction false} GreedyIsMinimal(items: seq<Item>, split: seq<seq<Item>>, maxInputs: nat)
    requires 1 <= maxInputs && Flatten(split) == items
    requires forall i :: 0 <= i < |split| ==> Fits(split[i], maxInputs)
    ensures |GreedyBatches(items, maxInputs)| <= |split|
  {
    hide Tokens, Grow;
    if split != [] {
      var k := |split[0]|;
      assert Fits(split[0], maxInputs);
      FlattenFirst(split);
      assert items[..k] == split[0] && items[k..] == Flatten(split[1..]);
      GrowReaches(items, 1, k, maxInputs);
      GreedyIsMinimal(items[k..], split[1..], maxInputs);
      var size := FirstSize(items, maxInputs);
      FewerItemsFewerBatches(items[k..], size - k, maxInputs);
      assert items[k..][size - k..] == items[size..];
    }
  }

  // ---------- the scan ----------

  /** Fetching row `k` when `all[n..]` is left: an open row is item `n`, any other row is skipped. */
  lemma FetchRow(store: Store, members: seq<Item>, k: nat, all: seq<Item>, n: nat)
    requires k < |members| && n <= |all| && all[n..] == Eligible(store, members[k..])
    ensures var rest := Eligible(store, members[k + 1..]);
      if IsOpen(store, members[k].seqno) then n < |all| && all[n] == members[k] && all[n + 1..] == rest
        else all[n..] == rest
  {
    assert members[k..][1..] == members[k + 1..];
    if IsOpen(store, members[k].seqno) {
      assert all[n..] == [members[k]] + Eligible(store, members[k + 1..]);
      assert all[n] == all[n..][0] && all[n + 1..] == all[n..][1..];
    }
  }

  /** The greedy batch has at least the first `n` items. */
  ghost predicate Growing(items: seq<Item>, n: nat, maxInputs: nat) {
    n <= |items| && n <= maxInputs && (n > 0 ==> Grow(items, n, maxInputs) == FirstSize(items, maxInputs))
  }

  lemma GrowingStep(items: seq<Item>, n: nat, maxInputs: nat)
    requires n < |items| && 1 <= maxInputs && Growing(items, n, maxInputs)
    ensures items[..n] + [items[n]] == items[..n + 1]
    ensures Tokens(items[..n + 1]) == Tokens(items[..n]) + items[n].tokens
    ensures if n > 0 && (Tokens(items[..n]) + items[n].tokens > REQUEST_LIMIT || n == maxInputs)
            then FirstSize(items, maxInputs) == n else Growing(items, n + 1, maxInputs)
  {
    TakeNext(items, n);
  }

  /** What a scan suspended at row `cursor` has still to yield. */
  function StillPending(store: Store, members: seq<Item>, cursor: nat, carry: Option<Item>): seq<Item>
    requires cursor <= |members|
  {
    if carry.Some? then [carry.value] + Eligible(store, members[cursor..]) else Eligible(store, members[cursor..])
  }

  /** A scan under way: `batch` is the head of everything it had to yield, rows from `k` on are left. */
  ghost predicate Scanning(all: seq<Item>, batch: seq<Item>, tokens: nat, store: Store, members: seq<Item>, k: nat,
      maxInputs: nat) {
    && k <= |members| && Growing(all, |batch|, maxInputs)
    && batch == all[..|batch|] && tokens == Tokens(batch) && all[|batch|..] == Eligible(store, members[k..])
  }

  lemma ScanStart(all: seq<Item>, store: Store, members: seq<Item>, k: nat, carry: Option<Item>, maxInputs: nat)
    requires k <= |members| && 1 <= maxInputs && all == StillPending(store, members, k, carry)
    ensures carry.None? ==> Scanning(all, [], 0, store, members, k, maxInputs)
    ensures carry.Some? ==> Scanning(all, [carry.value], carry.value.tokens, store, members, k, maxInputs)
  {
    if carry.Some? {
      GrowingStep(all, 0, maxInputs);
      assert all[..1] == [carry.value] && all[1..] == Eligible(store, members[k..]);
    }
  }

  lemma ScanStep(all: seq<Item>, batch: seq<Item>, tokens: nat, store: Store, members: seq<Item>, k: nat,
      maxInputs: nat)
    requires k < |members| && 1 <= maxInputs && Scanning(all, batch, tokens, store, members, k, maxInputs)
    ensures var item := members[k];
      if !IsOpen(store, item.seqno) then Scanning(all, batch, tokens, store, members, k + 1, maxInputs)
      else if batch != [] && (tokens + item.tokens > REQUEST_LIMIT || |batch| == maxInputs) then
        FirstSize(all, maxInputs) == |batch| && StillPending(store, members, k + 1, Some(item)) == all[|batch|..]
      else Scanning(all, batch + [item], tokens + item.tokens, store, members, k + 1, maxInputs)
  {
    var n := |batch|;
    FetchRow(store, members, k, all, n);
    if IsOpen(store, members[k].seqno) {
      GrowingStep(all, n, maxInputs);
      assert all[n..] == [all[n]] + all[n + 1..];
    }
  }

  lemma ScanEnd(all: seq<Item>, batch: seq<Item>, tokens: nat, store: Store, members: seq<Item>, maxInputs: nat)
    requires Scanning(all, batch, tokens, store, members, |members|, maxInputs)
    ensures FirstSize(all, maxInputs) == |batch| == |all|
    ensures StillPending(store, members, |members|, None) == all[|batch|..]
  {
    assert members[|members|..] == [];
  }

  /** The scan of the rows from `k` on with a batch begun: the batch yielded, the next row, and the fetched item that
      did not fit. */
  function Scan(store: Store, members: seq<Item>, k: nat, batch: seq<Item>, tokens: nat, maxInputs: int)
      : (seq<Item>, nat, Option<Item>)
    decreases |members| - k
  {
    if k >= |members| then (batch, k, None)
    else
      var item := members[k];
      if !IsOpen(store, item.seqno) then Scan(store, members, k + 1, batch, tokens, maxInputs)
      else if batch != [] && (tokens + item.tokens > REQUEST_LIMIT || |batch| == maxInputs) then
        (batch, k + 1, Some(item))
      else Scan(store, members, k + 1, batch + [item], tokens + item.tokens, maxInputs)
  }

  /** The same from one yield to the next. */
  function Resumed(store: Store, members: seq<Item>, cursor: nat, carry: Option<Item>, maxInputs: int)
      : (seq<Item>, nat, Option<Item>)
  {
    if carry.Some? then Scan(store, members, cursor, [carry.value], carry.value.tokens, maxInputs)
    else Scan(store, members, cursor, [], 0, maxInputs)
  }

  /** The scan from one yield to the next. */
  method Advance(store: Store, members: seq<Item>, cursor: nat, carry: Option<Item>, maxInputs: nat)
      returns (batch: seq<Item>, cursor': nat, carry': Option<Item>)
    requires cursor <= |members| && 1 <= maxInputs
    ensures cursor' <= |members|
    ensures carry'.Some? ==> 0 < cursor' && carry'.value == members[cursor' - 1] && IsOpen(store, carry'.value.seqno)
    ensures var all := StillPending(store, members, cursor, carry);
      var size := FirstSize(all, maxInputs);
      batch == all[..size] && StillPending(store, members, cursor', carry') == all[size..]
    ensures (batch, cursor', carry') == Resumed(store, members, cursor, carry, maxInputs)
  {
    hide StillPending, Eligible, Tokens, FirstSize, IsOpen, Growing;
    ghost var all := StillPending(store, members, cursor, carry);
    ScanStart(all, store, members, cursor, carry, maxInputs);
    var tokens: nat := 0;
    batch, cursor', carry' := [], cursor, None;
    if carry.Some? { batch, tokens := [carry.value], carry.value.tokens; }
    while cursor' < |members|
      invariant Scanning(all, batch, tokens, store, members, cursor', maxInputs)
      invariant Scan(store, members, cursor', batch, tokens, maxInputs) ==
                Resumed(store, members, cursor, carry, maxInputs)
    {
      var item := members[cursor'];
      ScanStep(all, batch, tokens, store, members, cursor', maxInputs);
      cursor' := cursor' + 1;
      if IsOpen(store, item.seqno) {
        if batch != [] && (tokens + item.tokens > REQUEST_LIMIT || |batch| == maxInputs) {
          carry' := Some(item);
          return;
        }
        batch, tokens := batch + [item], tokens + item.tokens;
      }
    }
    ScanEnd(all, batch, tokens, store, members, maxInputs);
  }

  /** The generator: the next row to fetch, and the fetched item that did not fit the last batch. */
  class PendingScan {
    const ledger: Ledger
    const maxInputs: int
    var cursor: nat
    var carry: Option<Item>

    constructor (ledger: Ledger, maxInputs: int)
      ensures this.ledger == ledger && this.maxInputs == maxInputs && cursor == 0 && carry.None?
    {
      this.ledger, this.maxInputs := ledger, maxInputs;
      cursor, carry := 0, None;
    }

    ghost predicate InRange()
      reads this
    {
      cursor <= |ledger.env.pack.members|
    }

    /** What the scan has still to yield, as the ledger stands. */
    ghost function Remaining(): seq<Item>
      requires InRange()
      reads this, ledger
    {
      StillPending(ledger.store, ledger.env.pack.members, cursor, carry)
    }

    /** The next batch; empty when the scan is over. */
    method Next() returns (r: Result<seq<Item>, Error>)
      requires InRange()
      modifies this
      ensures InRange()
      ensures r.Success? && carry.Some? ==>
        0 < cursor && carry.value == ledger.env.pack.members[cursor - 1] && IsOpen(ledger.store, carry.value.seqno)
      ensures r.Failure? <==> !(1 <= maxInputs <= COUNT_LIMIT)
      ensures r.Failure? ==> r.error == InvalidBatchLimit && cursor == old(cursor) && carry == old(carry)
      ensures r.Success? ==>
        var size := FirstSize(old(Remaining()), maxInputs);
        r.value == old(Remaining())[..size] && Remaining() == old(Remaining())[size..]
      ensures r.Success? ==>
        (r.value, cursor, carry) ==
        Resumed(ledger.store, ledger.env.pack.members, old(cursor), old(carry), maxInputs)
    {
      if !(1 <= maxInputs <= COUNT_LIMIT) { return Failure(InvalidBatchLimit); }
      var batch;
      batch, cursor, carry := Advance(ledger.store, ledger.env.pack.members, cursor, carry, maxInputs);
      r := Success(batch);
    }
  }
}
