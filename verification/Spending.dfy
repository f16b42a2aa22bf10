/** What connecting a block means for every single output, said without the functions
    that connect it: which inputs must be there, which outputs are left, and which coins
    the spend journal records in which order. */
module Spending {
  import opened Wire
  import opened Utxo

  /** A transaction pays to the output, and the output can be spent. */
  predicate Pays(tx: Tx, o: OutPoint) {
    tx.hash == o.hash && o.index < |tx.outs| && !tx.outs[o.index].unspendable
  }

  /** No transaction from the a-th up to the b-th names the output as an input. The first
      of a block is its coinbase, whose input is from nowhere. */
  ghost predicate NotSpent(txs: seq<Tx>, a: nat, b: nat, o: OutPoint) {
    forall l :: a <= l < b && 1 <= l < |txs| ==> o !in txs[l].ins
  }

  /** The m-th transaction makes the output, and none of those after it up to the k-th
      spends it. */
  ghost predicate MadeAndKept(txs: seq<Tx>, m: nat, k: nat, o: OutPoint) {
    m < k <= |txs| && Pays(txs[m], o) && NotSpent(txs, m + 1, k, o)
  }

  /** The output is there after k transactions: made by one of them and not spent since,
      or there before the block and not spent by any of them. */
  ghost predicate There(coins: Coins, txs: seq<Tx>, k: nat, o: OutPoint) {
    (exists m: nat :: MadeAndKept(txs, m, k, o)) || (o in coins && NotSpent(txs, 0, k, o))
  }

  /** Every input of the k-th transaction is there just before it, and none is named
      twice. */
  ghost predicate CanSpend(coins: Coins, txs: seq<Tx>, k: nat)
    requires k < |txs|
  {
    && (forall j :: 0 <= j < |txs[k].ins| ==> There(coins, txs, k, txs[k].ins[j]))
    && (forall i, j :: 0 <= i < j < |txs[k].ins| ==> txs[k].ins[i] != txs[k].ins[j])
  }

  lemma PaysIs(tx: Tx, o: OutPoint)
    ensures Makes(tx, o) <==> Pays(tx, o)
  {
  }

  lemma NotSpentStep(txs: seq<Tx>, a: nat, k: nat, o: OutPoint)
    requires a <= k < |txs|
    ensures NotSpent(txs, a, k + 1, o) <==> NotSpent(txs, a, k, o) && (k == 0 || o !in txs[k].ins)
  {
  }

  lemma KeptStep(txs: seq<Tx>, m: nat, k: nat, next: nat, o: OutPoint)
    requires k < |txs| && next == k + 1
    ensures MadeAndKept(txs, m, next, o) <==>
      if m == k then Pays(txs[k], o) else MadeAndKept(txs, m, k, o) && (k == 0 || o !in txs[k].ins)
  {
    hide Pays, NotSpent;
    if m < k { NotSpentStep(txs, m + 1, k, o); }
    NotSpentNone(txs, next, o);
  }

  /** One transaction more. */
  lemma ThereStep(coins: Coins, txs: seq<Tx>, k: nat, next: nat, o: OutPoint)
    requires k < |txs| && next == k + 1
    ensures There(coins, txs, next, o) <==>
      Pays(txs[k], o) || (There(coins, txs, k, o) && (k == 0 || o !in txs[k].ins))
  {
    hide Pays, NotSpent, MadeAndKept;
    NotSpentStep(txs, 0, k, o);
    forall m: nat | true
      ensures MadeAndKept(txs, m, next, o) <==>
        if m == k then Pays(txs[k], o) else MadeAndKept(txs, m, k, o) && (k == 0 || o !in txs[k].ins)
    {
      KeptStep(txs, m, k, next, o);
    }
    assert !MadeAndKept(txs, k, k, o) by { NotKept(txs, k, o); }
    assert MadeAndKept(txs, k, next, o) <==> Pays(txs[k], o);
  }

  lemma NotKept(txs: seq<Tx>, k: nat, o: OutPoint)
    ensures !MadeAndKept(txs, k, k, o)
  {
  }

  lemma NotSpentNone(txs: seq<Tx>, k: nat, o: OutPoint)
    ensures NotSpent(txs, k, k, o)
  {
  }

  /** Only the transactions before it matter. */
  lemma TherePrefix(coins: Coins, txs: seq<Tx>, init: seq<Tx>, k: nat, o: OutPoint)
    requires k <= |init| && init <= txs
    ensures There(coins, init, k, o) <==> There(coins, txs, k, o)
  {
    hide Pays;
    forall m: nat | m < k
      ensures MadeAndKept(txs, m, k, o) <==> MadeAndKept(init, m, k, o)
    {
      NotSpentPrefix(txs, init, m + 1, k, o);
    }
    assert forall m: nat :: m >= k ==> !MadeAndKept(txs, m, k, o) && !MadeAndKept(init, m, k, o);
    NotSpentPrefix(txs, init, 0, k, o);
  }

  lemma NotSpentPrefix(txs: seq<Tx>, init: seq<Tx>, a: nat, k: nat, o: OutPoint)
    requires k <= |init| && init <= txs
    ensures NotSpent(txs, a, k, o) <==> NotSpent(init, a, k, o)
  {
    assert forall l :: 0 <= l < k ==> txs[l] == init[l];
  }

  lemma CanSpendPrefix(coins: Coins, txs: seq<Tx>, init: seq<Tx>)
    requires init <= txs
    ensures forall k :: 0 <= k < |init| ==> (CanSpend(coins, init, k) <==> CanSpend(coins, txs, k))
  {
    hide There;
    forall k, o: OutPoint | 0 <= k < |init|
      ensures There(coins, init, k, o) <==> There(coins, txs, k, o)
    {
      TherePrefix(coins, txs, init, k, o);
    }
  }

  /** A block connects if and only if each of its transactions but the coinbase can spend
      all of its inputs when its turn comes; then exactly the outputs that are there
      after all of them are unspent. */
  lemma {:induction false} BlockConnects(coins: Coins, txs: seq<Tx>, height: nat)
    ensures ConnectTxs(coins, txs, height).Some? <==> forall k :: 1 <= k < |txs| ==> CanSpend(coins, txs, k)
    ensures ConnectTxs(coins, txs, height).Some? ==>
      forall o :: o in ConnectTxs(coins, txs, height).value.coins <==> There(coins, txs, |txs|, o)
    decreases |txs|
  {
    hide ConnectTx, There, CanSpend;
    if txs == [] {
      NoTxs(coins);
    } else {
      var init, last := txs[..|txs| - 1], |txs| - 1;
      BlockConnects(coins, init, height);
      CanSpendPrefix(coins, txs, init);
      if ConnectTxs(coins, init, height).Some? {
        LastConnects(coins, txs, init, height);
      }
    }
  }

  lemma NoTxs(coins: Coins)
    ensures forall o :: There(coins, [], 0, o) <==> o in coins
  {
    forall o: OutPoint | true
      ensures There(coins, [], 0, o) <==> o in coins
    {
      NotSpentNone([], 0, o);
    }
  }

  lemma LastConnects(coins: Coins, txs: seq<Tx>, init: seq<Tx>, height: nat)
    requires txs != [] && init == txs[..|txs| - 1] && ConnectTxs(coins, init, height).Some?
    requires forall o :: o in ConnectTxs(coins, init, height).value.coins <==> There(coins, init, |init|, o)
    ensures ConnectTxs(coins, txs, height).Some? <==> |init| == 0 || CanSpend(coins, txs, |init|)
    ensures ConnectTxs(coins, txs, height).Some? ==>
      forall o :: o in ConnectTxs(coins, txs, height).value.coins <==> There(coins, txs, |txs|, o)
  {
    hide *;
    var p, k := ConnectTxs(coins, init, height).value.coins, |init|;
    var c := ConnectTx(p, txs[k], height, k == 0);
    ConnectLast(coins, txs, init, height);
    forall o: OutPoint | true
      ensures o in p <==> There(coins, txs, k, o)
      ensures c.Some? ==> (o in c.value.coins <==> There(coins, txs, |txs|, o))
    {
      TherePrefix(coins, txs, init, k, o);
      ThereStep(coins, txs, k, |txs|, o);
      ConnectTxMeans(p, txs[k], height, k == 0, o);
      PaysIs(txs[k], o);
      InputsAre(txs[k]);
    }
    ConnectTxMeans(p, txs[k], height, k == 0, OutPoint(0, 0));
    SpendableIs(coins, txs, k, p);
  }

  lemma ConnectLast(coins: Coins, txs: seq<Tx>, init: seq<Tx>, height: nat)
    requires txs != [] && init == txs[..|txs| - 1] && ConnectTxs(coins, init, height).Some?
    ensures var p, k := ConnectTxs(coins, init, height).value, |init|;
      var c := ConnectTx(p.coins, txs[k], height, k == 0);
      ConnectTxs(coins, txs, height) == if c.Some? then Some(Spent(c.value.coins, p.stxos + c.value.stxos)) else None
  {
    hide ConnectTx;
  }

  lemma InputsAre(tx: Tx)
    ensures Inputs(tx, true) == [] && Inputs(tx, false) == tx.ins
  {
  }

  lemma SpendableIs(coins: Coins, txs: seq<Tx>, k: nat, p: Coins)
    requires k < |txs| && forall o :: o in p <==> There(coins, txs, k, o)
    ensures Spendable(p, Inputs(txs[k], k == 0)) <==> k == 0 || CanSpend(coins, txs, k)
  {
    hide There;
    InputsAre(txs[k]);
  }

  // ---- the coins

  /** What an unspent output holds after k transactions: what the last of them to make it
      paid, at the height of the block and marked as a coinbase if it is the first, or
      what it held before the block. */
  ghost predicate Holds(coins: Coins, txs: seq<Tx>, k: nat, height: nat, o: OutPoint, coin: Coin)
    requires k <= |txs|
  {
    if k == 0 then o in coins && coin == coins[o]
    else if Pays(txs[k - 1], o) then coin == Coin(txs[k - 1].outs[o.index], height, k == 1)
    else Holds(coins, txs, k - 1, height, o, coin)
  }

  lemma {:induction false} HoldsPrefix(coins: Coins, txs: seq<Tx>, init: seq<Tx>, k: nat, height: nat, o: OutPoint,
      coin: Coin)
    requires k <= |init| && init <= txs
    ensures Holds(coins, txs, k, height, o, coin) <==> Holds(coins, init, k, height, o, coin)
    decreases k
  {
    if k > 0 { HoldsPrefix(coins, txs, init, k - 1, height, o, coin); }
  }

  lemma {:induction false} BlockHolds(coins: Coins, txs: seq<Tx>, height: nat, o: OutPoint)
    requires ConnectTxs(coins, txs, height).Some? && o in ConnectTxs(coins, txs, height).value.coins
    ensures Holds(coins, txs, |txs|, height, o, ConnectTxs(coins, txs, height).value.coins[o])
    decreases |txs|
  {
    hide ConnectTx, Pays, Makes;
    if txs != [] {
      var init, k := txs[..|txs| - 1], |txs| - 1;
      var p := ConnectTxs(coins, init, height).value.coins;
      ConnectTxMeans(p, txs[k], height, k == 0, o);
      PaysIs(txs[k], o);
      if !Pays(txs[k], o) {
        BlockHolds(coins, init, height, o);
        HoldsPrefix(coins, txs, init, k, height, o, p[o]);
      }
    }
  }

  // ---- the journal

  function TotalInputs(txs: seq<Tx>): nat {
    if txs == [] then 0 else |txs[0].ins| + TotalInputs(txs[1..])
  }

  /** The inputs of transactions, one after the other. */
  function AllInputs(txs: seq<Tx>): (ins: seq<OutPoint>)
    ensures |ins| == TotalInputs(txs)
  {
    if txs == [] then [] else txs[0].ins + AllInputs(txs[1..])
  }

  lemma {:induction false} AllInputsSnoc(txs: seq<Tx>, tx: Tx)
    ensures AllInputs(txs + [tx]) == AllInputs(txs) + tx.ins
  {
    if txs == [] {
      assert [tx][1..] == [];
    } else {
      AllInputsSnoc(txs[1..], tx);
      assert (txs + [tx])[1..] == txs[1..] + [tx];
    }
  }

  /** countSpentOutputs counts every input of every transaction but the coinbase. */
  lemma {:induction false} CountsEveryInput(txs: seq<Tx>)
    requires txs != []
    ensures CountSpentOutputs(txs) == TotalInputs(txs[1..])
    decreases |txs|
  {
    var init, last := txs[..|txs| - 1], txs[|txs| - 1];
    InputsAre(last);
    if |txs| == 1 {
      assert init == [] && txs[1..] == [];
    } else {
      CountsEveryInput(init);
      AllInputsSnoc(init[1..], last);
      assert txs[1..] == init[1..] + [last];
    }
  }

  /** The journal of a block has one coin for every input of every transaction but the
      coinbase, in their order: the coin that the input had when its transaction's turn
      came. */
  lemma {:induction false} JournalOrder(coins: Coins, txs: seq<Tx>, height: nat, k: nat, j: nat)
    requires ConnectTxs(coins, txs, height).Some? && 1 <= k < |txs| && j < |txs[k].ins|
    ensures ConnectTxs(coins, txs[..k], height).Some?
    ensures var s, i := ConnectTxs(coins, txs, height).value, TotalInputs(txs[1..k]) + j;
      var before := ConnectTxs(coins, txs[..k], height).value.coins;
      && |s.stxos| == TotalInputs(txs[1..]) && i < |s.stxos|
      && AllInputs(txs[1..])[i] == txs[k].ins[j]
      && txs[k].ins[j] in before && s.stxos[i] == before[txs[k].ins[j]]
    decreases |txs|
  {
    hide *;
    var init, last := txs[..|txs| - 1], |txs| - 1;
    ConnectInit(coins, txs, init, height);
    ConnectLast(coins, txs, init, height);
    JournalSize(coins, txs, height);
    JournalSize(coins, init, height);
    AllInputsSnoc(init[1..], txs[last]);
    assert txs[1..] == init[1..] + [txs[last]];
    if k == last {
      RecordsInputs(ConnectTxs(coins, init, height).value.coins, txs[last], height, j);
      assert txs[1..k] == init[1..];
    } else {
      JournalOrder(coins, init, height, k, j);
      assert init[..k] == txs[..k] && init[1..k] == txs[1..k];
    }
  }

  lemma ConnectInit(coins: Coins, txs: seq<Tx>, init: seq<Tx>, height: nat)
    requires txs != [] && init == txs[..|txs| - 1] && ConnectTxs(coins, txs, height).Some?
    ensures ConnectTxs(coins, init, height).Some?
  {
    hide ConnectTx;
  }

  lemma JournalSize(coins: Coins, txs: seq<Tx>, height: nat)
    requires txs != [] && ConnectTxs(coins, txs, height).Some?
    ensures |ConnectTxs(coins, txs, height).value.stxos| == TotalInputs(txs[1..]) == |AllInputs(txs[1..])|
  {
    hide *;
    ConnectCounts(coins, txs, height);
    CountsEveryInput(txs);
  }

  lemma RecordsInputs(coins: Coins, tx: Tx, height: nat, j: nat)
    requires ConnectTx(coins, tx, height, false).Some? && j < |tx.ins|
    ensures var s := ConnectTx(coins, tx, height, false).value;
      |s.stxos| == |tx.ins| && tx.ins[j] in coins && s.stxos[j] == coins[tx.ins[j]]
  {
    InputsAre(tx);
    SpendMeans(coins, tx.ins);
  }

  /** Every input of a connected block is unspent when its transaction's turn comes, and
      unspent afterwards only if that transaction or a later one makes it again. */
  lemma EveryInputSpent(coins: Coins, txs: seq<Tx>, height: nat, k: nat, j: nat)
    requires ConnectTxs(coins, txs, height).Some? && 1 <= k < |txs| && j < |txs[k].ins|
    ensures ConnectTxs(coins, txs[..k], height).Some?
    ensures var o := txs[k].ins[j];
      && o in ConnectTxs(coins, txs[..k], height).value.coins
      && (o in ConnectTxs(coins, txs, height).value.coins ==>
            exists m :: k <= m < |txs| && txs[m].hash == o.hash && o.index < |txs[m].outs|)
  {
    hide ConnectTxs, NotSpent;
    JournalOrder(coins, txs, height, k, j);
    BlockConnects(coins, txs, height);
    var o := txs[k].ins[j];
    if o in ConnectTxs(coins, txs, height).value.coins {
      SpentAt(txs, 0, |txs|, k, o);
      var m: nat :| MadeAndKept(txs, m, |txs|, o);
      if m < k { SpentAt(txs, m + 1, |txs|, k, o); }
      assert txs[m].hash == o.hash;
    }
  }

  lemma SpentAt(txs: seq<Tx>, a: nat, b: nat, k: nat, o: OutPoint)
    requires a <= k < b <= |txs| && 1 <= k && o in txs[k].ins
    ensures !NotSpent(txs, a, b, o)
  {
  }

  /** A coinbase spends nothing, whatever its inputs say. */
  lemma CoinbaseSpendsNothing(coins: Coins, tx: Tx, height: nat, o: OutPoint)
    ensures ConnectTxs(coins, [tx], height).Some?
    ensures var s := ConnectTxs(coins, [tx], height).value;
      s.stxos == [] && (o in s.coins <==> o in coins || Pays(tx, o))
  {
    hide ConnectTxs;
    BlockConnects(coins, [tx], height);
    ConnectCounts(coins, [tx], height);
    CountsEveryInput([tx]);
    NoTxs(coins);
    TherePrefix(coins, [tx], [], 0, o);
    ThereStep(coins, [tx], 0, 1, o);
  }

  /** Disconnecting goes through exactly when the journal has as many coins as the block
      has inputs after its coinbase. */
  lemma {:induction false} DisconnectNeeds(coins: Coins, txs: seq<Tx>, height: nat, stxos: seq<Coin>)
    requires txs != []
    ensures DisconnectTxs(coins, txs, height, stxos).Some? <==> |stxos| == TotalInputs(txs[1..])
  {
    DisconnectCounts(coins, txs, height, stxos);
    CountsEveryInput(txs);
  }

  lemma {:induction false} DisconnectCounts(coins: Coins, txs: seq<Tx>, height: nat, stxos: seq<Coin>)
    ensures DisconnectTxs(coins, txs, height, stxos).Some? <==> |stxos| == CountSpentOutputs(txs)
    decreases |txs|
  {
    hide DisconnectTx;
    if txs != [] {
      var tx, k := txs[|txs| - 1], |Inputs(txs[|txs| - 1], |txs| == 1)|;
      if |stxos| >= k {
        DisconnectCounts(DisconnectTx(coins, tx, height, |txs| == 1, stxos[|stxos| - k..]),
          txs[..|txs| - 1], height, stxos[..|stxos| - k]);
      }
    }
  }
}
