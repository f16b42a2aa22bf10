/** The unspent outputs of a chain: what connecting a block does to them and what
    disconnecting it with its spend journal does (connectTransactions and
    disconnectTransactions in btcd/blockchain/utxoviewpoint.go). */
module Utxo {
  import opened Wire

  datatype Coin = Coin(out: TxOut, height: nat, isCoinBase: bool)

  type Coins = map<OutPoint, Coin>

  /** A set of coins and the coins spent on the way to it, in order. */
  datatype Spent = Spent(coins: Coins, stxos: seq<Coin>)

  /** The spendable outputs of a transaction. */
  function Outputs(tx: Tx, height: nat, isCoinBase: bool): Coins {
    map i | 0 <= i < |tx.outs| && !tx.outs[i].unspendable ::
      OutPoint(tx.hash, i) := Coin(tx.outs[i], height, isCoinBase)
  }

  function Spend(coins: Coins, ins: seq<OutPoint>): (r: Option<Spent>)
    ensures r.Some? ==> |r.value.stxos| == |ins|
  {
    if ins == [] then Some(Spent(coins, []))
    else match Spend(coins, ins[..|ins| - 1])
      case None => None
      case Some(s) =>
        var last := ins[|ins| - 1];
        if last !in s.coins then None
        else Some(Spent(s.coins - {last}, s.stxos + [s.coins[last]]))
  }

  function Unspend(coins: Coins, ins: seq<OutPoint>, stxos: seq<Coin>): Coins
    requires |ins| == |stxos|
    decreases ins
  {
    if ins == [] then coins
    else Unspend(coins[ins[|ins| - 1] := stxos[|ins| - 1]], ins[..|ins| - 1], stxos[..|ins| - 1])
  }

  /** What a transaction spends; a coinbase spends nothing. */
  function Inputs(tx: Tx, isCoinBase: bool): seq<OutPoint> {
    if isCoinBase then [] else tx.ins
  }

  /** Spend the inputs, then add the outputs, over unspent ones if need be. It fails
      on a missing input only. */
  function ConnectTx(coins: Coins, tx: Tx, height: nat, isCoinBase: bool): (r: Option<Spent>)
    ensures r.Some? ==> |r.value.stxos| == |Inputs(tx, isCoinBase)|
  {
    match Spend(coins, Inputs(tx, isCoinBase))
    case None => None
    case Some(s) => Some(Spent(s.coins + Outputs(tx, height, isCoinBase), s.stxos))
  }

  function DisconnectTx(coins: Coins, tx: Tx, height: nat, isCoinBase: bool, stxos: seq<Coin>): Coins
    requires |stxos| == |Inputs(tx, isCoinBase)|
  {
    Unspend(coins - Outputs(tx, height, isCoinBase).Keys, Inputs(tx, isCoinBase), stxos)
  }

  /** All transactions of a block in order, the first one the coinbase. */
  function ConnectTxs(coins: Coins, txs: seq<Tx>, height: nat): (r: Option<Spent>) {
    if txs == [] then Some(Spent(coins, []))
    else match ConnectTxs(coins, txs[..|txs| - 1], height)
      case None => None
      case Some(s) =>
        match ConnectTx(s.coins, txs[|txs| - 1], height, |txs| == 1)
        case None => None
        case Some(t) => Some(Spent(t.coins, s.stxos + t.stxos))
  }

  /** Backwards through the transactions; it fails when the journal does not hold
      exactly one coin for each spent input. */
  function DisconnectTxs(coins: Coins, txs: seq<Tx>, height: nat, stxos: seq<Coin>): (r: Option<Coins>)
    decreases txs
  {
    if txs == [] then if stxos == [] then Some(coins) else None
    else
      var tx, isCoinBase := txs[|txs| - 1], |txs| == 1;
      var k := |Inputs(tx, isCoinBase)|;
      if |stxos| < k then None
      else
        DisconnectTxs(DisconnectTx(coins, tx, height, isCoinBase, stxos[|stxos| - k..]),
          txs[..|txs| - 1], height, stxos[..|stxos| - k])
  }

  /** countSpentOutputs: one for each input of each transaction but the coinbase. */
  function CountSpentOutputs(txs: seq<Tx>): nat {
    if txs == [] then 0
    else CountSpentOutputs(txs[..|txs| - 1]) + |Inputs(txs[|txs| - 1], |txs| == 1)|
  }

  lemma {:induction false} ConnectCounts(coins: Coins, txs: seq<Tx>, height: nat)
    requires ConnectTxs(coins, txs, height).Some?
    ensures |ConnectTxs(coins, txs, height).value.stxos| == CountSpentOutputs(txs)
  {
    hide ConnectTx;
    if txs != [] { ConnectCounts(coins, txs[..|txs| - 1], height); }
  }

  ghost predicate Spendable(coins: Coins, ins: seq<OutPoint>) {
    && (forall i :: 0 <= i < |ins| ==> ins[i] in coins)
    && (forall i, j :: 0 <= i < j < |ins| ==> ins[i] != ins[j])
  }

  /** Inputs can be spent exactly when each is unspent and none is named twice; then
      they and nothing else are gone, and each is recorded at its own position. */
  lemma {:induction false} SpendMeans(coins: Coins, ins: seq<OutPoint>)
    ensures Spend(coins, ins).Some? <==> Spendable(coins, ins)
    ensures Spend(coins, ins).Some? ==>
      && Spend(coins, ins).value.coins == coins - (set i | 0 <= i < |ins| :: ins[i])
      && forall i :: 0 <= i < |ins| ==> Spend(coins, ins).value.stxos[i] == coins[ins[i]]
    decreases ins
  {
    if ins != [] {
      var init, last := ins[..|ins| - 1], ins[|ins| - 1];
      SpendMeans(coins, init);
      assert forall i :: 0 <= i < |init| ==> init[i] == ins[i];
      assert (set i | 0 <= i < |ins| :: ins[i]) == (set i | 0 <= i < |init| :: init[i]) + {last};
    }
  }

  /** A transaction connects exactly when its inputs can be spent; then an output is
      unspent afterwards exactly when it was before and is not spent, or is a
      spendable one of the transaction's own, which replaces any other. */
  lemma ConnectTxMeans(coins: Coins, tx: Tx, height: nat, isCoinBase: bool, o: OutPoint)
    ensures ConnectTx(coins, tx, height, isCoinBase).Some? <==> Spendable(coins, Inputs(tx, isCoinBase))
    ensures ConnectTx(coins, tx, height, isCoinBase).Some? ==>
      var after := ConnectTx(coins, tx, height, isCoinBase).value.coins;
      && (o in after <==> Makes(tx, o) || (o in coins && o !in Inputs(tx, isCoinBase)))
      && (Makes(tx, o) ==> after[o] == Coin(tx.outs[o.index], height, isCoinBase))
      && (o in after && !Makes(tx, o) ==> after[o] == coins[o])
  {
    hide Spend, Spendable;
    var ins := Inputs(tx, isCoinBase);
    SpendMeans(coins, ins);
    var spent := set i | 0 <= i < |ins| :: ins[i];
    assert forall p :: p in spent <==> p in ins;
    OutputsMakes(tx, height, isCoinBase, o);
  }

  /** An output is a spendable one of the transaction's own. */
  predicate Makes(tx: Tx, o: OutPoint) {
    o.hash == tx.hash && o.index < |tx.outs| && !tx.outs[o.index].unspendable
  }

  lemma OutputsMakes(tx: Tx, height: nat, isCoinBase: bool, o: OutPoint)
    ensures o in Outputs(tx, height, isCoinBase) <==> Makes(tx, o)
    ensures Makes(tx, o) ==> Outputs(tx, height, isCoinBase)[o] == Coin(tx.outs[o.index], height, isCoinBase)
  {
  }

  lemma {:induction false} UnspendUndoesSpend(coins: Coins, ins: seq<OutPoint>)
    requires Spend(coins, ins).Some?
    ensures var s := Spend(coins, ins).value; Unspend(s.coins, ins, s.stxos) == coins
  {
    if ins != [] {
      var last := ins[|ins| - 1];
      var p := Spend(coins, ins[..|ins| - 1]).value;
      var s := Spend(coins, ins).value;
      UnspendUndoesSpend(coins, ins[..|ins| - 1]);
      assert s.coins[last := s.stxos[|ins| - 1]] == p.coins;
      assert s.stxos[..|ins| - 1] == p.stxos;
    }
  }

  // ---- disconnecting what was connected

  /** Coins put back: those named as inputs get what was recorded, others stay. */
  lemma {:induction false} UnspendAt(coins: Coins, ins: seq<OutPoint>, stxos: seq<Coin>, o: OutPoint)
    requires |ins| == |stxos|
    ensures o !in ins ==> (o in Unspend(coins, ins, stxos) <==> o in coins)
    ensures o !in ins && o in coins ==> Unspend(coins, ins, stxos)[o] == coins[o]
    ensures o in ins ==> o in Unspend(coins, ins, stxos)
    ensures o in ins ==> exists i :: 0 <= i < |ins| && ins[i] == o && Unspend(coins, ins, stxos)[o] == stxos[i]
    decreases ins
  {
    if ins != [] {
      var last := |ins| - 1;
      var init, more := ins[..last], coins[ins[last] := stxos[last]];
      UnspendAt(more, init, stxos[..last], o);
      assert ins == init + [ins[last]];
      assert Unspend(coins, ins, stxos) == Unspend(more, init, stxos[..last]);
      if o in init {
        var i :| 0 <= i < |init| && init[i] == o && Unspend(coins, ins, stxos)[o] == stxos[..last][i];
        assert ins[i] == o && stxos[..last][i] == stxos[i];
      } else if o in ins {
        assert ins[last] == o && Unspend(coins, ins, stxos)[o] == stxos[last];
      }
    }
  }

  /** One transaction undone, on any coins: an input is back as it was spent, an output
      that is no input is gone, and nothing else has changed. */
  lemma UndoTxAt(coins: Coins, tx: Tx, height: nat, isCoinBase: bool, after: Coins, o: OutPoint)
    requires ConnectTx(coins, tx, height, isCoinBase).Some?
    ensures var r := DisconnectTx(after, tx, height, isCoinBase, ConnectTx(coins, tx, height, isCoinBase).value.stxos);
      && (o in Inputs(tx, isCoinBase) ==> o in r && o in coins && r[o] == coins[o])
      && (o !in Inputs(tx, isCoinBase) && Makes(tx, o) ==> o !in r)
      && (o !in Inputs(tx, isCoinBase) && !Makes(tx, o) ==> (o in r <==> o in after) && (o in r ==> r[o] == after[o]))
  {
    hide Spend, Unspend, Outputs;
    var ins, stxos := Inputs(tx, isCoinBase), ConnectTx(coins, tx, height, isCoinBase).value.stxos;
    SpendMeans(coins, ins);
    OutputsMakes(tx, height, isCoinBase, o);
    UnspendAt(after - Outputs(tx, height, isCoinBase).Keys, ins, stxos, o);
  }

  /** Disconnecting a transaction undoes connecting it exactly when none of its outputs
      replaced one that was unspent. */
  lemma DisconnectUndoesConnectTx(coins: Coins, tx: Tx, height: nat, isCoinBase: bool)
    requires ConnectTx(coins, tx, height, isCoinBase).Some?
    ensures var s := ConnectTx(coins, tx, height, isCoinBase).value;
      DisconnectTx(s.coins, tx, height, isCoinBase, s.stxos) == coins <==>
        forall o :: o in coins && Makes(tx, o) ==> o in Inputs(tx, isCoinBase)
  {
    hide ConnectTx, DisconnectTx;
    var s := ConnectTx(coins, tx, height, isCoinBase).value;
    var r := DisconnectTx(s.coins, tx, height, isCoinBase, s.stxos);
    forall o: OutPoint | true
      ensures o in r ==> o in coins && r[o] == coins[o]
      ensures o in coins && o !in r <==> o in coins && Makes(tx, o) && o !in Inputs(tx, isCoinBase)
    {
      UndoTxAt(coins, tx, height, isCoinBase, s.coins, o);
      ConnectTxMeans(coins, tx, height, isCoinBase, o);
    }
    if forall o :: o in coins && Makes(tx, o) ==> o in Inputs(tx, isCoinBase) {
      assert r.Keys == coins.Keys;
      assert r == coins;
    }
  }

  /** Some transaction names the output, as an input or as its own. */
  predicate Touches(txs: seq<Tx>, o: OutPoint) {
    txs != [] &&
    (|| Touches(txs[..|txs| - 1], o)
     || o in Inputs(txs[|txs| - 1], |txs| == 1)
     || Makes(txs[|txs| - 1], o))
  }

  /** The first transaction to name the output spends it. */
  predicate SpentFirst(txs: seq<Tx>, o: OutPoint) {
    txs != [] &&
    if Touches(txs[..|txs| - 1], o) then SpentFirst(txs[..|txs| - 1], o) else o in Inputs(txs[|txs| - 1], |txs| == 1)
  }

  /** No transaction of the block replaces an output that was unspent before the block
      and is unspent still: it is made again only once it has been spent. */
  predicate KeepsUnspent(coins: Coins, txs: seq<Tx>) {
    forall o :: o in coins && Touches(txs, o) ==> SpentFirst(txs, o)
  }

  /** The block undone, on any coins: what it names first as an input is back as it was
      before the block, what it names first as its own is gone, and nothing else has
      changed. */
  lemma {:induction false} UndoAt(coins: Coins, txs: seq<Tx>, height: nat, after: Coins, o: OutPoint)
    requires ConnectTxs(coins, txs, height).Some?
    ensures var s := ConnectTxs(coins, txs, height).value;
      && (!Touches(txs, o) ==> (o in s.coins <==> o in coins) && (o in coins ==> s.coins[o] == coins[o]))
      && var d := DisconnectTxs(after, txs, height, s.stxos);
         && d.Some?
         && (Touches(txs, o) ==> (o in d.value <==> SpentFirst(txs, o)))
         && (Touches(txs, o) && o in d.value ==> o in coins && d.value[o] == coins[o])
         && (!Touches(txs, o) ==> (o in d.value <==> o in after) && (o in after ==> d.value[o] == after[o]))
    decreases txs
  {
    hide ConnectTx, DisconnectTx, Makes, Inputs, Spend, Unspend, Outputs;
    if txs != [] {
      var tx, isCoinBase, init := txs[|txs| - 1], |txs| == 1, txs[..|txs| - 1];
      var p := ConnectTxs(coins, init, height).value;
      var t := ConnectTx(p.coins, tx, height, isCoinBase).value;
      var s := ConnectTxs(coins, txs, height).value;
      var k := |Inputs(tx, isCoinBase)|;
      assert s.stxos[|s.stxos| - k..] == t.stxos;
      assert s.stxos[..|s.stxos| - k] == p.stxos;
      UndoAt(coins, init, height, DisconnectTx(after, tx, height, isCoinBase, t.stxos), o);
      UndoTxAt(p.coins, tx, height, isCoinBase, after, o);
      ConnectTxMeans(p.coins, tx, height, isCoinBase, o);
    }
  }

  /** Disconnecting a block with the spend journal of its connection restores the
      unspent outputs exactly, spends inside the block included, if and only if the
      block replaced no output that was unspent. */
  lemma DisconnectUndoesConnect(coins: Coins, txs: seq<Tx>, height: nat)
    requires ConnectTxs(coins, txs, height).Some?
    ensures var s := ConnectTxs(coins, txs, height).value;
      DisconnectTxs(s.coins, txs, height, s.stxos) == Some(coins) <==> KeepsUnspent(coins, txs)
  {
    hide ConnectTxs, DisconnectTxs, Touches, SpentFirst;
    var s := ConnectTxs(coins, txs, height).value;
    UndoAt(coins, txs, height, s.coins, OutPoint(0, 0));
    var r := DisconnectTxs(s.coins, txs, height, s.stxos).value;
    forall o: OutPoint | true
      ensures o in r ==> o in coins && r[o] == coins[o]
      ensures o in coins ==> (o in r <==> Touches(txs, o) ==> SpentFirst(txs, o))
    {
      UndoAt(coins, txs, height, s.coins, o);
    }
    if KeepsUnspent(coins, txs) {
      assert r.Keys == coins.Keys;
      assert r == coins;
    }
  }

  /** What that condition asks of the transactions one by one. */
  lemma KeepsUnspentMeans(coins: Coins, txs: seq<Tx>)
    ensures KeepsUnspent(coins, txs) <==>
      forall o, k :: o in coins && 0 <= k < |txs| && Makes(txs[k], o) ==>
        exists i :: 0 <= i <= k && o in Inputs(txs[i], i == 0)
  {
    hide Touches, SpentFirst, Makes;
    forall o: OutPoint | true
      ensures (Touches(txs, o) ==> SpentFirst(txs, o)) <==>
        forall k :: 0 <= k < |txs| && Makes(txs[k], o) ==> exists i :: 0 <= i <= k && o in Inputs(txs[i], i == 0)
    {
      SpentFirstMeans(txs, o);
    }
  }

  lemma {:induction false} SpentFirstMeans(txs: seq<Tx>, o: OutPoint)
    ensures Touches(txs, o) <==> exists i :: 0 <= i < |txs| && (o in Inputs(txs[i], i == 0) || Makes(txs[i], o))
    ensures (Touches(txs, o) ==> SpentFirst(txs, o)) <==>
      forall k :: 0 <= k < |txs| && Makes(txs[k], o) ==> exists i :: 0 <= i <= k && o in Inputs(txs[i], i == 0)
    decreases txs
  {
    if txs != [] {
      hide Makes;
      var last := |txs| - 1;
      var init := txs[..last];
      SpentFirstMeans(init, o);
      assert forall i :: 0 <= i < last ==> init[i] == txs[i];
    }
  }

  /** A coinbase made twice, with its first output still unspent: after the second block
      is disconnected, the output is gone. */
  lemma CoinbaseMadeAgain(tx: Tx, low: nat, high: nat, i: nat)
    requires i < |tx.outs| && !tx.outs[i].unspendable
    ensures var coins, o := Outputs(tx, low, true), OutPoint(tx.hash, i);
      var s := ConnectTxs(coins, [tx], high);
      && s.Some? && o in coins
      && var d := DisconnectTxs(s.value.coins, [tx], high, s.value.stxos);
         d.Some? && o !in d.value && !KeepsUnspent(coins, [tx])
  {
    hide DisconnectTxs;
    var coins, o := Outputs(tx, low, true), OutPoint(tx.hash, i);
    assert [tx][..0] == [];
    assert Makes(tx, o) && Inputs(tx, true) == [];
    assert ConnectTxs(coins, [], high).Some?;
    assert ConnectTx(coins, tx, high, true).Some?;
    var s := ConnectTxs(coins, [tx], high);
    UndoAt(coins, [tx], high, s.value.coins, o);
    assert Touches([tx], o) && !SpentFirst([tx], o);
  }

  /** The same on numbers. */
  lemma CoinbaseMadeTwice()
    ensures var tx := Tx(1, [OutPoint(ZERO_HASH, 0xffff_ffff)], [TxOut(50, [], false)]);
      var coins := map[OutPoint(1, 0) := Coin(tx.outs[0], 5, true)];
      var s := ConnectTxs(coins, [tx], 9);
      s.Some? && DisconnectTxs(s.value.coins, [tx], 9, s.value.stxos) == Some(map[])
  {
    var tx := Tx(1, [OutPoint(ZERO_HASH, 0xffff_ffff)], [TxOut(50, [], false)]);
    var coins := map[OutPoint(1, 0) := Coin(tx.outs[0], 5, true)];
    assert coins == Outputs(tx, 5, true);
    CoinbaseMadeAgain(tx, 5, 9, 0);
    var s := ConnectTxs(coins, [tx], 9);
    forall o: OutPoint | true
      ensures o !in DisconnectTxs(s.value.coins, [tx], 9, s.value.stxos).value
    {
      UndoAt(coins, [tx], 9, s.value.coins, o);
      if Touches([tx], o) { assert [tx][..0] == [] && !SpentFirst([tx], o); }
    }
  }
}
