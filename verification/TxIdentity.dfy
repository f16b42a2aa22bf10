/** Why no block of a chain replaces an unspent output (the reasoning behind skipping
    the check of BIP 30 in btcd/blockchain/validate.go): once every coinbase differs
    from every other transaction, as the height of BIP 34 in it makes it, so does
    every other transaction, because it spends an output that cannot be made again. */
module TxIdentity {
  import opened Wire
  import opened BlockTree
  import opened Utxo
  import opened ChainSpec
  import opened ChainSafety

  /** A transaction of a chain, where it is. */
  datatype Place = Place(tx: Tx, height: nat, isCoinBase: bool)

  /** The transactions of a chain after genesis, in order. */
  ghost function Places(path: seq<BlockNode>): seq<Place> {
    if |path| <= 1 then [] else Places(path[..|path| - 1]) + PlacesOf(path[|path| - 1])
  }

  ghost function PlacesOf(n: BlockNode): (places: seq<Place>)
    ensures |places| == |n.block.txs|
    ensures forall i :: 0 <= i < |places| ==> places[i] == Place(n.block.txs[i], n.height, i == 0)
  {
    seq(|n.block.txs|, i requires 0 <= i < |n.block.txs| => Place(n.block.txs[i], n.height, i == 0))
  }

  /** What is unspent after some transactions. */
  ghost function Unspent(places: seq<Place>): Option<Coins> {
    if places == [] then Some(map[])
    else
      var last := places[|places| - 1];
      match Unspent(places[..|places| - 1])
      case None => None
      case Some(coins) =>
        match ConnectTx(coins, last.tx, last.height, last.isCoinBase)
        case None => None
        case Some(s) => Some(s.coins)
  }

  /** A coinbase differs from every other transaction, equal hashes mean equal inputs,
      and only a coinbase has no output to spend. */
  ghost predicate Identified(places: seq<Place>) {
    && (forall i, j :: 0 <= i < j < |places| && (places[i].isCoinBase || places[j].isCoinBase) ==>
          places[i].tx.hash != places[j].tx.hash)
    && (forall i, j :: 0 <= i < j < |places| && places[i].tx.hash == places[j].tx.hash ==>
          places[i].tx.ins == places[j].tx.ins)
    && (forall i :: 0 <= i < |places| && !places[i].isCoinBase ==> places[i].tx.ins != [])
  }

  ghost predicate AllDifferent(places: seq<Place>) {
    forall i, j :: 0 <= i < j < |places| ==> places[i].tx.hash != places[j].tx.hash
  }

  lemma UnspentStep(places: seq<Place>, o: OutPoint)
    requires places != [] && Unspent(places).Some?
    ensures var init, last := places[..|places| - 1], places[|places| - 1];
      && Unspent(init).Some?
      && Spendable(Unspent(init).value, Inputs(last.tx, last.isCoinBase))
      && (o in Unspent(places).value <==>
            Makes(last.tx, o) || (o in Unspent(init).value && o !in Inputs(last.tx, last.isCoinBase)))
  {
    hide ConnectTx, Spendable, Makes;
    var init, last := places[..|places| - 1], places[|places| - 1];
    ConnectTxMeans(Unspent(init).value, last.tx, last.height, last.isCoinBase, o);
  }

  lemma {:induction false} UnspentPrefix(places: seq<Place>, k: nat)
    requires Unspent(places).Some? && k <= |places|
    ensures Unspent(places[..k]).Some?
    decreases |places|
  {
    if k < |places| {
      UnspentPrefix(places[..|places| - 1], k);
      assert places[..|places| - 1][..k] == places[..k];
    } else {
      assert places[..k] == places;
    }
  }

  /** Whatever is unspent was made. */
  lemma {:induction false} Maker(places: seq<Place>, o: OutPoint) returns (i: nat)
    requires Unspent(places).Some? && o in Unspent(places).value
    ensures i < |places| && Makes(places[i].tx, o)
    decreases |places|
  {
    hide Makes;
    UnspentStep(places, o);
    i := |places| - 1;
    if !Makes(places[i].tx, o) { i := Maker(places[..i], o); }
  }

  /** Whatever is unspent after it was spent was made again. */
  lemma {:induction false} MadeAgain(places: seq<Place>, q: nat, o: OutPoint) returns (i: nat)
    requires Unspent(places).Some? && o in Unspent(places).value
    requires q < |places| && o in Inputs(places[q].tx, places[q].isCoinBase)
    ensures q <= i < |places| && Makes(places[i].tx, o)
    decreases |places|
  {
    hide Makes;
    UnspentStep(places, o);
    i := |places| - 1;
    if !Makes(places[i].tx, o) {
      assert places[..i][q] == places[q];
      i := MadeAgain(places[..i], q, o);
    }
  }

  /** Distinct coinbases make all transactions of a chain distinct. */
  lemma {:induction false} DistinctTxs(places: seq<Place>)
    requires Unspent(places).Some? && Identified(places)
    ensures AllDifferent(places)
    decreases |places|
  {
    if places != [] {
      var p := |places| - 1;
      var init := places[..p];
      UnspentPrefix(places, p);
      assert forall i :: 0 <= i < p ==> init[i] == places[i];
      DistinctTxs(init);
      forall q | 0 <= q < p
        ensures places[q].tx.hash != places[p].tx.hash
      {
        if places[q].tx.hash == places[p].tx.hash { var a, b := SpentTwice(places, q); }
      }
    }
  }

  /** For the same transaction to come again, its first input would have to be unspent
      again, and so some transaction to have come twice before. */
  lemma SpentTwice(places: seq<Place>, q: nat) returns (a: nat, b: nat)
    requires Unspent(places).Some? && Identified(places) && q < |places| - 1
    requires places[q].tx.hash == places[|places| - 1].tx.hash
    ensures a < b < |places| - 1 && places[a].tx.hash == places[b].tx.hash
  {
    hide Unspent, Makes;
    var p := |places| - 1;
    var o := places[p].tx.ins[0];
    InputUnspent(places, p, o);
    InputUnspent(places, q, o);
    a := Maker(places[..q], o);
    b := MadeAgain(places[..p], q, o);
    SameMaker(places[a].tx, places[b].tx, o);
  }

  lemma SameMaker(t: Tx, u: Tx, o: OutPoint)
    ensures Makes(t, o) && Makes(u, o) ==> t.hash == u.hash
  {
  }

  lemma InputUnspent(places: seq<Place>, q: nat, o: OutPoint)
    requires Unspent(places).Some? && q < |places| && o in Inputs(places[q].tx, places[q].isCoinBase)
    ensures Unspent(places[..q]).Some? && o in Unspent(places[..q]).value
  {
    hide Unspent, Makes;
    UnspentPrefix(places, q + 1);
    var upTo := places[..q + 1];
    UnspentStep(upTo, o);
    assert upTo[..q] == places[..q];
  }

  // ---- along a chain

  /** The ledger of a chain if blocks may replace unspent outputs. */
  ghost function ReplayAny(path: seq<BlockNode>): Option<Ledger>
    requires |path| > 0
  {
    if |path| == 1 then Some(Ledger(map[], map[]))
    else match ReplayAny(path[..|path| - 1])
      case None => None
      case Some(l) => ConnectAny(l, path[|path| - 1])
  }

  /** Block by block is transaction by transaction. */
  lemma {:induction false} BlockUnspent(places: seq<Place>, coins: Coins, n: BlockNode, k: nat)
    requires Unspent(places) == Some(coins) && k <= |n.block.txs|
    requires ConnectTxs(coins, n.block.txs[..k], n.height).Some?
    ensures Unspent(places + PlacesOf(n)[..k]) == Some(ConnectTxs(coins, n.block.txs[..k], n.height).value.coins)
    decreases k
  {
    hide ConnectTx;
    if k == 0 {
      assert places + PlacesOf(n)[..0] == places;
    } else {
      var txs := n.block.txs[..k];
      assert txs[..k - 1] == n.block.txs[..k - 1];
      BlockUnspent(places, coins, n, k - 1);
      var more := places + PlacesOf(n)[..k];
      assert more[..|more| - 1] == places + PlacesOf(n)[..k - 1];
      assert more[|more| - 1] == PlacesOf(n)[k - 1];
    }
  }

  lemma {:induction false} ChainUnspent(path: seq<BlockNode>)
    requires |path| > 0 && ReplayAny(path).Some?
    ensures Unspent(Places(path)) == Some(ReplayAny(path).value.coins)
    decreases |path|
  {
    hide ConnectTxs;
    if |path| > 1 {
      var init, n := path[..|path| - 1], path[|path| - 1];
      ChainUnspent(init);
      assert n.block.txs[..|n.block.txs|] == n.block.txs;
      assert PlacesOf(n)[..|n.block.txs|] == PlacesOf(n);
      BlockUnspent(Places(init), ReplayAny(init).value.coins, n, |n.block.txs|);
    }
  }

  /** On a chain with distinct coinbases the next block replaces nothing unspent: the
      check of BIP 30 adds nothing to finding every input. */
  lemma NothingReplaced(path: seq<BlockNode>, n: BlockNode)
    requires |path| > 0 && ReplayAny(path).Some? && ConnectAny(ReplayAny(path).value, n).Some?
    requires Identified(Places(path + [n]))
    ensures KeepsUnspent(ReplayAny(path).value.coins, n.block.txs)
    ensures ConnectNode(ReplayAny(path).value, n) == ConnectAny(ReplayAny(path).value, n)
  {
    hide ConnectTxs, KeepsUnspent, Makes, Unspent;
    var coins, whole := ReplayAny(path).value.coins, path + [n];
    assert whole[..|path|] == path;
    ChainUnspent(path);
    ChainUnspent(whole);
    DistinctTxs(Places(whole));
    forall o, k | o in coins && 0 <= k < |n.block.txs|
      ensures !Makes(n.block.txs[k], o)
    {
      var a := Maker(Places(path), o);
      var b := |Places(path)| + k;
      assert Places(whole)[a] == Places(path)[a] && Places(whole)[b] == PlacesOf(n)[k];
      SameMaker(Places(whole)[a].tx, Places(whole)[b].tx, o);
    }
    KeepsUnspentMeans(coins, n.block.txs);
  }

  /** On a chain with distinct coinbases, replaying with and without the check of BIP 30
      is the same. */
  lemma {:induction false} ReplaySame(path: seq<BlockNode>)
    requires |path| > 0 && Identified(Places(path))
    ensures Replay(path) == ReplayAny(path)
    decreases |path|
  {
    hide ConnectAny, KeepsUnspent;
    if |path| > 1 {
      var init, n := path[..|path| - 1], path[|path| - 1];
      assert path == init + [n];
      assert Places(path)[..|Places(init)|] == Places(init);
      IdentifiedPrefix(Places(path), |Places(init)|);
      ReplaySame(init);
      if ReplayAny(init).Some? && ConnectAny(ReplayAny(init).value, n).Some? { NothingReplaced(init, n); }
    }
  }

  lemma IdentifiedPrefix(places: seq<Place>, k: nat)
    requires Identified(places) && k <= |places|
    ensures Identified(places[..k])
  {
    assert forall i :: 0 <= i < k ==> places[..k][i] == places[i];
  }
}
