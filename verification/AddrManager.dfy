/** The address manager's tables (btcd/addrmgr/addrmanager.go): an index of known
    addresses, buckets of new addresses that count references to them, and lists of
    tried addresses. An address in a bucket or a list is the one in the index. */
module AddrManager {
  import opened Wire

  const TRIED_BUCKET_SIZE: nat := 256
  const TRIED_BUCKET_COUNT: nat := 64
  const NEW_BUCKET_SIZE: nat := 64
  const NEW_BUCKET_COUNT: nat := 1024
  const NEW_BUCKETS_PER_ADDRESS: nat := 8
  const NUM_MISSING_DAYS: nat := 30
  const NUM_RETRIES: nat := 3
  const MAX_FAILURES: nat := 10
  const MIN_BAD_DAYS: nat := 7
  const MINUTE := 60
  const DAY := 24 * 60 * MINUTE

  /** NetAddressKey of an address: equal keys, same address. */
  type Key = int

  datatype NetAddress = NetAddress(key: Key, timestamp: int, services: set<nat>)

  /** Times are in seconds, None for the zero time. */
  datatype KnownAddress = KnownAddress(
    na: NetAddress,
    srcAddr: NetAddress,
    attempts: nat,
    lastattempt: Option<int>,
    lastsuccess: Option<int>,
    tried: bool,
    refs: int)

  predicate Since(t: Option<int>, u: int) {
    t.Some? && t.value > u
  }

  /** isBad. */
  predicate IsBad(ka: KnownAddress, now: int) {
    && !Since(ka.lastattempt, now - MINUTE)
    && (|| ka.na.timestamp > now + 10 * MINUTE
        || ka.na.timestamp < now - NUM_MISSING_DAYS * DAY
        || (ka.lastsuccess.None? && ka.attempts >= NUM_RETRIES)
        || (!Since(ka.lastsuccess, now - MIN_BAD_DAYS * DAY) && ka.attempts >= MAX_FAILURES))
  }

  datatype Tables = Tables(
    index: map<Key, KnownAddress>,
    news: seq<set<Key>>,
    tried: seq<seq<Key>>,
    nNew: int,
    nTried: int)

  // ---- the invariant

  /** How many new buckets hold an address. */
  ghost function Buckets(news: seq<set<Key>>, k: Key): nat {
    if news == [] then 0 else Buckets(news[..|news| - 1], k) + if k in news[|news| - 1] then 1 else 0
  }

  /** How often an address is listed as tried. */
  ghost function Listings(tried: seq<seq<Key>>, k: Key): nat {
    if tried == [] then 0 else Listings(tried[..|tried| - 1], k) + multiset(tried[|tried| - 1])[k]
  }

  ghost function NewKeys(index: map<Key, KnownAddress>): set<Key> {
    set k | k in index && !index[k].tried
  }

  ghost function TriedKeys(index: map<Key, KnownAddress>): set<Key> {
    set k | k in index && index[k].tried
  }

  /** An address is where its entry says: in as many new buckets as it has references
      and on no list, or on one list, once, and in no bucket. */
  ghost predicate Placed(t: Tables, k: Key) {
    if k !in t.index then Buckets(t.news, k) == 0 && Listings(t.tried, k) == 0
    else
      var ka := t.index[k];
      && ka.na.key == k
      && ka.refs == Buckets(t.news, k)
      && if ka.tried then ka.refs == 0 && Listings(t.tried, k) == 1
         else ka.refs <= NEW_BUCKETS_PER_ADDRESS && Listings(t.tried, k) == 0
  }

  /** Everything is placed, and only pending addresses are new without a bucket. */
  ghost predicate Tabled(t: Tables, pending: set<Key>) {
    && |t.news| == NEW_BUCKET_COUNT && |t.tried| == TRIED_BUCKET_COUNT
    && (forall k :: Placed(t, k))
    && (forall k :: k in t.index && !t.index[k].tried && k !in pending ==> t.index[k].refs >= 1)
    && t.nNew == |NewKeys(t.index)| && t.nTried == |TriedKeys(t.index)|
    && (forall b :: 0 <= b < |t.news| ==> |t.news[b]| <= NEW_BUCKET_SIZE + 1)
    && (forall b :: 0 <= b < |t.tried| ==> |t.tried[b]| <= TRIED_BUCKET_SIZE)
  }

  // ---- counting

  lemma {:induction false} BucketsUpdate(news: seq<set<Key>>, b: nat, s: set<Key>, k: Key)
    requires b < |news|
    ensures Buckets(news[b := s], k) ==
      Buckets(news, k) - (if k in news[b] then 1 else 0) + (if k in s then 1 else 0)
    decreases |news|
  {
    var last := |news| - 1;
    if b < last {
      BucketsUpdate(news[..last], b, s, k);
      assert news[b := s][..last] == news[..last][b := s];
    } else {
      assert news[b := s][..last] == news[..last];
    }
  }

  lemma {:induction false} BucketsNone(news: seq<set<Key>>, k: Key)
    ensures Buckets(news, k) == 0 <==> forall b :: 0 <= b < |news| ==> k !in news[b]
    decreases |news|
  {
    if news != [] {
      var last := |news| - 1;
      BucketsNone(news[..last], k);
      assert forall b :: 0 <= b < last ==> news[..last][b] == news[b];
    }
  }

  lemma {:induction false} ListingsUpdate(tried: seq<seq<Key>>, b: nat, l: seq<Key>, k: Key)
    requires b < |tried|
    ensures Listings(tried[b := l], k) == Listings(tried, k) - multiset(tried[b])[k] + multiset(l)[k]
    ensures multiset(tried[b])[k] <= Listings(tried, k)
    decreases |tried|
  {
    var last := |tried| - 1;
    if b < last {
      ListingsUpdate(tried[..last], b, l, k);
      assert tried[b := l][..last] == tried[..last][b := l];
    } else {
      assert tried[b := l][..last] == tried[..last];
    }
  }

  /** New and tried addresses are all addresses. */
  lemma CountsAdd(t: Tables)
    requires Tabled(t, {})
    ensures t.nNew + t.nTried == |t.index|
  {
    assert NewKeys(t.index) + TriedKeys(t.index) == t.index.Keys;
    assert NewKeys(t.index) !! TriedKeys(t.index);
  }

  /** References count buckets: the number of bucket numbers that hold the address. */
  lemma {:induction false} BucketsCount(news: seq<set<Key>>, k: Key)
    ensures Buckets(news, k) == |set b | 0 <= b < |news| && k in news[b]|
    decreases |news|
  {
    if news != [] {
      var last := |news| - 1;
      BucketsCount(news[..last], k);
      var before := set b | 0 <= b < last && k in news[..last][b];
      assert before == set b | 0 <= b < last && k in news[b];
      assert (set b | 0 <= b < |news| && k in news[b]) == if k in news[last] then before + {last} else before;
    }
  }

  /** A tried address has one place on one list, and a new one has none. */
  lemma ListedOnce(t: Tables, k: Key)
    requires Tabled(t, {}) && k in t.index
    ensures t.index[k].tried <==> exists b, p :: 0 <= b < |t.tried| && 0 <= p < |t.tried[b]| && t.tried[b][p] == k
    ensures forall b, p, c, q ::
      && 0 <= b < |t.tried| && 0 <= p < |t.tried[b]| && t.tried[b][p] == k
      && 0 <= c < |t.tried| && 0 <= q < |t.tried[c]| && t.tried[c][q] == k
      ==> b == c && p == q
  {
    hide Listings;
    assert Placed(t, k);
    ListingsPlaces(t.tried, k);
  }

  lemma {:induction false} ListingsPlaces(tried: seq<seq<Key>>, k: Key)
    ensures Listings(tried, k) > 0 <==> exists b, p :: 0 <= b < |tried| && 0 <= p < |tried[b]| && tried[b][p] == k
    ensures Listings(tried, k) <= 1 ==>
      forall b, p, c, q ::
        && 0 <= b < |tried| && 0 <= p < |tried[b]| && tried[b][p] == k
        && 0 <= c < |tried| && 0 <= q < |tried[c]| && tried[c][q] == k
        ==> b == c && p == q
    decreases |tried|
  {
    if tried != [] {
      var last := |tried| - 1;
      var init := tried[..last];
      ListingsPlaces(init, k);
      assert forall b :: 0 <= b < last ==> init[b] == tried[b];
      ListPlaces(tried[last], k);
    }
  }

  lemma {:induction false} ListPlaces(list: seq<Key>, k: Key)
    ensures multiset(list)[k] > 0 <==> exists p :: 0 <= p < |list| && list[p] == k
    ensures multiset(list)[k] <= 1 ==>
      forall p, q :: 0 <= p < |list| && 0 <= q < |list| && list[p] == k && list[q] == k ==> p == q
    decreases |list|
  {
    if list != [] {
      var init := list[..|list| - 1];
      ListPlaces(init, k);
      assert list == init + [list[|list| - 1]];
      assert forall p :: 0 <= p < |init| ==> init[p] == list[p];
    }
  }

  /** The tables agree, in terms of the tables alone: a new address has one reference
      for each bucket that holds it, between one and eight; a tried one has none and
      is on one list, once; nothing else is in a bucket or on a list; the counters
      count; no bucket or list is over its limit. */
  lemma TablesAgree(t: Tables, k: Key)
    requires Tabled(t, {})
    ensures
      var holders := set b | 0 <= b < |t.news| && k in t.news[b];
      && (k in t.index && !t.index[k].tried ==> 1 <= t.index[k].refs == |holders| <= NEW_BUCKETS_PER_ADDRESS)
      && (k in t.index && t.index[k].tried ==> t.index[k].refs == |holders| == 0)
      && (k !in t.index ==> holders == {})
    ensures (k in t.index && t.index[k].tried) <==>
      exists b, p :: 0 <= b < |t.tried| && 0 <= p < |t.tried[b]| && t.tried[b][p] == k
    ensures t.nNew + t.nTried == |t.index|
    ensures forall b :: 0 <= b < |t.news| ==> |t.news[b]| <= NEW_BUCKET_SIZE + 1
    ensures forall b :: 0 <= b < |t.tried| ==> |t.tried[b]| <= TRIED_BUCKET_SIZE
  {
    hide Buckets, Listings;
    assert Placed(t, k);
    BucketsCount(t.news, k);
    ListingsPlaces(t.tried, k);
    CountsAdd(t);
  }

  lemma TabledFacts(t: Tables, pending: set<Key>, k: Key)
    requires Tabled(t, pending)
    ensures Placed(t, k) && |t.news| == NEW_BUCKET_COUNT && |t.tried| == TRIED_BUCKET_COUNT
    ensures t.nNew == |NewKeys(t.index)| && t.nTried == |TriedKeys(t.index)|
    ensures k in t.index && !t.index[k].tried && k !in pending ==> t.index[k].refs >= 1
    ensures forall b :: 0 <= b < |t.news| ==> |t.news[b]| <= NEW_BUCKET_SIZE + 1
    ensures forall b :: 0 <= b < |t.tried| ==> |t.tried[b]| <= TRIED_BUCKET_SIZE
  {
    hide Placed, NewKeys, TriedKeys;
  }

  lemma TabledIs(t: Tables, pending: set<Key>)
    requires |t.news| == NEW_BUCKET_COUNT && |t.tried| == TRIED_BUCKET_COUNT
    requires forall k :: Placed(t, k)
    requires forall k :: k in t.index && !t.index[k].tried && k !in pending ==> t.index[k].refs >= 1
    requires t.nNew == |NewKeys(t.index)| && t.nTried == |TriedKeys(t.index)|
    requires forall b :: 0 <= b < |t.news| ==> |t.news[b]| <= NEW_BUCKET_SIZE + 1
    requires forall b :: 0 <= b < |t.tried| ==> |t.tried[b]| <= TRIED_BUCKET_SIZE
    ensures Tabled(t, pending)
  {
    hide Placed, NewKeys, TriedKeys;
  }

  lemma KeySets(index: map<Key, KnownAddress>, k: Key, ka: KnownAddress)
    ensures NewKeys(index[k := ka]) == if ka.tried then NewKeys(index) - {k} else NewKeys(index) + {k}
    ensures TriedKeys(index[k := ka]) == if ka.tried then TriedKeys(index) + {k} else TriedKeys(index) - {k}
    ensures k in NewKeys(index) <==> k in index && !index[k].tried
    ensures k in TriedKeys(index) <==> k in index && index[k].tried
  {
  }

  // ---- one step on the tables

  /** An entry replaced by one for the same address, as new or tried as before. */
  ghost function Refreshed(t: Tables, k: Key, ka: KnownAddress): Tables {
    t.(index := t.index[k := ka])
  }

  lemma RefreshedTabled(t: Tables, pending: set<Key>, k: Key, ka: KnownAddress)
    requires Tabled(t, pending) && k in t.index
    requires ka.na.key == k && ka.tried == t.index[k].tried && ka.refs == t.index[k].refs
    ensures Tabled(Refreshed(t, k, ka), pending)
  {
    hide Buckets, Listings;
    var u := Refreshed(t, k, ka);
    assert NewKeys(u.index) == NewKeys(t.index);
    assert TriedKeys(u.index) == TriedKeys(t.index);
    forall x | true
      ensures Placed(u, x)
    {
      assert Placed(t, x);
    }
  }

  /** An address seen for the first time, not yet in a bucket. */
  ghost function Inserted(t: Tables, na: NetAddress, src: NetAddress): Tables {
    t.(index := t.index[na.key := KnownAddress(na, src, 0, None, None, false, 0)], nNew := t.nNew + 1)
  }

  lemma InsertedTabled(t: Tables, na: NetAddress, src: NetAddress)
    requires Tabled(t, {}) && na.key !in t.index
    ensures Tabled(Inserted(t, na, src), {na.key})
  {
    hide Buckets, Listings, NewKeys, TriedKeys;
    var u := Inserted(t, na, src);
    KeySets(t.index, na.key, u.index[na.key]);
    forall x | true
      ensures Placed(u, x)
    {
      assert Placed(t, x);
    }
  }

  /** One more reference, from a bucket that does not hold the address yet. */
  ghost function Referenced(t: Tables, k: Key, b: nat): Tables
    requires k in t.index && b < |t.news|
  {
    t.(index := t.index[k := t.index[k].(refs := t.index[k].refs + 1)], news := t.news[b := t.news[b] + {k}])
  }

  lemma ReferencedTabled(t: Tables, k: Key, b: nat)
    requires Tabled(t, {k}) && k in t.index && !t.index[k].tried && t.index[k].refs < NEW_BUCKETS_PER_ADDRESS
    requires b < |t.news| && k !in t.news[b] && |t.news[b]| <= NEW_BUCKET_SIZE
    ensures Tabled(Referenced(t, k, b), {})
  {
    hide Buckets, Listings;
    var u := Referenced(t, k, b);
    assert NewKeys(u.index) == NewKeys(t.index);
    assert TriedKeys(u.index) == TriedKeys(t.index);
    forall x | true
      ensures Placed(u, x)
    {
      assert Placed(t, x);
      BucketsUpdate(t.news, b, t.news[b] + {k}, x);
    }
    assert Placed(t, k);
  }

  /** One reference less; an address without a reference is forgotten. */
  ghost function Dropped(t: Tables, k: Key, b: nat): Tables
    requires k in t.index && b < |t.news|
  {
    var ka := t.index[k];
    var u := t.(news := t.news[b := t.news[b] - {k}]);
    if ka.refs == 1 then u.(index := t.index - {k}, nNew := t.nNew - 1)
    else u.(index := t.index[k := ka.(refs := ka.refs - 1)])
  }

  /** An address in a new bucket is new, and has its references. */
  lemma InBucket(t: Tables, pending: set<Key>, k: Key, b: nat)
    requires Tabled(t, pending) && b < |t.news| && k in t.news[b]
    ensures k in t.index && !t.index[k].tried && t.index[k].refs >= 1
  {
    assert Placed(t, k);
    BucketsNone(t.news, k);
  }

  lemma DroppedTabled(t: Tables, pending: set<Key>, k: Key, b: nat)
    requires Tabled(t, pending) && b < |t.news| && k in t.news[b] && k !in pending
    ensures k in t.index && Tabled(Dropped(t, k, b), pending)
    ensures Dropped(t, k, b).news == t.news[b := t.news[b] - {k}]
  {
    hide Buckets, Listings;
    InBucket(t, pending, k, b);
    var u := Dropped(t, k, b);
    assert NewKeys(u.index) == if t.index[k].refs == 1 then NewKeys(t.index) - {k} else NewKeys(t.index);
    assert TriedKeys(u.index) == TriedKeys(t.index);
    forall x | true
      ensures Placed(u, x)
    {
      assert Placed(t, x);
      BucketsUpdate(t.news, b, t.news[b] - {k}, x);
    }
  }

  // ---- expiring addresses from a new bucket

  /** Some addresses of a bucket dropped from it. */
  ghost function DroppedAll(t: Tables, b: nat, victims: set<Key>): Tables
    requires b < |t.news|
  {
    var forgotten := set k | k in victims && k in t.index && t.index[k].refs == 1;
    Tables(
      map k | k in t.index && k !in forgotten ::
        if k in victims then t.index[k].(refs := t.index[k].refs - 1) else t.index[k],
      t.news[b := t.news[b] - victims],
      t.tried,
      t.nNew - |forgotten|,
      t.nTried)
  }

  lemma DroppedNone(t: Tables, b: nat)
    requires b < |t.news|
    ensures DroppedAll(t, b, {}) == t
  {
    assert t.news[b] - {} == t.news[b];
    assert t.news[b := t.news[b]] == t.news;
  }

  lemma DroppedMore(t: Tables, b: nat, victims: set<Key>, k: Key)
    requires b < |t.news| && k in t.index && k !in victims
    ensures k in DroppedAll(t, b, victims).index && DroppedAll(t, b, victims).index[k] == t.index[k]
    ensures Dropped(DroppedAll(t, b, victims), k, b) == DroppedAll(t, b, victims + {k})
  {
    var u := DroppedAll(t, b, victims);
    var v := Dropped(u, k, b);
    var w := DroppedAll(t, b, victims + {k});
    var gone := set x | x in victims && x in t.index && t.index[x].refs == 1;
    var more := set x | x in victims + {k} && x in t.index && t.index[x].refs == 1;
    assert more == if t.index[k].refs == 1 then gone + {k} else gone;
    assert t.news[b] - victims - {k} == t.news[b] - (victims + {k});
    assert v.news == w.news;
    assert v.index == w.index;
  }

  ghost function BadKeys(t: Tables, keys: set<Key>, now: int): set<Key> {
    set k | k in keys && k in t.index && IsBad(t.index[k], now)
  }

  /** No known address among the keys that is not bad is older. */
  ghost predicate IsOldest(t: Tables, keys: set<Key>, now: int, o: Key) {
    && o in keys && o in t.index && !IsBad(t.index[o], now)
    && forall k :: k in keys && k in t.index && !IsBad(t.index[k], now) ==>
         t.index[o].na.timestamp <= t.index[k].na.timestamp
  }

  /** Who is expired: the bad addresses, and the oldest of the others, if any. */
  ghost predicate Victims(t: Tables, keys: set<Key>, now: int, victims: set<Key>) {
    var bad := BadKeys(t, keys, now);
    || (bad == keys && victims == bad)
    || (exists o :: IsOldest(t, keys, now, o) && victims == bad + {o})
  }

  lemma VictimsFacts(t: Tables, keys: set<Key>, now: int, victims: set<Key>)
    requires Victims(t, keys, now, victims)
    ensures victims <= keys && (keys != {} ==> victims != {} && |keys - victims| < |keys|)
  {
    if keys != {} { assert |keys - victims| + |keys * victims| == |keys| && keys * victims == victims; }
  }

  /** Some addresses of a bucket looked at: the bad ones dropped, the oldest kept. */
  ghost predicate Expiring(t: Tables, seen: set<Key>, now: int, oldest: Option<Key>, victims: set<Key>) {
    && victims == BadKeys(t, seen, now)
    && (oldest.None? ==> victims == seen)
    && (oldest.Some? ==> IsOldest(t, seen, now, oldest.value))
  }

  lemma ExpiringNone(t: Tables, now: int)
    ensures Expiring(t, {}, now, None, {})
  {
  }

  lemma ExpiringMore(t: Tables, seen: set<Key>, now: int, oldest: Option<Key>, victims: set<Key>, k: Key)
    requires Expiring(t, seen, now, oldest, victims) && k in t.index && k !in seen
    ensures IsBad(t.index[k], now) ==> Expiring(t, seen + {k}, now, oldest, victims + {k})
    ensures oldest.Some? ==> oldest.value in t.index
    ensures !IsBad(t.index[k], now) ==>
      Expiring(t, seen + {k}, now,
        if oldest.None? || t.index[k].na.timestamp <= t.index[oldest.value].na.timestamp then Some(k) else oldest,
          victims)
  {
    hide IsBad;
  }

  lemma ExpiringFacts(t: Tables, keys: set<Key>, now: int, oldest: Option<Key>, victims: set<Key>)
    requires Expiring(t, keys, now, oldest, victims)
    ensures victims <= keys
    ensures oldest.None? ==> Victims(t, keys, now, victims)
    ensures oldest.Some? ==>
      && Victims(t, keys, now, victims + {oldest.value})
      && oldest.value in keys && oldest.value !in victims && oldest.value in t.index
  {
    hide IsBad;
  }

  lemma DroppedAllNews(t: Tables, b: nat, victims: set<Key>)
    requires b < |t.news|
    ensures var u := DroppedAll(t, b, victims);
      u.news == t.news[b := t.news[b] - victims] && |u.news| == |t.news|
  {
  }

  // ---- moving an address to the tried lists

  function Without(news: seq<set<Key>>, k: Key): (r: seq<set<Key>>)
    ensures |r| == |news| && forall b :: 0 <= b < |news| ==> r[b] == news[b] - {k}
  {
    seq(|news|, b requires 0 <= b < |news| => news[b] - {k})
  }

  lemma {:induction false} WithoutBuckets(news: seq<set<Key>>, k: Key, x: Key)
    ensures Buckets(Without(news, k), x) == if x == k then 0 else Buckets(news, x)
    decreases |news|
  {
    if news != [] {
      var last := |news| - 1;
      WithoutBuckets(news[..last], k, x);
      assert Without(news, k)[..last] == Without(news[..last], k);
    }
  }

  /** The address leaves the new buckets for a tried list with room. */
  ghost function Promoted(t: Tables, k: Key, ka: KnownAddress, tb: nat): Tables
    requires tb < |t.tried|
  {
    Tables(t.index[k := ka.(refs := 0, tried := true)], Without(t.news, k),
      t.tried[tb := t.tried[tb] + [k]], t.nNew - 1, t.nTried + 1)
  }

  lemma PromotedTabled(t: Tables, k: Key, ka: KnownAddress, tb: nat)
    requires Tabled(t, {}) && k in t.index && !t.index[k].tried && ka.na.key == k
    requires tb < |t.tried| && |t.tried[tb]| < TRIED_BUCKET_SIZE
    ensures Tabled(Promoted(t, k, ka, tb), {})
  {
    hide Buckets, Listings;
    var u := Promoted(t, k, ka, tb);
    assert NewKeys(u.index) == NewKeys(t.index) - {k};
    assert TriedKeys(u.index) == TriedKeys(t.index) + {k};
    forall x | true
      ensures Placed(u, x)
    {
      assert Placed(t, x);
      WithoutBuckets(t.news, k, x);
      ListingsUpdate(t.tried, tb, t.tried[tb] + [k], x);
    }
    WithoutSmaller(t.news, k);
  }

  lemma WithoutSmaller(news: seq<set<Key>>, k: Key)
    ensures forall b :: 0 <= b < |news| ==> |Without(news, k)[b]| <= |news[b]|
    ensures forall b :: 0 <= b < |news| && k in news[b] ==> |Without(news, k)[b]| == |news[b]| - 1
  {
  }

  /** The address takes the place of another on a full list; the other one goes back
      to a new bucket. */
  ghost function Swapped(t: Tables, k: Key, ka: KnownAddress, tb: nat, p: nat, nb: nat): Tables
    requires tb < |t.tried| && p < |t.tried[tb]| && nb < |t.news| && t.tried[tb][p] in t.index
  {
    var rm := t.tried[tb][p];
    var without := Without(t.news, k);
    Tables(t.index[k := ka.(refs := 0, tried := true)]
      [rm := t.index[rm].(refs := t.index[rm].refs + 1, tried := false)],
      without[nb := without[nb] + {rm}], t.tried[tb := t.tried[tb][p := k]], t.nNew, t.nTried)
  }

  /** A listed address is known and tried. */
  lemma OnList(t: Tables, pending: set<Key>, tb: nat, p: nat)
    requires Tabled(t, pending) && tb < |t.tried| && p < |t.tried[tb]|
    ensures var rm := t.tried[tb][p]; rm in t.index && t.index[rm].tried && t.index[rm].na.key == rm
  {
    var rm := t.tried[tb][p];
    assert Placed(t, rm);
    ListingsUpdate(t.tried, tb, t.tried[tb], rm);
    assert rm in multiset(t.tried[tb]);
  }

  lemma SwappedTabled(t: Tables, k: Key, ka: KnownAddress, tb: nat, p: nat, nb: nat)
    requires Tabled(t, {}) && k in t.index && !t.index[k].tried && ka.na.key == k
    requires tb < |t.tried| && p < |t.tried[tb]| && nb < |t.news| && |Without(t.news, k)[nb]| <= NEW_BUCKET_SIZE
    ensures t.tried[tb][p] in t.index && Tabled(Swapped(t, k, ka, tb, p, nb), {})
  {
    hide *;
    OnList(t, {}, tb, p);
    TabledFacts(t, {}, k);
    var rm := t.tried[tb][p];
    var u := Swapped(t, k, ka, tb, p, nb);
    SwappedIs(t, k, ka, tb, p, nb);
    var taken := ka.(refs := 0, tried := true);
    KeySets(t.index, k, taken);
    KeySets(t.index[k := taken], rm, u.index[rm]);
    KeySets(t.index, rm, taken);
    forall x | true
      ensures Placed(u, x)
    {
      SwappedPlaced(t, k, ka, tb, p, nb, x);
    }
    TabledFacts(t, {}, rm);
    RefsCounted(t, rm);
    forall x | x in u.index && !u.index[x].tried && x !in {}
      ensures u.index[x].refs >= 1
    {
      TabledFacts(t, {}, x);
    }
    WithoutSmaller(t.news, k);
    TabledIs(u, {});
  }

  lemma SwappedIs(t: Tables, k: Key, ka: KnownAddress, tb: nat, p: nat, nb: nat)
    requires tb < |t.tried| && p < |t.tried[tb]| && nb < |t.news| && t.tried[tb][p] in t.index
    ensures
      var rm := t.tried[tb][p];
      var without := Without(t.news, k);
      Swapped(t, k, ka, tb, p, nb) ==
        Tables(t.index[k := ka.(refs := 0, tried := true)]
          [rm := t.index[rm].(refs := t.index[rm].refs + 1, tried := false)],
          without[nb := without[nb] + {rm}], t.tried[tb := t.tried[tb][p := k]], t.nNew, t.nTried)
  {
  }

  lemma RefsCounted(t: Tables, k: Key)
    requires Placed(t, k) && k in t.index
    ensures t.index[k].refs >= 0
  {
  }

  lemma SwappedPlaced(t: Tables, k: Key, ka: KnownAddress, tb: nat, p: nat, nb: nat, x: Key)
    requires Tabled(t, {}) && k in t.index && !t.index[k].tried && ka.na.key == k
    requires tb < |t.tried| && p < |t.tried[tb]| && nb < |t.news| && t.tried[tb][p] in t.index
    requires t.index[t.tried[tb][p]].tried
    ensures Placed(Swapped(t, k, ka, tb, p, nb), x)
  {
    hide Buckets, Listings, Tabled, NewKeys, TriedKeys;
    var rm := t.tried[tb][p];
    var without := Without(t.news, k);
    TabledFacts(t, {}, x);
    TabledFacts(t, {}, k);
    TabledFacts(t, {}, rm);
    BucketsNone(t.news, rm);
    WithoutBuckets(t.news, k, x);
    BucketsUpdate(without, nb, without[nb] + {rm}, x);
    ListingsUpdate(t.tried, tb, t.tried[tb][p := k], x);
    SwapCounts(t.tried[tb], p, k, x);
  }

  lemma SwapCounts(list: seq<Key>, p: nat, k: Key, x: Key)
    requires p < |list|
    ensures multiset(list[p := k])[x] ==
      multiset(list)[x] - (if x == list[p] then 1 else 0) + (if x == k then 1 else 0)
  {
  }

  /** pickTried: the first of the oldest on a list. */
  ghost predicate IsEldest(index: map<Key, KnownAddress>, list: seq<Key>, p: nat) {
    && p < |list| && (forall q :: 0 <= q < |list| ==> list[q] in index)
    && (forall q :: 0 <= q < |list| ==> index[list[p]].na.timestamp <= index[list[q]].na.timestamp)
    && (forall q :: 0 <= q < p ==> index[list[p]].na.timestamp < index[list[q]].na.timestamp)
  }

  /** The first new bucket that holds an address. */
  ghost predicate IsFirstBucket(news: seq<set<Key>>, k: Key, b: nat) {
    b < |news| && k in news[b] && forall c :: 0 <= c < b ==> k !in news[c]
  }

  // ---- the address manager

  /** A known address seen again: a later timestamp and new services are taken over. */
  function Touched(ka: KnownAddress, na: NetAddress): KnownAddress {
    if na.timestamp > ka.na.timestamp || !(na.services <= ka.na.services) then
      ka.(na := ka.na.(timestamp := na.timestamp, services := ka.na.services + na.services))
    else ka
  }

  /** What updateAddress does: an address known, and tried, at its limit or out of
      luck, is only refreshed. Otherwise it gets one more reference from the bucket
      for this source, where others are expired for it if the bucket is over-full. */
  ghost predicate Updates(t: Tables, na: NetAddress, src: NetAddress, routable: bool, b: nat, roll: nat, now: int,
    u: Tables, victims: set<Key>)
    requires Tabled(t, {}) && b < |t.news|
  {
    var k := na.key;
    TabledFacts(t, {}, k);
    if !routable then u == t
    else
      var known := k in t.index;
      var mid := if known then Refreshed(t, k, Touched(t.index[k], na)) else Inserted(t, na, src);
      if known && (t.index[k].tried || t.index[k].refs == NEW_BUCKETS_PER_ADDRESS
        || roll % (2 * t.index[k].refs) != 0) then
        u == mid
      else if k in t.news[b] then u == mid
      else if |t.news[b]| > NEW_BUCKET_SIZE then
        && Victims(mid, t.news[b], now, victims)
        && k in DroppedAll(mid, b, victims).index
        && u == Referenced(DroppedAll(mid, b, victims), k, b)
      else u == Referenced(mid, k, b)
  }

  function Succeeded(ka: KnownAddress, now: int): KnownAddress {
    ka.(lastsuccess := Some(now), lastattempt := Some(now), attempts := 0)
  }

  lemma EmptyTabled(news: seq<set<Key>>, tried: seq<seq<Key>>)
    requires |news| == NEW_BUCKET_COUNT && |tried| == TRIED_BUCKET_COUNT
    requires forall b :: 0 <= b < |news| ==> news[b] == {}
    requires forall b :: 0 <= b < |tried| ==> tried[b] == []
    ensures Tabled(Tables(map[], news, tried, 0, 0), {})
  {
    hide Buckets, Listings;
    var t := Tables(map[], news, tried, 0, 0);
    forall k | true
      ensures Placed(t, k)
    {
      BucketsNone(news, k);
      ListingsNone(tried, k);
    }
    assert NewKeys(t.index) == {} && TriedKeys(t.index) == {};
  }

  lemma {:induction false} ListingsNone(tried: seq<seq<Key>>, k: Key)
    requires forall b :: 0 <= b < |tried| ==> tried[b] == []
    ensures Listings(tried, k) == 0
    decreases |tried|
  {
    if tried != [] { ListingsNone(tried[..|tried| - 1], k); }
  }

  lemma PlacedFacts(t: Tables, k: Key)
    requires Placed(t, k) && k in t.index
    ensures t.index[k].na.key == k && t.index[k].refs >= 0
    ensures t.index[k].refs <= NEW_BUCKETS_PER_ADDRESS
  {
  }

  lemma MorePending(t: Tables, k: Key)
    requires Tabled(t, {}) || Tabled(t, {k})
    ensures Tabled(t, {k})
  {
    hide Placed, NewKeys, TriedKeys;
  }

  lemma OldestKept(t: Tables, b: nat, seen: set<Key>, now: int, oldest: Key, victims: set<Key>)
    requires b < |t.news| && Expiring(t, seen, now, Some(oldest), victims)
    ensures oldest in DroppedAll(t, b, victims).index && oldest in t.index
    ensures DroppedAll(t, b, victims).index[oldest] == t.index[oldest]
  {
    hide IsBad;
  }

  lemma NotEmpty(keys: set<Key>)
    ensures keys == {} || exists k :: k in keys
  {
    assert (forall k :: k !in keys) ==> keys == {};
  }

  lemma BucketsNext(news: seq<set<Key>>, i: nat, k: Key)
    requires i < |news|
    ensures Buckets(news[..i + 1], k) == Buckets(news[..i], k) + if k in news[i] then 1 else 0
  {
    assert news[..i + 1][..i] == news[..i];
  }

  /** A new address has exactly as many references as buckets, and at least one. */
  lemma NewRefs(t: Tables, k: Key)
    requires Tabled(t, {}) && k in t.index && !t.index[k].tried
    ensures t.index[k].refs == Buckets(t.news, k) >= 1
  {
    assert Placed(t, k);
  }

  lemma ListIndexed(t: Tables, tb: nat)
    requires Tabled(t, {}) && tb < |t.tried|
    ensures forall q :: 0 <= q < |t.tried[tb]| ==> t.tried[tb][q] in t.index && t.index[t.tried[tb][q]].tried
  {
    hide Tabled;
    forall q | 0 <= q < |t.tried[tb]|
      ensures t.tried[tb][q] in t.index && t.index[t.tried[tb][q]].tried
    {
      OnList(t, {}, tb, q);
    }
  }

  lemma EldestSame(index: map<Key, KnownAddress>, other: map<Key, KnownAddress>, list: seq<Key>, p: nat)
    requires IsEldest(other, list, p)
    requires forall q :: 0 <= q < |list| ==> list[q] in index && index[list[q]].na == other[list[q]].na
    ensures IsEldest(index, list, p)
  {
  }

  class Manager {
    const newBucketHash: (NetAddress, NetAddress) -> nat
    const triedBucketHash: NetAddress -> nat
    var addrIndex: map<Key, KnownAddress>
    var addrNew: seq<set<Key>>
    var addrTried: seq<seq<Key>>
    var nNew: int
    var nTried: int

    ghost function Contents(): Tables
      reads this
    {
      Tables(addrIndex, addrNew, addrTried, nNew, nTried)
    }

    ghost predicate Valid()
      reads this
    {
      Tabled(Contents(), {})
    }

    lemma ContentsIs()
      ensures Contents() == Tables(addrIndex, addrNew, addrTried, nNew, nTried)
    {
    }

    constructor (newBucketHash: (NetAddress, NetAddress) -> nat, triedBucketHash: NetAddress -> nat)
      ensures Valid() && addrIndex == map[]
    {
      this.newBucketHash, this.triedBucketHash := newBucketHash, triedBucketHash;
      addrIndex := map[];
      addrNew := seq(NEW_BUCKET_COUNT, _ => {});
      addrTried := seq(TRIED_BUCKET_COUNT, _ => []);
      nNew, nTried := 0, 0;
      EmptyTabled(seq(NEW_BUCKET_COUNT, _ => {}), seq(TRIED_BUCKET_COUNT, _ => []));
    }

    /** getNewBucket and getTriedBucket: a hash, reduced to the number of buckets. */
    function GetNewBucket(na: NetAddress, src: NetAddress): (b: nat)
      ensures b < NEW_BUCKET_COUNT
    {
      newBucketHash(na, src) % NEW_BUCKET_COUNT
    }

    function GetTriedBucket(na: NetAddress): (b: nat)
      ensures b < TRIED_BUCKET_COUNT
    {
      triedBucketHash(na) % TRIED_BUCKET_COUNT
    }

    /** One address taken out of a new bucket. */
    method DropOne(k: Key, bucket: nat, ghost pending: set<Key>)
      requires Tabled(Contents(), pending) && bucket < |addrNew| && k in addrNew[bucket] && k !in pending
      modifies this
      ensures k in old(addrIndex) && Contents() == Dropped(old(Contents()), k, bucket)
      ensures Tabled(Contents(), pending)
    {
      InBucket(Contents(), pending, k, bucket);
      DroppedTabled(Contents(), pending, k, bucket);
      addrNew := addrNew[bucket := addrNew[bucket] - {k}];
      var ka := addrIndex[k];
      ka := ka.(refs := ka.refs - 1);
      addrIndex := addrIndex[k := ka];
      if ka.refs == 0 {
        nNew := nNew - 1;
        addrIndex := addrIndex - {k};
      }
    }

    /** expireNew: the bad addresses of a bucket go, and the oldest of the others. */
    method ExpireNew(bucket: nat, now: int, ghost pending: set<Key>) returns (ghost victims: set<Key>)
      requires Tabled(Contents(), pending) && bucket < |addrNew| && addrNew[bucket] !! pending
      modifies this
      ensures Victims(old(Contents()), old(addrNew[bucket]), now, victims)
      ensures Contents() == DroppedAll(old(Contents()), bucket, victims) && Tabled(Contents(), pending)
    {
      hide *;
      ghost var t := Contents();
      ContentsIs();
      var keys := addrNew[bucket];
      var todo := keys;
      var oldest: Option<Key> := None;
      ghost var seen: set<Key> := {};
      victims := {};
      DroppedNone(t, bucket);
      ExpiringNone(t, now);
      while todo != {}
        invariant todo + seen == keys && todo !! seen
        invariant Expiring(t, seen, now, oldest, victims) && victims <= seen
        invariant Contents() == DroppedAll(t, bucket, victims) && Tabled(Contents(), pending)
        decreases |todo|
      {
        NotEmpty(todo);
        var k :| k in todo;
        ContentsIs();
        InBucket(t, pending, k, bucket);
        DroppedMore(t, bucket, victims, k);
        DroppedAllNews(t, bucket, victims);
        ExpiringMore(t, seen, now, oldest, victims, k);
        var v := addrIndex[k];
        if IsBad(v, now) {
          DropOne(k, bucket, pending);
          victims := victims + {k};
        } else if oldest.None? {
          oldest := Some(k);
        } else {
          OldestKept(t, bucket, seen, now, oldest.value, victims);
          if v.na.timestamp <= addrIndex[oldest.value].na.timestamp {
            oldest := Some(k);
          }
        }
        seen := seen + {k};
        todo := todo - {k};
      }
      assert seen == keys;
      ExpiringFacts(t, keys, now, oldest, victims);
      if oldest.Some? {
        DroppedMore(t, bucket, victims, oldest.value);
        DroppedAllNews(t, bucket, victims);
        ContentsIs();
        DropOne(oldest.value, bucket, pending);
        victims := victims + {oldest.value};
      }
    }

    /** updateAddress. The outcome of Int31n is a parameter, reduced by its argument;
        the argument is positive. */
    method UpdateAddress(netAddr: NetAddress, srcAddr: NetAddress, routable: bool, roll: nat, now: int)
      returns (ghost victims: set<Key>)
      requires Valid()
      modifies this
      ensures Valid()
      ensures old(|addrNew|) == NEW_BUCKET_COUNT
      ensures Updates(old(Contents()), netAddr, srcAddr, routable,
        GetNewBucket(netAddr, srcAddr), roll, now, Contents(), victims)
    {
      hide Tabled, Placed, Victims, DroppedAll, IsBad, NewKeys, TriedKeys;
      ghost var t := Contents();
      victims := {};
      TabledFacts(t, {}, netAddr.key);
      if !routable {
        return;
      }
      var addr := netAddr.key;
      if addr in addrIndex {
        var ka := addrIndex[addr];
        PlacedFacts(t, addr);
        RefreshedTabled(t, {}, addr, Touched(ka, netAddr));
        if netAddr.timestamp > ka.na.timestamp || ka.na.services * netAddr.services != netAddr.services {
          var naCopy := ka.na.(timestamp := netAddr.timestamp);
          naCopy := naCopy.(services := naCopy.services + netAddr.services);
          addrIndex := addrIndex[addr := ka.(na := naCopy)];
        }
        assert addrIndex == t.index[addr := Touched(ka, netAddr)];
        if ka.tried || ka.refs == NEW_BUCKETS_PER_ADDRESS || roll % (2 * ka.refs) != 0 {
          return;
        }
      } else {
        InsertedTabled(t, netAddr, srcAddr);
        addrIndex := addrIndex[addr := KnownAddress(netAddr, srcAddr, 0, None, None, false, 0)];
        nNew := nNew + 1;
      }
      ghost var mid := Contents();
      var bucket := GetNewBucket(netAddr, srcAddr);
      if addr in addrNew[bucket] {
        InBucket(t, {}, addr, bucket);
        return;
      }
      MorePending(mid, addr);
      victims := AddToBucket(addr, bucket, now);
    }

    /** The end of updateAddress: one more reference, in a bucket with room for it. */
    method AddToBucket(addr: Key, bucket: nat, now: int) returns (ghost victims: set<Key>)
      requires Tabled(Contents(), {addr}) && bucket < |addrNew| && addr !in addrNew[bucket]
      requires addr in addrIndex && !addrIndex[addr].tried && addrIndex[addr].refs < NEW_BUCKETS_PER_ADDRESS
      modifies this
      ensures Valid()
      ensures old(|addrNew[bucket]|) > NEW_BUCKET_SIZE ==>
        && Victims(old(Contents()), old(addrNew[bucket]), now, victims)
        && addr in DroppedAll(old(Contents()), bucket, victims).index
        && Contents() == Referenced(DroppedAll(old(Contents()), bucket, victims), addr, bucket)
      ensures old(|addrNew[bucket]|) <= NEW_BUCKET_SIZE ==> Contents() == Referenced(old(Contents()), addr, bucket)
    {
      hide Tabled, Placed, Victims, IsBad, NewKeys, TriedKeys, DroppedAll;
      victims := {};
      ghost var t := Contents();
      TabledFacts(t, {addr}, addr);
      if |addrNew[bucket]| > NEW_BUCKET_SIZE {
        victims := ExpireNew(bucket, now, {addr});
        VictimsFacts(t, t.news[bucket], now, victims);
        DroppedAllNews(t, bucket, victims);
        DroppedMore(t, bucket, victims, addr);
      }
      ReferencedTabled(Contents(), addr, bucket);
      addrIndex := addrIndex[addr := addrIndex[addr].(refs := addrIndex[addr].refs + 1)];
      addrNew := addrNew[bucket := addrNew[bucket] + {addr}];
    }

    /** pickTried: the one to evict from a list. */
    method PickTried(bucket: nat) returns (p: nat)
      requires bucket < |addrTried| && |addrTried[bucket]| > 0
      requires forall q :: 0 <= q < |addrTried[bucket]| ==> addrTried[bucket][q] in addrIndex
      ensures IsEldest(addrIndex, addrTried[bucket], p)
    {
      var list := addrTried[bucket];
      p := 0;
      for i := 1 to |list|
        invariant 0 <= p < i
        invariant forall q :: 0 <= q < i ==> addrIndex[list[p]].na.timestamp <= addrIndex[list[q]].na.timestamp
        invariant forall q :: 0 <= q < p ==> addrIndex[list[p]].na.timestamp < addrIndex[list[q]].na.timestamp
      {
        if addrIndex[list[p]].na.timestamp > addrIndex[list[i]].na.timestamp {
          p := i;
        }
      }
    }

    /** The first loop of Good: the address leaves every new bucket, one reference at
        a time, and the first of the buckets is recorded. */
    method RemoveFromNew(k: Key) returns (oldBucket: int)
      requires k in addrIndex
      modifies this`addrNew, this`addrIndex
      ensures addrNew == Without(old(addrNew), k)
      ensures addrIndex ==
        old(addrIndex)[k := old(addrIndex[k]).(refs := old(addrIndex[k]).refs - Buckets(old(addrNew), k))]
      ensures oldBucket == -1 <==> Buckets(old(addrNew), k) == 0
      ensures oldBucket != -1 ==> oldBucket >= 0 && IsFirstBucket(old(addrNew), k, oldBucket)
    {
      hide Buckets;
      ghost var news, index := addrNew, addrIndex;
      oldBucket := -1;
      assert news[..0] == [];
      BucketsNone([], k);
      for i := 0 to |addrNew|
        invariant |addrNew| == |news| && k in addrIndex
        invariant forall b :: 0 <= b < |news| ==> addrNew[b] == if b < i then news[b] - {k} else news[b]
        invariant addrIndex == index[k := index[k].(refs := index[k].refs - Buckets(news[..i], k))]
        invariant oldBucket == -1 <==> forall b :: 0 <= b < i ==> k !in news[b]
        invariant oldBucket != -1 ==> 0 <= oldBucket && IsFirstBucket(news, k, oldBucket)
      {
        BucketsNext(news, i, k);
        if k in addrNew[i] {
          addrNew := addrNew[i := addrNew[i] - {k}];
          addrIndex := addrIndex[k := addrIndex[k].(refs := addrIndex[k].refs - 1)];
          if oldBucket == -1 {
            oldBucket := i;
          }
        } else {
          assert news[i] - {k} == news[i];
        }
      }
      assert news[..|news|] == news;
      BucketsNone(news, k);
    }

    /** The end of Good, for a full list: the eldest address goes back to the new
        buckets, to the one just freed if its own is full. */
    method Evict(k: Key, bucket: nat, oldBucket: nat, ghost t: Tables, ghost ka: KnownAddress) returns (p: nat)
      requires Tabled(t, {}) && k in t.index && !t.index[k].tried && ka.na == t.index[k].na && !ka.tried
      requires ka.na.key == k
      requires bucket < |t.tried| && |t.tried[bucket]| == TRIED_BUCKET_SIZE && IsFirstBucket(t.news, k, oldBucket)
      requires Contents() == Tables(t.index[k := ka.(refs := 0)], Without(t.news, k), t.tried, t.nNew - 1, t.nTried)
      modifies this
      ensures Valid() && IsEldest(t.index, t.tried[bucket], p)
      ensures Contents() == Swapped(t, k, ka, bucket, p, ReturnBucket(t, k, t.tried[bucket][p], oldBucket))
    {
      hide Tabled, Placed, NewKeys, TriedKeys, Buckets, Listings;
      TabledFacts(t, {}, k);
      ListIndexed(t, bucket);
      p := PickTried(bucket);
      EldestSame(t.index, addrIndex, t.tried[bucket], p);
      var rm := addrTried[bucket][p];
      OnList(t, {}, bucket, p);
      var rmka := addrIndex[rm];
      var newBucket := GetNewBucket(rmka.na, rmka.srcAddr);
      if |addrNew[newBucket]| >= NEW_BUCKET_SIZE {
        newBucket := oldBucket;
      }
      WithoutSmaller(t.news, k);
      SwappedTabled(t, k, ka, bucket, p, newBucket);
      addrIndex := addrIndex[k := addrIndex[k].(tried := true)];
      addrTried := addrTried[bucket := addrTried[bucket][p := k]];
      addrIndex := addrIndex[rm := rmka.(tried := false, refs := rmka.refs + 1)];
      nNew := nNew + 1;
      addrNew := addrNew[newBucket := addrNew[newBucket] + {rm}];
      assert Contents() == Swapped(t, k, ka, bucket, p, newBucket);
    }

    /** Where an evicted address goes. */
    ghost function ReturnBucket(t: Tables, k: Key, rm: Key, first: nat): nat
      requires rm in t.index && |t.news| == NEW_BUCKET_COUNT
    {
      var b := GetNewBucket(t.index[rm].na, t.index[rm].srcAddr);
      if |Without(t.news, k)[b]| >= NEW_BUCKET_SIZE then first else b
    }

    /** What Good does. */
    ghost predicate Marks(t: Tables, k: Key, now: int, u: Tables, p: nat, first: nat)
      requires Tabled(t, {})
    {
      if k !in t.index then u == t
      else
        var ka := Succeeded(t.index[k], now);
        var tb := GetTriedBucket(ka.na);
        if ka.tried then u == Refreshed(t, k, ka)
        else if |t.tried[tb]| < TRIED_BUCKET_SIZE then u == Promoted(t, k, ka, tb)
        else
          && IsEldest(t.index, t.tried[tb], p) && IsFirstBucket(t.news, k, first)
          && u == Swapped(t, k, ka, tb, p, ReturnBucket(t, k, t.tried[tb][p], first))
    }

    /** Good. A new address moves to the tried lists, if need be in place of the
        eldest on its list. That it was in no bucket never happens. */
    method Good(addr: NetAddress, now: int) returns (ghost p: nat, ghost first: nat)
      requires Valid()
      modifies this
      ensures Valid() && addrIndex.Keys == old(addrIndex.Keys)
      ensures Marks(old(Contents()), addr.key, now, Contents(), p, first)
    {
      hide Tabled, Placed, NewKeys, TriedKeys, Buckets, Listings;
      ghost var t := Contents();
      p, first := 0, 0;
      var k := addr.key;
      TabledFacts(t, {}, k);
      if k !in addrIndex {
        return;
      }
      PlacedFacts(t, k);
      ghost var ka := Succeeded(addrIndex[k], now);
      addrIndex := addrIndex[k := addrIndex[k].(lastsuccess := Some(now), lastattempt := Some(now), attempts := 0)];
      RefreshedTabled(t, {}, k, ka);
      if addrIndex[k].tried {
        return;
      }
      NewRefs(t, k);
      var oldBucket := RemoveFromNew(k);
      nNew := nNew - 1;
      if oldBucket != -1 {
        first := oldBucket;
        var bucket := GetTriedBucket(addrIndex[k].na);
        if |addrTried[bucket]| < TRIED_BUCKET_SIZE {
          addrIndex := addrIndex[k := addrIndex[k].(tried := true)];
          addrTried := addrTried[bucket := addrTried[bucket] + [k]];
          nTried := nTried + 1;
          PromotedTabled(t, k, ka, bucket);
          assert Contents() == Promoted(t, k, ka, bucket);
        } else {
          p := Evict(k, bucket, oldBucket, t, ka);
        }
      }
    }

    /** Attempt, Connected and SetServices: entries of known addresses change, and
        nothing about where they are. */
    method Attempt(addr: NetAddress, now: int)
      requires Valid()
      modifies this`addrIndex
      ensures Valid()
      ensures addrIndex == if addr.key !in old(addrIndex) then old(addrIndex) else
        old(addrIndex)[addr.key := old(addrIndex)[addr.key].(
          attempts := old(addrIndex)[addr.key].attempts + 1, lastattempt := Some(now))]
    {
      if addr.key in addrIndex {
        var ka := addrIndex[addr.key];
        Refresh(addr.key, ka.(attempts := ka.attempts + 1, lastattempt := Some(now)));
      }
    }

    method Connected(addr: NetAddress, now: int)
      requires Valid()
      modifies this`addrIndex
      ensures Valid()
      ensures addrIndex ==
        if addr.key !in old(addrIndex) || now <= old(addrIndex)[addr.key].na.timestamp + 20 * MINUTE then old(addrIndex)
        else old(addrIndex)[addr.key := old(addrIndex)[addr.key].(na := old(addrIndex)[addr.key].na.(timestamp := now))]
    {
      if addr.key in addrIndex {
        var ka := addrIndex[addr.key];
        if now > ka.na.timestamp + 20 * MINUTE {
          PlacedAt(addr.key);
          Refresh(addr.key, ka.(na := ka.na.(timestamp := now)));
        }
      }
    }

    method SetServices(addr: NetAddress, services: set<nat>)
      requires Valid()
      modifies this`addrIndex
      ensures Valid()
      ensures addrIndex == if addr.key !in old(addrIndex) then old(addrIndex) else
        old(addrIndex)[addr.key := old(addrIndex)[addr.key].(na := old(addrIndex)[addr.key].na.(services := services))]
    {
      if addr.key in addrIndex {
        var ka := addrIndex[addr.key];
        if ka.na.services != services {
          PlacedAt(addr.key);
          Refresh(addr.key, ka.(na := ka.na.(services := services)));
        }
      }
    }

    method Refresh(k: Key, ka: KnownAddress)
      requires Valid() && k in addrIndex
      requires ka.na.key == addrIndex[k].na.key && ka.tried == addrIndex[k].tried && ka.refs == addrIndex[k].refs
      modifies this`addrIndex
      ensures Valid() && addrIndex == old(addrIndex)[k := ka]
    {
      hide Tabled;
      PlacedAt(k);
      RefreshedTabled(Contents(), {}, k, ka);
      addrIndex := addrIndex[k := ka];
    }

    lemma PlacedAt(k: Key)
      requires Valid() && k in addrIndex
      ensures addrIndex[k].na.key == k
    {
      assert Placed(Contents(), k);
    }
  }
}
