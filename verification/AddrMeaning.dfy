/** What the operations of the address manager mean for a caller, with the numbers
    written out: who gains a reference and by which draw, who makes room for whom, and
    which addresses count as bad. */
module AddrMeaning {
  import opened Wire
  import opened AddrManager

  /** The sizes of the tables. */
  lemma Sizes(t: Tables, k: Key)
    requires Tabled(t, {})
    ensures |t.news| == 1024 && |t.tried| == 64
    ensures forall b :: 0 <= b < |t.news| ==> |t.news[b]| <= 65
    ensures forall b :: 0 <= b < |t.tried| ==> |t.tried[b]| <= 256
    ensures k in t.index && !t.index[k].tried ==> 1 <= t.index[k].refs <= 8
  {
    hide Tabled, Placed;
    TabledFacts(t, {}, k);
    TablesAgree(t, k);
  }

  // ---- updateAddress

  /** A known new address below its limit, seen from a source whose bucket does not hold
      it, gains exactly one reference if the draw, out of twice its references, is 0,
      and otherwise all buckets stay as they are. */
  lemma DrawDecides(t: Tables, na: NetAddress, src: NetAddress, b: nat, roll: nat, now: int, u: Tables,
      victims: set<Key>)
    requires Tabled(t, {}) && b < |t.news| && na.key in t.index && !t.index[na.key].tried
    requires t.index[na.key].refs < 8 && na.key !in t.news[b]
    requires Updates(t, na, src, true, b, roll, now, u, victims)
    ensures na.key in u.index && |u.news| == |t.news| && t.index[na.key].refs > 0
    ensures var refs, luck := t.index[na.key].refs, roll % (2 * t.index[na.key].refs) == 0;
      && (na.key in u.news[b] <==> luck)
      && u.index[na.key].refs == (if luck then refs + 1 else refs)
      && (!luck ==> u.news == t.news && u.index.Keys == t.index.Keys)
  {
    hide Tabled, Placed, Victims;
    TabledFacts(t, {}, na.key);
    SpareVictims(t, na, src, b, roll, now, u, victims);
  }

  /** An address that is no member of the bucket is not expired with it. */
  lemma SpareVictims(t: Tables, na: NetAddress, src: NetAddress, b: nat, roll: nat, now: int, u: Tables,
      victims: set<Key>)
    requires Tabled(t, {}) && b < |t.news| && na.key !in t.news[b]
    requires Updates(t, na, src, true, b, roll, now, u, victims)
    ensures forall mid: Tables :: Victims(mid, t.news[b], now, victims) ==> na.key !in victims && victims <= t.news[b]
  {
    hide Tabled, Updates, IsBad;
    forall mid: Tables | Victims(mid, t.news[b], now, victims)
      ensures na.key !in victims && victims <= t.news[b]
    {
      VictimsFacts(mid, t.news[b], now, victims);
    }
  }

  /** An unknown address becomes a new one with one reference, in the bucket for its
      source. */
  lemma UnknownInserted(t: Tables, na: NetAddress, src: NetAddress, b: nat, roll: nat, now: int, u: Tables,
      victims: set<Key>)
    requires Tabled(t, {}) && b < |t.news| && na.key !in t.index && na.key !in t.news[b]
    requires Updates(t, na, src, true, b, roll, now, u, victims)
    ensures na.key in u.index && u.index[na.key] == KnownAddress(na, src, 0, None, None, false, 1)
    ensures |u.news| == |t.news| && na.key in u.news[b]
  {
    hide Tabled, Placed, Victims;
    SpareVictims(t, na, src, b, roll, now, u, victims);
  }

  /** What an update never does: it moves nothing on the tried lists, touches no bucket but
      the one for the source, drops nothing from a bucket of at most 64, and leaves tried
      addresses, those with 8 references and those in the bucket already where they are. */
  lemma UpdateLeaves(t: Tables, na: NetAddress, src: NetAddress, routable: bool, b: nat, roll: nat, now: int, u: Tables,
      victims: set<Key>)
    requires Tabled(t, {}) && b < |t.news|
    requires Updates(t, na, src, routable, b, roll, now, u, victims)
    ensures !routable ==> u == t
    ensures u.tried == t.tried && |u.news| == |t.news|
    ensures forall c :: 0 <= c < |t.news| && c != b ==> u.news[c] == t.news[c]
    ensures |t.news[b]| <= 64 ==> t.news[b] <= u.news[b] <= t.news[b] + {na.key}
    ensures |t.news[b]| > 64 && u.news != t.news ==> |u.news[b]| <= |t.news[b]|
    ensures na.key in t.index && (t.index[na.key].tried || t.index[na.key].refs == 8 || na.key in t.news[b]) ==>
      u.news == t.news && u.index.Keys == t.index.Keys
  {
    hide Tabled, Placed, Victims;
    TabledFacts(t, {}, na.key);
    if na.key !in t.news[b] && routable && |t.news[b]| > 64 {
      SpareVictims(t, na, src, b, roll, now, u, victims);
      if u.news != t.news { BucketShrinks(t, na, src, b, roll, now, u, victims); }
    }
  }

  lemma BucketShrinks(t: Tables, na: NetAddress, src: NetAddress, b: nat, roll: nat, now: int, u: Tables,
      victims: set<Key>)
    requires Tabled(t, {}) && b < |t.news| && |t.news[b]| > 64 && na.key !in t.news[b]
    requires Updates(t, na, src, true, b, roll, now, u, victims) && u.news != t.news
    ensures |u.news| == |t.news| && |u.news[b]| <= |t.news[b]|
  {
    hide Tabled, Placed, Victims;
    TabledFacts(t, {}, na.key);
    var k := na.key;
    var mid := if k in t.index then Refreshed(t, k, Touched(t.index[k], na)) else Inserted(t, na, src);
    assert Victims(mid, t.news[b], now, victims);
    VictimsFacts(mid, t.news[b], now, victims);
    assert u.news[b] == t.news[b] - victims + {k};
    Grown(t.news[b] - victims, k);
  }

  /** Who makes room in a bucket of more than 64: every bad address, and of the others one
      that no remaining one is older than. */
  lemma WhoMakesRoom(t: Tables, na: NetAddress, src: NetAddress, b: nat, roll: nat, now: int, u: Tables,
      victims: set<Key>, x: Key, y: Key)
    requires Tabled(t, {}) && b < |t.news| && |t.news[b]| > 64 && na.key !in t.news[b]
    requires Updates(t, na, src, true, b, roll, now, u, victims) && u.news != t.news
    requires x in t.news[b] && y in t.news[b]
    ensures |u.news| == |t.news| && x in t.index && y in t.index
    ensures IsBad(t.index[x], now) ==> x !in u.news[b]
    ensures x !in u.news[b] && y in u.news[b] ==>
      IsBad(t.index[x], now) || t.index[x].na.timestamp <= t.index[y].na.timestamp
  {
    hide Tabled, Placed, IsBad;
    TabledFacts(t, {}, na.key);
    InBucket(t, {}, x, b);
    InBucket(t, {}, y, b);
    var k := na.key;
    var mid := if k in t.index then Refreshed(t, k, Touched(t.index[k], na)) else Inserted(t, na, src);
    assert Victims(mid, t.news[b], now, victims);
    assert u.news[b] == t.news[b] - victims + {k};
    assert mid.index[x] == t.index[x] && mid.index[y] == t.index[y];
  }

  lemma Grown(s: set<Key>, k: Key)
    ensures |s + {k}| <= |s| + 1
  {
    if k in s { assert s + {k} == s; }
  }

  /** A known address seen again: it has all services it was ever seen with. Its timestamp
      is never lowered, except by a sighting with a service not seen before. */
  lemma SeenAgain(ka: KnownAddress, na: NetAddress)
    ensures var again := Touched(ka, na);
      && again.na.services == ka.na.services + na.services
      && (again.na.timestamp < ka.na.timestamp <==>
            na.timestamp < ka.na.timestamp && exists s :: s in na.services && s !in ka.na.services)
      && (again.na.timestamp > ka.na.timestamp <==> na.timestamp > ka.na.timestamp)
      && (again.na.timestamp == ka.na.timestamp || again.na.timestamp == na.timestamp)
      && again == ka.(na := again.na) && again.na.key == ka.na.key
  {
    if na.services <= ka.na.services { assert ka.na.services + na.services == ka.na.services; }
  }

  // ---- Good

  /** A new address that proves good is tried from then on, and in no bucket. With fewer
      than 256 on its list it is put at the end, and no other address moves. */
  lemma GoodWithRoom(m: Manager, t: Tables, k: Key, now: int, u: Tables, p: nat, first: nat)
    requires Tabled(t, {}) && m.Marks(t, k, now, u, p, first) && k in t.index && !t.index[k].tried
    ensures |t.tried| == 64 && |t.news| == 1024
    ensures var tb := m.GetTriedBucket(t.index[k].na);
      |t.tried[tb]| < 256 ==>
        && u.tried == t.tried[tb := t.tried[tb] + [k]]
        && u.index == t.index[k := t.index[k].(tried := true, refs := 0, attempts := 0, lastsuccess := Some(now),
                        lastattempt := Some(now))]
        && |u.news| == |t.news|
        && forall c :: 0 <= c < |t.news| ==> u.news[c] == t.news[c] - {k}
  {
    hide Tabled, Placed;
    TabledFacts(t, {}, k);
  }

  /** With 256 on its list it takes the place of one that is no younger than any other
      there. That one is new again, with a single reference: from its own bucket, if that
      has fewer than 64 left, or else from the first bucket the address was in. */
  lemma GoodEvicts(m: Manager, t: Tables, k: Key, now: int, u: Tables, p: nat, first: nat)
    requires Tabled(t, {}) && m.Marks(t, k, now, u, p, first) && k in t.index && !t.index[k].tried
    ensures |t.tried| == 64 && |t.news| == 1024
    ensures var tb := m.GetTriedBucket(t.index[k].na);
      |t.tried[tb]| >= 256 ==>
        && p < |t.tried[tb]| && t.tried[tb][p] in t.index && t.tried[tb][p] != k
        && var rm := t.tried[tb][p];
           var own := m.GetNewBucket(t.index[rm].na, t.index[rm].srcAddr);
           var back := if |t.news[own] - {k}| < 64 then own else first;
           && (forall q :: 0 <= q < |t.tried[tb]| ==>
                 t.tried[tb][q] in t.index && t.index[rm].na.timestamp <= t.index[t.tried[tb][q]].na.timestamp)
           && first < |t.news| && k in t.news[first] && (forall c :: 0 <= c < first ==> k !in t.news[c])
           && u.tried == t.tried[tb := t.tried[tb][p := k]]
           && k in u.index && u.index[k].tried && u.index[k].refs == 0 && u.index[k].lastsuccess == Some(now)
           && rm in u.index && !u.index[rm].tried && u.index[rm].refs == 1
           && |u.news| == |t.news|
           && (forall c :: 0 <= c < |t.news| ==> u.news[c] == t.news[c] - {k} + if c == back then {rm} else {})
           && (forall x :: x in t.index && x != k && x != rm ==> x in u.index && u.index[x] == t.index[x])
  {
    hide Tabled, Placed, Swapped, Promoted, Refreshed, Without;
    TabledFacts(t, {}, k);
    var tb := m.GetTriedBucket(t.index[k].na);
    if |t.tried[tb]| >= 256 {
      OnList(t, {}, tb, p);
      TriedUnreferenced(t, t.tried[tb][p]);
      WithoutAre(t.news, k);
      SwappedMeans(t, k, Succeeded(t.index[k], now), tb, p, m.ReturnBucket(t, k, t.tried[tb][p], first));
    }
  }

  lemma WithoutAre(news: seq<set<Key>>, k: Key)
    ensures |Without(news, k)| == |news| && forall c :: 0 <= c < |news| ==> Without(news, k)[c] == news[c] - {k}
  {
  }

  lemma SwappedMeans(t: Tables, k: Key, ka: KnownAddress, tb: nat, p: nat, nb: nat)
    requires tb < |t.tried| && p < |t.tried[tb]| && nb < |t.news| && t.tried[tb][p] in t.index && t.tried[tb][p] != k
    ensures var rm, u := t.tried[tb][p], Swapped(t, k, ka, tb, p, nb);
      && u.tried == t.tried[tb := t.tried[tb][p := k]]
      && k in u.index && u.index[k] == ka.(refs := 0, tried := true)
      && rm in u.index && u.index[rm] == t.index[rm].(refs := t.index[rm].refs + 1, tried := false)
      && |u.news| == |t.news|
      && (forall c :: 0 <= c < |t.news| ==> u.news[c] == t.news[c] - {k} + if c == nb then {rm} else {})
      && (forall x :: x in t.index && x != k && x != rm ==> x in u.index && u.index[x] == t.index[x])
  {
    hide Without;
    WithoutAre(t.news, k);
  }

  lemma TriedUnreferenced(t: Tables, k: Key)
    requires Tabled(t, {}) && k in t.index && t.index[k].tried
    ensures t.index[k].refs == 0
  {
    assert Placed(t, k);
  }

  // ---- isBad

  /** An address tried within the last minute is never bad. Any other one is, if its
      timestamp is off by more than ten minutes ahead or thirty days back; and if not,
      exactly when it has failed three times and never succeeded, or ten times and not
      succeeded for seven days. */
  lemma BadMeans(ka: KnownAddress, now: int)
    ensures ka.lastattempt.Some? && ka.lastattempt.value > now - 60 ==> !IsBad(ka, now)
    ensures ka.lastattempt.None? || ka.lastattempt.value <= now - 60 ==>
      && (ka.na.timestamp > now + 600 || ka.na.timestamp < now - 2592000 ==> IsBad(ka, now))
      && (now - 2592000 <= ka.na.timestamp <= now + 600 ==>
            (IsBad(ka, now) <==>
              if ka.lastsuccess.None? then ka.attempts >= 3
              else ka.attempts >= 10 && now - ka.lastsuccess.value >= 604800))
  {
  }
}
