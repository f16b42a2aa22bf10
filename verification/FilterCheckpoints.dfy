/** The cache of committed filter checkpoints (OnGetCFCheckpt in btcd/server.go):
    a Go slice that is grown in place, searched backwards for the fork, and
    overwritten from there. */
module FilterCheckpoints {
  import opened Wire
  import opened BlockTree
  import opened ChainSpec
  import opened ChainSafety
  import opened Locate

  const CF_CHECKPT_INTERVAL: nat := 1000

  type Header = int

  /** cfHeaderKV. */
  datatype Entry = Entry(blockHash: Hash, filterHeader: Header)

  const ZERO_ENTRY := Entry(ZERO_HASH, 0)

  /** The filter index: a header for each block it has one for. */
  type Lookups = Hash -> Option<Header>

  // ---- one request, as a function of the cache

  /** The longest match: the cache agrees with the request at the last of these. */
  ghost function Fork(entries: seq<Entry>, hashes: seq<Hash>, k: nat): (fork: nat)
    requires k <= |hashes|
    ensures fork <= k && fork <= |entries|
    ensures fork > 0 ==> entries[fork - 1].blockHash == hashes[fork - 1]
    ensures forall i :: fork <= i < k && i < |entries| ==> entries[i].blockHash != hashes[i]
  {
    if k == 0 then 0
    else if k <= |entries| && entries[k - 1].blockHash == hashes[k - 1] then k
    else Fork(entries, hashes, k - 1)
  }

  /** The first position from k on with no header in the index. */
  ghost function Reached(hashes: seq<Hash>, lookup: Lookups, k: nat): (reached: nat)
    requires k <= |hashes|
    ensures k <= reached <= |hashes|
    ensures forall i :: k <= i < reached ==> lookup(hashes[i]).Some?
    ensures reached < |hashes| ==> lookup(hashes[reached]).None?
    decreases |hashes| - k
  {
    if k == |hashes| || lookup(hashes[k]).None? then k else Reached(hashes, lookup, k + 1)
  }

  /** The reply: cached headers up to the fork, looked up after it. */
  ghost function Reply(entries: seq<Entry>, hashes: seq<Hash>, lookup: Lookups, fork: nat): seq<Header>
    requires fork <= |entries| && fork <= |hashes| && Reached(hashes, lookup, fork) == |hashes|
  {
    seq(|hashes|, i requires 0 <= i < |hashes| =>
      if i < fork then entries[i].filterHeader else lookup(hashes[i]).value)
  }

  /** Entries with those between two positions taken from the request. */
  ghost function Overwritten(entries: seq<Entry>, hashes: seq<Hash>, lookup: Lookups, from: nat, to: nat,
      len: nat): seq<Entry>
    requires from <= to <= |hashes| && forall i :: from <= i < to ==> lookup(hashes[i]).Some?
    requires len <= |entries| || (from <= |entries| && to >= len)
  {
    seq(len, i requires 0 <= i < len =>
      if from <= i < to then Entry(hashes[i], lookup(hashes[i]).value) else entries[i])
  }

  /** The cache after a request. A request no longer than the cache, or one the
      index fails for altogether, changes nothing. One that is answered replaces the
      cache from the fork on. One that is not answered still overwrites what it
      reached, if the cache had the capacity to be grown in place. */
  ghost function After(entries: seq<Entry>, spare: bool, hashes: seq<Hash>, lookup: Lookups,
      dbError: bool): seq<Entry>
  {
    var fork := Fork(entries, hashes, |hashes|);
    var reached := Reached(hashes, lookup, fork);
    if |hashes| <= |entries| || dbError then entries
    else if reached == |hashes| then Overwritten(entries, hashes, lookup, fork, |hashes|, |hashes|)
    else if spare then Overwritten(entries, hashes, lookup, fork, reached, |entries|)
    else entries
  }

  ghost predicate Answered(entries: seq<Entry>, hashes: seq<Hash>, lookup: Lookups, dbError: bool) {
    !dbError && Reached(hashes, lookup, Fork(entries, hashes, |hashes|)) == |hashes|
  }

  class Cache {
    var backing: array<Entry>
    var len: nat

    ghost predicate Valid()
      reads this
    {
      len <= backing.Length
    }

    ghost function Entries(): seq<Entry>
      reads this, backing
      requires Valid()
    {
      backing[..len]
    }

    constructor ()
      ensures Valid() && Entries() == []
    {
      backing, len := new Entry[0], 0;
    }

    /** append of zero entries: in place when the capacity allows, and into a larger
        array otherwise. The cache itself keeps its length and entries. */
    method Grow(size: nat, newCap: nat) returns (grown: array<Entry>)
      requires Valid() && size > len && newCap >= size
      modifies backing
      ensures grown.Length >= size && grown[..size] == old(Entries()) + seq(size - len, _ => ZERO_ENTRY)
      ensures Valid() && Entries() == old(Entries())
      ensures if size <= backing.Length then grown == backing else fresh(grown)
    {
      if size <= backing.Length {
        grown := backing;
        for i := len to size
          invariant forall k :: 0 <= k < len ==> backing[k] == old(backing[k])
          invariant forall k :: len <= k < i ==> backing[k] == ZERO_ENTRY
        {
          grown[i] := ZERO_ENTRY;
        }
      } else {
        grown := new Entry[newCap](_ => ZERO_ENTRY);
        for i := 0 to len
          invariant forall k :: 0 <= k < i ==> grown[k] == backing[k]
          invariant forall k :: i <= k < newCap ==> grown[k] == ZERO_ENTRY
          invariant backing[..] == old(backing[..])
        {
          grown[i] := backing[i];
        }
      }
    }

    /** OnGetCFCheckpt, from the interval hashes of the stop block on. The capacity
        the runtime gives a slice it has to reallocate is a parameter. */
    method OnGetCFCheckpt(hashes: seq<Hash>, lookup: Lookups, dbError: bool, newCap: nat)
      returns (reply: Option<seq<Header>>)
      requires Valid() && newCap >= |hashes| && ZERO_HASH !in hashes
      modifies this, backing
      ensures Valid() && Entries() == After(old(Entries()), |hashes| <= old(backing.Length), hashes, lookup, dbError)
      ensures reply.Some? <==> Answered(old(Entries()), hashes, lookup, dbError)
      ensures reply.Some? ==>
        reply.value == Reply(old(Entries()), hashes, lookup, Fork(old(Entries()), hashes, |hashes|))
    {
      hide Fork, Reached;
      ghost var entries := Entries();
      var cache := backing;
      var updateCache := |hashes| > len;
      if updateCache {
        cache := Grow(|hashes|, newCap);
      }
      var forkIdx := FindFork(cache, hashes, entries);
      reply := None;
      if !dbError {
        var headers, done := Collect(cache, hashes, lookup, forkIdx, updateCache);
        if done {
          if updateCache {
            backing, len := cache, |hashes|;
          }
          reply := Some(headers);
        }
      }
    }

    static method FindFork(cache: array<Entry>, hashes: seq<Hash>, ghost entries: seq<Entry>) returns (forkIdx: nat)
      requires |hashes| <= cache.Length && ZERO_HASH !in hashes
      requires forall i :: 0 <= i < |hashes| ==> cache[i] == if i < |entries| then entries[i] else ZERO_ENTRY
      ensures forkIdx == Fork(entries, hashes, |hashes|)
    {
      forkIdx := |hashes|;
      while forkIdx > 0 && cache[forkIdx - 1].blockHash != hashes[forkIdx - 1]
        invariant 0 <= forkIdx <= |hashes|
        invariant Fork(entries, hashes, |hashes|) == Fork(entries, hashes, forkIdx)
      {
        forkIdx := forkIdx - 1;
      }
    }

    /** The headers of the reply, cached up to the fork and looked up after it. Each
        one looked up goes straight into the cache, if the cache is to be updated. */
    static method Collect(cache: array<Entry>, hashes: seq<Hash>, lookup: Lookups, forkIdx: nat, updateCache: bool)
      returns (headers: seq<Header>, done: bool)
      requires forkIdx <= |hashes| <= cache.Length
      modifies cache
      ensures done <==> Reached(hashes, lookup, forkIdx) == |hashes|
      ensures done ==> |headers| == |hashes| && forall i :: 0 <= i < |hashes| ==>
        headers[i] == if i < forkIdx then old(cache[i].filterHeader) else lookup(hashes[i]).value
      ensures forall i :: 0 <= i < cache.Length ==>
        cache[i] == if updateCache && forkIdx <= i < Reached(hashes, lookup, forkIdx)
                    then Entry(hashes[i], lookup(hashes[i]).value) else old(cache[i])
    {
      headers, done := [], true;
      for i := 0 to forkIdx
        invariant |headers| == i && forall k :: 0 <= k < i ==> headers[k] == cache[k].filterHeader
      {
        headers := headers + [cache[i].filterHeader];
      }
      var i := forkIdx;
      while i < |hashes| && done
        invariant forkIdx <= i <= |hashes|
        invariant Reached(hashes, lookup, forkIdx) == Reached(hashes, lookup, i)
        invariant !done ==> i < |hashes| && lookup(hashes[i]).None?
        invariant |headers| == i && forall k :: 0 <= k < i ==>
          headers[k] == if k < forkIdx then old(cache[k].filterHeader) else lookup(hashes[k]).value
        invariant forall k :: 0 <= k < cache.Length ==>
          cache[k] ==
            if updateCache && forkIdx <= k < i then Entry(hashes[k], lookup(hashes[k]).value) else old(cache[k])
        decreases |hashes| - i, done
      {
        var header := lookup(hashes[i]);
        if header.None? {
          done := false;
        } else {
          headers := headers + [header.value];
          if updateCache {
            cache[i] := Entry(hashes[i], header.value);
          }
          i := i + 1;
        }
      }
    }
  }

  // ---- what the cache holds

  /** The i-th checkpoint of a block's chain. */
  ghost predicate IsCheckpoint(e: Entry, end: BlockNode, header: Hash -> Header, i: nat)
    requires Chained(end)
  {
    IsIntervalHash(e.blockHash, end, CF_CHECKPT_INTERVAL, i) && e.filterHeader == header(e.blockHash)
  }

  ghost predicate CacheOf(entries: seq<Entry>, end: BlockNode, header: Hash -> Header)
    requires Chained(end)
  {
    forall i :: 0 <= i < |entries| ==> IsCheckpoint(entries[i], end, header, i)
  }

  /** The first checkpoints of a single chain of the tree. */
  ghost predicate SingleChain(s: ChainState, entries: seq<Entry>, header: Hash -> Header) {
    exists end :: s.Has(end) && Chained(end) && CacheOf(entries, end, header)
  }

  /** The index has the right header for a block, or none. */
  ghost predicate Faithful(lookup: Lookups, header: Hash -> Header) {
    forall h :: lookup(h).Some? ==> lookup(h).value == header(h)
  }

  /** A request for the checkpoints of a block of the tree. */
  ghost predicate IsRequest(s: ChainState, stop: BlockNode, hashes: seq<Hash>) {
    s.Has(stop) && Chained(stop) && IsIntervalHashes(hashes, stop, CF_CHECKPT_INTERVAL)
  }

  /** Chains that agree on one checkpoint agree on all before it. */
  lemma AgreeBelow(s: ChainState, a: BlockNode, b: BlockNode, i: nat, j: nat, h: Hash, g: Hash)
    requires Tree(s) && s.Has(a) && s.Has(b) && Chained(a) && Chained(b) && j <= i
    requires IsIntervalHash(h, a, CF_CHECKPT_INTERVAL, i) && IsIntervalHash(h, b, CF_CHECKPT_INTERVAL, i)
    ensures IsIntervalHash(g, a, CF_CHECKPT_INTERVAL, j) <==> IsIntervalHash(g, b, CF_CHECKPT_INTERVAL, j)
  {
    hide Tree, Chained, At;
    var high, low := Multiple(i + 1, CF_CHECKPT_INTERVAL), Multiple(j + 1, CF_CHECKPT_INTERVAL);
    AncestorIndexed(s, a, high);
    AncestorIndexed(s, b, high);
    SameHash(s, At(a, high), At(b, high));
    AtAt(a, high, low);
    AtAt(b, high, low);
  }

  lemma AncestorIndexed(s: ChainState, n: BlockNode, height: nat)
    requires Tree(s) && s.Has(n) && Chained(n) && height <= n.height
    ensures s.Has(At(n, height))
  {
    hide *;
    PathIndexed(s, n);
    PathAt(n);
    assert Path(n)[height] in Path(n);
  }

  lemma IntervalHashAt(hashes: seq<Hash>, end: BlockNode, i: nat)
    requires Chained(end) && IsIntervalHashes(hashes, end, CF_CHECKPT_INTERVAL) && i < |hashes|
    ensures IsIntervalHash(hashes[i], end, CF_CHECKPT_INTERVAL, i)
  {
    hide IsIntervalHash;
  }

  lemma SameIntervalHash(end: BlockNode, i: nat, g: Hash, h: Hash)
    requires Chained(end) && IsIntervalHash(g, end, CF_CHECKPT_INTERVAL, i)
    requires IsIntervalHash(h, end, CF_CHECKPT_INTERVAL, i)
    ensures g == h
  {
  }

  lemma CheckpointAt(entries: seq<Entry>, end: BlockNode, header: Hash -> Header, i: nat)
    requires Chained(end) && CacheOf(entries, end, header) && i < |entries|
    ensures IsIntervalHash(entries[i].blockHash, end, CF_CHECKPT_INTERVAL, i)
    ensures entries[i].filterHeader == header(entries[i].blockHash)
  {
    hide IsIntervalHash;
  }

  /** Below the fork the cache holds exactly what was asked for. */
  lemma ForkAgrees(s: ChainState, entries: seq<Entry>, end: BlockNode, header: Hash -> Header,
    stop: BlockNode, hashes: seq<Hash>, fork: nat, i: nat)
    requires Tree(s) && s.Has(end) && Chained(end) && CacheOf(entries, end, header) && IsRequest(s, stop, hashes)
    requires i < fork <= |entries| && fork <= |hashes| && entries[fork - 1].blockHash == hashes[fork - 1]
    ensures entries[i].blockHash == hashes[i] && entries[i].filterHeader == header(hashes[i])
  {
    hide *;
    IsRequestFacts(s, stop, hashes);
    CheckpointAt(entries, end, header, fork - 1);
    CheckpointAt(entries, end, header, i);
    IntervalHashAt(hashes, stop, fork - 1);
    IntervalHashAt(hashes, stop, i);
    AgreeBelow(s, end, stop, fork - 1, i, hashes[fork - 1], entries[i].blockHash);
    SameIntervalHash(stop, i, entries[i].blockHash, hashes[i]);
  }

  lemma IsRequestFacts(s: ChainState, stop: BlockNode, hashes: seq<Hash>)
    requires IsRequest(s, stop, hashes)
    ensures s.Has(stop) && Chained(stop) && IsIntervalHashes(hashes, stop, CF_CHECKPT_INTERVAL)
  {
  }

  /** When a request that is not answered leaves a cache of two chains: it was grown
      in place, and some but not all of what it differs in was overwritten. */
  ghost predicate Mixes(entries: seq<Entry>, spare: bool, hashes: seq<Hash>, lookup: Lookups, dbError: bool) {
    var fork := Fork(entries, hashes, |hashes|);
    && |hashes| > |entries| && !dbError && spare
    && fork < Reached(hashes, lookup, fork) < |entries|
  }

  /** Every reply is, position by position, what looking up each interval hash of the
      stop block would give. */
  lemma ReplyAgrees(s: ChainState, entries: seq<Entry>, header: Hash -> Header, stop: BlockNode, hashes: seq<Hash>,
    lookup: Lookups, dbError: bool, i: nat)
    requires Tree(s) && SingleChain(s, entries, header) && IsRequest(s, stop, hashes) && Faithful(lookup, header)
    requires Answered(entries, hashes, lookup, dbError) && i < |hashes|
    ensures Reply(entries, hashes, lookup, Fork(entries, hashes, |hashes|))[i] == header(hashes[i])
  {
    hide Tree, Chained, CacheOf, IsRequest, Fork, Reached;
    var end :| s.Has(end) && Chained(end) && CacheOf(entries, end, header);
    var fork := Fork(entries, hashes, |hashes|);
    if i < fork { ForkAgrees(s, entries, end, header, stop, hashes, fork, i); }
  }

  /** After any request, answered or not, the cache holds checkpoints of a single
      chain exactly when the request did not mix two. */
  lemma SingleChainKept(s: ChainState, entries: seq<Entry>, header: Hash -> Header, stop: BlockNode, hashes: seq<Hash>,
    spare: bool, lookup: Lookups, dbError: bool)
    requires Tree(s) && SingleChain(s, entries, header) && IsRequest(s, stop, hashes) && Faithful(lookup, header)
    ensures SingleChain(s, After(entries, spare, hashes, lookup, dbError), header) <==>
      !Mixes(entries, spare, hashes, lookup, dbError)
  {
    hide Tree, Chained, CacheOf, IsRequest, Fork, Reached;
    var end :| s.Has(end) && Chained(end) && CacheOf(entries, end, header);
    var fork := Fork(entries, hashes, |hashes|);
    var reached := Reached(hashes, lookup, fork);
    var after := After(entries, spare, hashes, lookup, dbError);
    if |hashes| > |entries| && !dbError && fork < reached {
      if reached == |hashes| || (spare && reached >= |entries|) {
        Replaced(s, entries, end, header, stop, hashes, lookup, fork, reached, after);
      } else if spare {
        NotSingle(s, entries, end, header, stop, hashes, fork, reached, after);
      }
    }
    if after == entries { assert SingleChain(s, after, header); }
  }

  /** Everything from the fork on replaced: the checkpoints of the stop block. */
  lemma Replaced(s: ChainState, entries: seq<Entry>, end: BlockNode, header: Hash -> Header, stop: BlockNode,
      hashes: seq<Hash>,
    lookup: Lookups, fork: nat, reached: nat, after: seq<Entry>)
    requires Tree(s) && s.Has(end) && Chained(end) && CacheOf(entries, end, header) && IsRequest(s, stop, hashes)
    requires Faithful(lookup, header) && fork <= |entries| && fork <= reached && |after| <= reached <= |hashes|
    requires fork > 0 ==> entries[fork - 1].blockHash == hashes[fork - 1]
    requires forall i :: fork <= i < reached ==> lookup(hashes[i]).Some?
    requires forall i :: 0 <= i < |after| ==>
      after[i] == if i < fork then entries[i] else Entry(hashes[i], lookup(hashes[i]).value)
    ensures SingleChain(s, after, header)
  {
    hide Tree, Chained, CacheOf, IsRequest, Faithful, IsIntervalHash;
    IsRequestFacts(s, stop, hashes);
    forall i | 0 <= i < |after|
      ensures IsCheckpoint(after[i], stop, header, i)
    {
      IntervalHashAt(hashes, stop, i);
      if i < fork {
        ForkAgrees(s, entries, end, header, stop, hashes, fork, i);
      } else {
        FaithfulAt(lookup, header, hashes[i]);
      }
    }
    CacheOfIs(after, stop, header);
  }

  lemma FaithfulAt(lookup: Lookups, header: Hash -> Header, h: Hash)
    requires Faithful(lookup, header) && lookup(h).Some?
    ensures lookup(h).value == header(h)
  {
  }

  lemma CacheOfIs(entries: seq<Entry>, end: BlockNode, header: Hash -> Header)
    requires Chained(end) && forall i :: 0 <= i < |entries| ==> IsCheckpoint(entries[i], end, header, i)
    ensures CacheOf(entries, end, header)
  {
  }

  /** A new entry followed by an old one: no chain has both for checkpoints. */
  lemma NotSingle(s: ChainState, entries: seq<Entry>, end: BlockNode, header: Hash -> Header, stop: BlockNode,
      hashes: seq<Hash>,
    fork: nat, reached: nat, after: seq<Entry>)
    requires Tree(s) && s.Has(end) && Chained(end) && CacheOf(entries, end, header)
    requires fork < reached < |entries| && |after| == |entries| && |entries| < |hashes|
    requires entries[reached - 1].blockHash != hashes[reached - 1]
    requires after[reached - 1].blockHash == hashes[reached - 1] && after[reached] == entries[reached]
    ensures !SingleChain(s, after, header)
  {
    hide Tree, Chained, CacheOf, IsIntervalHash;
    forall other | s.Has(other) && Chained(other)
      ensures !CacheOf(after, other, header)
    {
      if CacheOf(after, other, header) {
        CheckpointAt(after, other, header, reached);
        CheckpointAt(after, other, header, reached - 1);
        CheckpointAt(entries, end, header, reached);
        CheckpointAt(entries, end, header, reached - 1);
        AgreeBelow(s, other, end, reached, reached - 1, after[reached].blockHash, hashes[reached - 1]);
        SameIntervalHash(end, reached - 1, hashes[reached - 1], entries[reached - 1].blockHash);
      }
    }
  }

  function TenTimes(h: Hash): Header {
    10 * h
  }

  function FoundAll(h: Hash): Option<Header> {
    Some(TenTimes(h))
  }

  function FoundOne(h: Hash): Option<Header> {
    if h == 2001 then Some(TenTimes(h)) else None
  }

  const CACHED: seq<Entry> := [Entry(2000, 20000), Entry(4000, 40000), Entry(6000, 60000)]
  const SHORTER: seq<Hash> := [2000, 4000, 6000]
  const LONGER: seq<Hash> := [2001, 4001, 6001, 8001]

  /** Two chains in one cache: the request for a second, longer chain stops after its
      first header, and the first chain is then served with that header. */
  lemma MixedCache()
    ensures Faithful(FoundAll, TenTimes) && After([], false, SHORTER, FoundAll, false) == CACHED
    ensures Faithful(FoundOne, TenTimes) && Mixes(CACHED, true, LONGER, FoundOne, false)
    ensures
      var after := After(CACHED, true, LONGER, FoundOne, false);
      && after == CACHED[0 := Entry(2001, 20010)]
      && Answered(after, SHORTER, FoundOne, false)
      && Reply(after, SHORTER, FoundOne, Fork(after, SHORTER, 3)) == [20010, 40000, 60000]
      && 20010 == TenTimes(LONGER[0]) != TenTimes(SHORTER[0])
  {
    MixedFill();
    MixedForks();
    var after := After(CACHED, true, LONGER, FoundOne, false);
    assert after == CACHED[0 := Entry(2001, 20010)];
    assert after[2].blockHash == SHORTER[2];
    assert Fork(after, SHORTER, 3) == 3;
    assert Reply(after, SHORTER, FoundOne, 3) == [20010, 40000, 60000];
  }

  lemma MixedFill()
    ensures After([], false, SHORTER, FoundAll, false) == CACHED
  {
    assert Fork([], SHORTER, 3) == 0;
    assert Reached(SHORTER, FoundAll, 0) == 3;
  }

  lemma MixedForks()
    ensures Fork(CACHED, LONGER, 4) == 0 && Reached(LONGER, FoundOne, 0) == 1
  {
    assert forall i :: 0 <= i < 3 ==> CACHED[i].blockHash != LONGER[i];
    assert FoundOne(LONGER[0]).Some? && FoundOne(LONGER[1]).None?;
  }

  // ---- runs of requests while the tree grows

  datatype Request = Request(stop: BlockNode, hashes: seq<Hash>, spare: bool, lookup: Lookups, dbError: bool)

  ghost predicate Grows(s: ChainState, t: ChainState) {
    forall h :: h in s.index ==> h in t.index && t.index[h] == s.index[h]
  }

  /** One request after another, from an empty cache; between requests the tree may
      grow and the best chain may change. No request mixes two chains, as none does
      whose lookups all succeed. */
  ghost predicate IsServing(states: seq<ChainState>, caches: seq<seq<Entry>>, requests: seq<Request>,
      header: Hash -> Header)
  {
    && |states| == |caches| == |requests| + 1
    && caches[0] == []
    && (forall i :: 0 <= i < |states| ==> Tree(states[i]))
    && (forall i :: 0 <= i < |requests| ==>
      Serves(states[i], caches[i], requests[i], caches[i + 1], states[i + 1], header))
  }

  ghost predicate Serves(s: ChainState, before: seq<Entry>, q: Request, after: seq<Entry>, t: ChainState,
      header: Hash -> Header)
  {
    && IsRequest(s, q.stop, q.hashes) && Faithful(q.lookup, header)
    && !Mixes(before, q.spare, q.hashes, q.lookup, q.dbError)
    && after == After(before, q.spare, q.hashes, q.lookup, q.dbError)
    && Grows(s, t)
  }

  /** Throughout every such run the cache holds checkpoints of a single chain, and
      every reply is a direct lookup of every interval header of the stop block. */
  lemma {:induction false} ServingAgrees(states: seq<ChainState>, caches: seq<seq<Entry>>, requests: seq<Request>,
    header: Hash -> Header, i: nat)
    requires IsServing(states, caches, requests, header) && i < |states|
    ensures SingleChain(states[i], caches[i], header)
    ensures i < |requests| && Answered(caches[i], requests[i].hashes, requests[i].lookup, requests[i].dbError) ==>
      var q := requests[i];
      forall k :: 0 <= k < |q.hashes| ==>
        Reply(caches[i], q.hashes, q.lookup, Fork(caches[i], q.hashes, |q.hashes|))[k] == header(q.hashes[k])
  {
    hide Tree, SingleChain, IsRequest, Faithful, Mixes, After, Fork, Reached, Grows;
    if i == 0 {
      EmptyCache(states[0], header);
    } else {
      ServingAgrees(states, caches, requests, header, i - 1);
      assert Serves(states[i - 1], caches[i - 1], requests[i - 1], caches[i], states[i], header);
      var q := requests[i - 1];
      SingleChainKept(states[i - 1], caches[i - 1], header, q.stop, q.hashes, q.spare, q.lookup, q.dbError);
      SingleChainGrows(states[i - 1], states[i], caches[i], header);
    }
    if i < |requests| && Answered(caches[i], requests[i].hashes, requests[i].lookup, requests[i].dbError) {
      var q := requests[i];
      assert Serves(states[i], caches[i], q, caches[i + 1], states[i + 1], header);
      forall k | 0 <= k < |q.hashes|
        ensures Reply(caches[i], q.hashes, q.lookup, Fork(caches[i], q.hashes, |q.hashes|))[k] == header(q.hashes[k])
      {
        ReplyAgrees(states[i], caches[i], header, q.stop, q.hashes, q.lookup, q.dbError, k);
      }
    }
  }

  lemma EmptyCache(s: ChainState, header: Hash -> Header)
    requires Tree(s)
    ensures SingleChain(s, [], header)
  {
    hide Tree, Chained;
    TreeFacts(s);
    assert CacheOf([], s.Tip(), header);
  }

  lemma SingleChainGrows(s: ChainState, t: ChainState, entries: seq<Entry>, header: Hash -> Header)
    requires SingleChain(s, entries, header) && Grows(s, t)
    ensures SingleChain(t, entries, header)
  {
    hide Chained, CacheOf;
    var end :| s.Has(end) && Chained(end) && CacheOf(entries, end, header);
    assert t.Has(end);
  }
}
