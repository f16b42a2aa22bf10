/** Runs of the adapter that show why its promises stop where they do, built out of
    coinbase blocks from a genesis block. */
module AdapterHistories {
  import opened Wire
  import opened BlockTree
  import opened ChainSpec
  import ChainSafety
  import opened CoinbaseBlocks
  import opened Adapter
  import opened AdapterRuns

  // ---- a block recovered, then one acknowledged

  /** A new coinbase block on top of the tip is connected. */
  lemma CoinbaseAccepted(s: ChainState, hash: Hash)
    requires ChainSafety.Sound(s) && Usable(s) && |s.best| > 0 && hash !in s.index
    ensures var p := Process(LENIENT, s, CoinbaseBlock(hash, s.Tip().Hash()), true);
      && p.err.None? && p.isMainChain && !p.isOrphan
      && p.state.index.Keys == s.index.Keys + {hash}
  {
    hide *;
    ChainSafety.SoundFacts(s);
    TreeFacts(s);
    ChainSafety.TipIndexed(s);
    ProcessIs(LENIENT, s, CoinbaseBlock(hash, s.Tip().Hash()), true);
    var t, n := ExtendTip(s, hash);
  }

  lemma Goes(r: Rules, vms: seq<Vm>, steps: seq<Step>, v: Vm, step: Step) returns (more: seq<Vm>, taken: seq<Step>)
    requires IsRun(r, vms, steps) && |vms| > 0 && v == vms[|vms| - 1] && Enabled(v, step)
    ensures Ready(v) && IsRun(r, more, taken) && more == vms + [Next(r, v, step)] && taken == steps + [step]
  {
    hide Enabled, Inv, Next, Started, Ready;
    RunInv(r, vms, steps, |vms| - 1);
    InvReady(v);
    more, taken := vms + [Next(r, v, step)], steps + [step];
    forall i | 0 <= i < |taken|
      ensures Takes(r, more[i], taken[i], more[i + 1])
    {
      if i < |steps| { assert Takes(r, vms[i], steps[i], vms[i + 1]); }
    }
  }

  /** The VM with a coinbase block on top of its tip, in memory only. */
  lemma ConnectCoinbase(v: Vm, hash: Hash)
    requires Inv(v) && v.up && !v.broken && v.progress.Idle? && Ready(v) && hash !in v.mem.index
    ensures var block := CoinbaseBlock(hash, v.lastAccepted);
      var u := Next(LENIENT, v, Connect(block, true));
      && u == v.(mem := u.mem, progress := InMemory(block))
      && u.mem.index.Keys == v.mem.index.Keys + {hash}
      && |u.mem.best| > 0 && u.mem.Tip().Hash() == hash
  {
    hide *;
    var block := CoinbaseBlock(hash, v.lastAccepted);
    AdmitsIs(v, block);
    OnTip(v, block);
    ReadyFacts(v);
    UsableFacts(v.mem);
    CoinbaseAccepted(v.mem, hash);
    ProcessOnTip(LENIENT, v.mem, block, true);
    ConnectedIs(LENIENT, v, block, true);
    EnabledConnect(v, block);
    ConnectStep(LENIENT, v, block, true);
    var t := Process(LENIENT, v.mem, block, true).state;
    ChainSafety.SoundFacts(t);
    TreeFacts(t);
    TipIs(t);
    assert Chain(t)[|Chain(t)| - 1] == hash;
  }

  lemma EnabledConnect(v: Vm, block: Block)
    requires v.up && v.progress.Idle?
    ensures Enabled(v, Connect(block, true))
  {
  }

  /** From idle: a block reaches the disk, and the process dies and restarts. */
  lemma Recovers(vms: seq<Vm>, steps: seq<Step>, v: Vm, hash: Hash) returns (more: seq<Vm>, taken: seq<Step>)
    requires IsRun(LENIENT, vms, steps) && |vms| > 0 && v == vms[|vms| - 1]
    requires v.up && !v.broken && v.progress.Idle? && hash !in v.mem.index && v.log != []
    requires v.log[|v.log| - 1].hash != hash
    ensures IsRun(LENIENT, more, taken) && |more| > 0 && more[0] == vms[0]
    ensures var u := more[|more| - 1];
      && u.up && !u.broken && u.progress.Idle?
      && u.log == v.log + [Recovered(hash)] && u.mem.index.Keys == v.mem.index.Keys + {hash}
  {
    hide *;
    RunInv(LENIENT, vms, steps, |vms| - 1);
    InvReady(v);
    ConnectCoinbase(v, hash);
    var block := CoinbaseBlock(hash, v.lastAccepted);
    EnabledConnect(v, block);
    more, taken := Goes(LENIENT, vms, steps, v, Connect(block, true));
    var a := more[|more| - 1];
    FlushStep(a);
    more, taken := Goes(LENIENT, more, taken, a, Flush);
    FlushNext(LENIENT, a);
    var b := more[|more| - 1];
    more, taken := Goes(LENIENT, more, taken, b, Crash);
    CrashNext(LENIENT, b);
    var c := more[|more| - 1];
    more, taken := Goes(LENIENT, more, taken, c, Restart);
    RestartNext(LENIENT, c, hash);
  }

  lemma FlushStep(v: Vm)
    ensures Enabled(v, Flush) <==> v.up
    ensures Enabled(v, Crash) <==> v.up
    ensures Enabled(v, Restart) <==> !v.up
    ensures Enabled(v, Persist(true)) <==> v.up && v.progress.InMemory?
    ensures Enabled(v, Acknowledge) <==> v.up && v.progress.OnDisk?
  {
  }

  lemma FlushNext(r: Rules, v: Vm)
    requires Enabled(v, Flush) && Ready(v) && !v.broken
    ensures var u := Next(r, v, Flush); u == v.(disk := v.mem) && Enabled(u, Crash)
  {
    hide Usable;
  }

  lemma CrashNext(r: Rules, v: Vm)
    requires Enabled(v, Crash) && Ready(v)
    ensures var u := Next(r, v, Crash); u == v.(up := false, progress := Idle) && Enabled(u, Restart)
  {
    hide Usable;
  }

  lemma RestartNext(r: Rules, v: Vm, hash: Hash)
    requires Enabled(v, Restart) && Ready(v) && |v.disk.best| > 0 && v.disk.Tip().Hash() == hash
    requires v.log != [] && v.log[|v.log| - 1].hash != hash
    ensures var u := Next(r, v, Restart);
      u == Vm(v.disk, v.disk, None, hash, map[], {}, false, Idle, true, v.log + [Recovered(hash)])
  {
    hide Tree, Replay;
  }

  /** From idle: a block is accepted, and its Accept returns. */
  lemma Acknowledges(vms: seq<Vm>, steps: seq<Step>, v: Vm, hash: Hash) returns (more: seq<Vm>, taken: seq<Step>)
    requires IsRun(LENIENT, vms, steps) && |vms| > 0 && v == vms[|vms| - 1]
    requires v.up && !v.broken && v.progress.Idle? && hash !in v.mem.index
    ensures IsRun(LENIENT, more, taken) && |more| > 0 && more[0] == vms[0]
    ensures more[|more| - 1].log == v.log + [Acked(hash)]
  {
    hide *;
    RunInv(LENIENT, vms, steps, |vms| - 1);
    InvReady(v);
    ConnectCoinbase(v, hash);
    var block := CoinbaseBlock(hash, v.lastAccepted);
    EnabledConnect(v, block);
    more, taken := Goes(LENIENT, vms, steps, v, Connect(block, true));
    var a := more[|more| - 1];
    FlushStep(a);
    more, taken := Goes(LENIENT, more, taken, a, Persist(true));
    PersistNext(LENIENT, a);
    var b := more[|more| - 1];
    FlushStep(b);
    more, taken := Goes(LENIENT, more, taken, b, Acknowledge);
    AcknowledgeStep(LENIENT, b);
  }

  lemma PersistNext(r: Rules, v: Vm)
    requires Enabled(v, Persist(true)) && Ready(v)
    ensures Next(r, v, Persist(true)) == v.(disk := v.mem, progress := OnDisk(v.progress.block))
  {
    hide Usable;
  }

  /** A run in which the acknowledged blocks are not a prefix: a block reaches the disk,
      the process dies before Accept returns, and after the restart the next block is
      acknowledged. */
  lemma RecoveredThenAcked() returns (vms: seq<Vm>, steps: seq<Step>)
    ensures IsRun(LENIENT, vms, steps) && |vms| > 0
    ensures |vms[0].log| <= |vms[|vms| - 1].log|
    ensures var later := vms[|vms| - 1].log[|vms[0].log|..];
      later == [Recovered(2), Acked(3)] && !(AckedOnly(later) <= HashesOf(later))
  {
    hide *;
    var v := StartGenesis();
    RunStarts(LENIENT, v);
    vms, steps := Recovers([v], [], v, 2);
    vms, steps := Acknowledges(vms, steps, vms[|vms| - 1], 3);
    assert vms[|vms| - 1].log == [Recovered(1), Recovered(2), Acked(3)];
    NotAckedFirst(2, 3);
  }

  lemma NotAckedFirst(a: Hash, b: Hash)
    requires a != b
    ensures var log := [Recovered(a), Acked(b)]; !(AckedOnly(log) <= HashesOf(log))
  {
    var log := [Recovered(a), Acked(b)];
    AckedPrefix(log);
    assert log[1].Acked? && !log[0].Acked?;
  }

  lemma StartGenesis() returns (v: Vm)
    ensures Started(v) && v.log == [Recovered(1)] && v.mem.index.Keys == {1} && v.up && !v.broken && v.progress.Idle?
  {
    var s := ChainSafety.Genesis(CoinbaseBlock(1, 0));
    ChainSafety.GenesisSound(CoinbaseBlock(1, 0));
    ChainSafety.SoundFacts(s);
    v := Vm(s, s, None, 1, map[], {}, false, Idle, true, [Recovered(1)]);
    assert Final(v) == Chain(s);
  }

  lemma RunStarts(r: Rules, v: Vm)
    requires Started(v)
    ensures IsRun(r, [v], [])
  {
  }

  // ---- a block whose Accept failed, and that is final all the same

  /** What a broken VM writes in the background, and what a restart makes of it. */
  lemma TornReturns(vms: seq<Vm>, steps: seq<Step>, v: Vm, hash: Hash) returns (more: seq<Vm>, taken: seq<Step>)
    requires IsRun(LENIENT, vms, steps) && |vms| > 0 && v == vms[|vms| - 1] && v.up && v.broken
    requires v.torn.Some? && |v.torn.value.best| > 0 && v.torn.value.Tip().Hash() == hash
    requires v.log != [] && v.log[|v.log| - 1].hash != hash
    ensures IsRun(LENIENT, more, taken) && taken == steps + [Flush, Crash, Restart] && vms <= more
    ensures |more| == |vms| + 3 && more[|more| - 1].log == v.log + [Recovered(hash)]
  {
    hide *;
    FlushStep(v);
    more, taken := Goes(LENIENT, vms, steps, v, Flush);
    BrokenFlush(LENIENT, v);
    var a := more[|more| - 1];
    FlushStep(a);
    more, taken := Goes(LENIENT, more, taken, a, Crash);
    CrashNext(LENIENT, a);
    var b := more[|more| - 1];
    more, taken := Goes(LENIENT, more, taken, b, Restart);
    RestartNext(LENIENT, b, hash);
    assert steps + [Flush] + [Crash] + [Restart] == steps + [Flush, Crash, Restart];
  }

  lemma BrokenFlush(r: Rules, v: Vm)
    requires Enabled(v, Flush) && Ready(v) && v.broken && v.torn.Some?
    ensures Next(r, v, Flush) == v.(disk := v.torn.value)
  {
    hide Usable;
  }

  /** Persist fails, so that Accept returns an error and the VM is broken; but the block was
      in memory, a write in the background may yet bring it to disk, and after the next
      restart it is final. */
  lemma UnpersistedYetFinal() returns (vms: seq<Vm>, steps: seq<Step>)
    ensures IsRun(LENIENT, vms, steps) && |vms| == 6
    ensures steps == [Connect(CoinbaseBlock(2, 1), true), Persist(false), Flush, Crash, Restart]
    ensures vms[2].broken && vms[2].log == vms[0].log && vms[5].log == vms[0].log + [Recovered(2)]
  {
    hide *;
    var v := StartGenesis();
    RunStarts(LENIENT, v);
    RunInv(LENIENT, [v], [], 0);
    InvReady(v);
    RunningFacts(v);
    ConnectCoinbase(v, 2);
    var block := CoinbaseBlock(2, 1);
    EnabledConnect(v, block);
    vms, steps := Goes(LENIENT, [v], [], v, Connect(block, true));
    var a := vms[1];
    PersistFails(LENIENT, a);
    vms, steps := Goes(LENIENT, vms, steps, a, Persist(false));
    vms, steps := TornReturns(vms, steps, vms[2], 2);
  }

  lemma PersistFails(r: Rules, v: Vm)
    ensures v.up && v.progress.InMemory? ==> Enabled(v, Persist(false))
    ensures Enabled(v, Persist(false)) && Ready(v) ==>
      Next(r, v, Persist(false)) == v.(broken := true, torn := Some(v.mem), progress := Idle)
  {
    hide Usable;
  }

  /** The same after a failure inside ProcessBlock, whatever it left in memory. */
  lemma HalfDoneYetFinal(half: ChainState) returns (vms: seq<Vm>, steps: seq<Step>)
    ensures IsRun(LENIENT, vms, steps) && |vms| == 5
    ensures steps == [ConnectFault(CoinbaseBlock(2, 1), true, half), Flush, Crash, Restart]
    ensures vms[1].broken && vms[1].mem == half && vms[1].log == vms[0].log && vms[4].log == vms[0].log + [Recovered(2)]
  {
    hide *;
    var v := StartGenesis();
    var block := CoinbaseBlock(2, 1);
    RunStarts(LENIENT, v);
    RunInv(LENIENT, [v], [], 0);
    InvReady(v);
    ReadyFacts(v);
    RunningFacts(v);
    AdmitsIs(v, block);
    FaultNext(LENIENT, v, block, half);
    ConnectCoinbase(v, 2);
    EnabledConnect(v, block);
    ConnectStep(LENIENT, v, block, true);
    OnTip(v, block);
    UsableFacts(v.mem);
    ProcessOnTip(LENIENT, v.mem, block, true);
    CoinbaseAccepted(v.mem, 2);
    ConnectedIs(LENIENT, v, block, true);
    vms, steps := Goes(LENIENT, [v], [], v, ConnectFault(block, true, half));
    vms, steps := TornReturns(vms, steps, vms[1], 2);
  }

  lemma FaultNext(r: Rules, v: Vm, block: Block, half: ChainState)
    requires v.up && v.progress.Idle? && Admits(v, block) && Ready(v)
    ensures Usable(v.mem) && Enabled(v, ConnectFault(block, true, half))
    ensures Next(r, v, ConnectFault(block, true, half)) ==
      v.(mem := half, broken := true, torn := Some(Process(r, v.mem, block, true).state))
  {
    hide Usable, Process;
  }

  // ---- a block that failed to connect

  /** Rules that every block satisfies until it is connected, and none then. */
  const STRICT := Rules((_, _) => true, (_, _) => false)

  lemma StrictFails(s: ChainState, block: Block)
    requires |s.best| > 0 && Linked(s.Tip())
    ensures FailsConnect(STRICT, s, block)
  {
  }

  lemma FirstConnects(steps: seq<Step>)
    requires |steps| > 1 && steps[0].Connect?
    ensures Undisturbed(steps, 0, 1)
  {
  }

  /** A run in which an Accept breaks a rule: nothing becomes final, yet the block stays
      in the index, and accepting it again is refused as a duplicate. */
  lemma FailedBlockLeft() returns (vms: seq<Vm>, steps: seq<Step>)
    ensures IsRun(STRICT, vms, steps) && |vms| == 3
    ensures steps == [Connect(CoinbaseBlock(2, 1), true), Connect(CoinbaseBlock(2, 1), true)]
    ensures vms[1].mem != vms[0].mem && vms[1].mem.best == vms[0].mem.best && vms[1].log == vms[0].log
    ensures 2 !in vms[0].mem.index && 2 in vms[1].mem.status && vms[1].mem.status[2] == FAILED_STATUS
    ensures vms[2] == vms[1]
  {
    hide *;
    var v := StartGenesis();
    var block := CoinbaseBlock(2, 1);
    var step := Connect(block, true);
    RunStarts(STRICT, v);
    RunInv(STRICT, [v], [], 0);
    RunningFacts(v);
    AdmitsIs(v, block);
    OnTip(v, block);
    EnabledConnect(v, block);
    vms, steps := Goes(STRICT, [v], [], v, step);
    var u := vms[1];
    ReadyFacts(v);
    UsableFacts(v.mem);
    ProcessCases(STRICT, v.mem, block, true);
    StrictFails(v.mem, block);
    RunFacts(STRICT, vms, steps);
    FailedAt(STRICT, v, block, u);
    EnabledConnect(u, block);
    vms, steps := Goes(STRICT, vms, steps, u, step);
    FirstConnects(steps);
    FailedForGood(STRICT, vms, steps, 0, 1);
  }
}
