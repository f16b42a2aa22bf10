/** What the adapter's runs promise beyond their invariant: which accepts are
    acknowledged in order, what a verification is worth when the block is accepted, and
    what a block that broke a rule leaves behind. */
module AdapterRuns {
  import opened Wire
  import opened BlockTree
  import opened ChainSpec
  import ChainSafety
  import opened Adapter

  // ---- acknowledged blocks as a prefix

  ghost function AckedOnly(log: seq<Decision>): seq<Hash> {
    if log == [] then []
    else AckedOnly(log[..|log| - 1]) + if log[|log| - 1].Acked? then [log[|log| - 1].hash] else []
  }

  ghost function HashesOf(log: seq<Decision>): (hashes: seq<Hash>)
    ensures |hashes| == |log| && forall i :: 0 <= i < |log| ==> hashes[i] == log[i].hash
  {
    seq(|log|, i requires 0 <= i < |log| => log[i].hash)
  }

  /** No block recovered by a restart before one that was acknowledged. */
  ghost predicate AckedFirst(log: seq<Decision>) {
    forall i, j :: 0 <= i < j < |log| && log[j].Acked? ==> log[i].Acked?
  }

  ghost predicate Distinct(log: seq<Decision>) {
    forall i, j :: 0 <= i < j < |log| ==> log[i].hash != log[j].hash
  }

  lemma {:induction false} AckedAll(log: seq<Decision>)
    requires forall d :: d in log ==> d.Acked?
    ensures AckedOnly(log) == HashesOf(log)
    decreases |log|
  {
    if log != [] {
      var init := log[..|log| - 1];
      AckedAll(init);
      assert HashesOf(log) == HashesOf(init) + [log[|log| - 1].hash];
    }
  }

  /** An acknowledged hash is that of an acknowledged entry. */
  lemma {:induction false} AckedSource(log: seq<Decision>, k: nat) returns (i: nat)
    requires k < |AckedOnly(log)|
    ensures k <= i < |log| && log[i].Acked? && log[i].hash == AckedOnly(log)[k]
    decreases |log|
  {
    var init := log[..|log| - 1];
    if k < |AckedOnly(init)| {
      i := AckedSource(init, k);
    } else {
      i := |log| - 1;
      AckedShort(init);
    }
  }

  lemma {:induction false} AckedShort(log: seq<Decision>)
    ensures |AckedOnly(log)| <= |log|
    decreases |log|
  {
    if log != [] { AckedShort(log[..|log| - 1]); }
  }

  lemma {:induction false} AckedPresent(log: seq<Decision>, i: nat)
    requires i < |log| && log[i].Acked?
    ensures log[i].hash in AckedOnly(log)
    decreases |log|
  {
    if i < |log| - 1 { AckedPresent(log[..|log| - 1], i); }
  }

  /** The blocks whose Accept returned nil form a prefix of those that became final
      after the start exactly when no restart had recovered a block before one of
      them: a block on disk whose Accept never returned. */
  lemma AckedPrefix(log: seq<Decision>)
    requires Distinct(log)
    ensures AckedOnly(log) <= HashesOf(log) <==> AckedFirst(log)
  {
    if AckedFirst(log) {
      var n := AckedCount(log);
      AckedSplit(log, n);
    }
    if AckedOnly(log) <= HashesOf(log) {
      forall i, j | 0 <= i < j < |log| && log[j].Acked?
        ensures log[i].Acked?
      {
        PrefixMeans(log, i, j);
      }
    }
  }

  lemma AckedCount(log: seq<Decision>) returns (n: nat)
    requires AckedFirst(log)
    ensures n <= |log| && forall i :: 0 <= i < |log| ==> (log[i].Acked? <==> i < n)
  {
    n := 0;
    while n < |log| && log[n].Acked?
      invariant n <= |log| && forall i :: 0 <= i < n ==> log[i].Acked?
    {
      n := n + 1;
    }
  }

  lemma {:induction false} AckedSplit(log: seq<Decision>, n: nat)
    requires n <= |log| && forall i :: 0 <= i < |log| ==> (log[i].Acked? <==> i < n)
    ensures AckedOnly(log) == HashesOf(log)[..n]
    decreases |log|
  {
    if n == |log| {
      AckedAll(log);
    } else {
      var init := log[..|log| - 1];
      AckedSplit(init, n);
      assert HashesOf(init)[..n] == HashesOf(log)[..n];
    }
  }

  lemma PrefixMeans(log: seq<Decision>, i: nat, j: nat)
    requires Distinct(log) && AckedOnly(log) <= HashesOf(log) && i < j < |log| && log[j].Acked?
    ensures log[i].Acked?
  {
    AckedPresent(log, j);
    var k :| 0 <= k < |AckedOnly(log)| && AckedOnly(log)[k] == log[j].hash;
    assert HashesOf(log)[k] == log[j].hash;
    assert k == j;
    var m := AckedSource(log, i);
    assert HashesOf(log)[i] == AckedOnly(log)[i];
    assert m == i;
  }

  /** What became final after the start of a run: its hashes follow those on disk at
      the start, on the disk and in order, and are all different. */
  lemma RunLog(r: Rules, vms: seq<Vm>, steps: seq<Step>, i: nat)
    requires IsRun(r, vms, steps) && i < |vms|
    ensures |vms[0].log| <= |vms[i].log|
    ensures var later := vms[i].log[|vms[0].log|..];
      && Chain(vms[0].disk) + HashesOf(later) <= Chain(vms[i].disk)
      && Distinct(later)
      && (AckedOnly(later) <= HashesOf(later) <==> AckedFirst(later))
  {
    hide *;
    RunFacts(r, vms, steps);
    FinalGrows(r, vms, steps, 0, i);
    Durable(r, vms, steps, i, i);
    StartedFacts(vms[0]);
    ChainDistinct(vms[i].disk);
    var n := |vms[0].log|;
    var later := vms[i].log[n..];
    LaterHashes(vms[0], vms[i], later, Chain(vms[i].disk));
    AckedPrefix(later);
  }

  lemma StartedFacts(v: Vm)
    requires Started(v)
    ensures Final(v) == Chain(v.disk)
  {
    hide ChainSafety.Sound, Tree;
  }

  lemma LaterHashes(v: Vm, u: Vm, later: seq<Decision>, chain: seq<Hash>)
    requires v.log <= u.log && later == u.log[|v.log|..] && Final(u) <= chain
    requires forall i, j :: 0 <= i < j < |chain| ==> chain[i] != chain[j]
    ensures Final(v) + HashesOf(later) <= chain && Distinct(later)
  {
    assert Final(v) + HashesOf(later) == Final(u);
    forall i, j | 0 <= i < j < |later|
      ensures later[i].hash != later[j].hash
    {
      assert chain[|v.log| + i] == later[i].hash;
      assert chain[|v.log| + j] == later[j].hash;
    }
  }

  /** A restart that finds on disk a block whose Accept never returned. */
  ghost predicate Recovery(v: Vm, step: Step) {
    step.Restart? && Chain(v.disk) != Final(v)
  }

  /** No recovery in the first i steps. */
  ghost predicate NoRecovery(vms: seq<Vm>, steps: seq<Step>, i: nat)
    requires i <= |steps| < |vms|
  {
    forall a :: 0 <= a < i ==> !Recovery(vms[a], steps[a])
  }

  /** No Accept returns nil after a recovery, in the first i steps. */
  ghost predicate NoGap(vms: seq<Vm>, steps: seq<Step>, i: nat)
    requires i <= |steps| < |vms|
  {
    forall a, b :: 0 <= a < b < i && Recovery(vms[a], steps[a]) ==> !steps[b].Acknowledge?
  }

  ghost predicate AllAcked(log: seq<Decision>) {
    forall d :: d in log ==> d.Acked?
  }

  /** What a step adds to the final blocks. */
  lemma StepLog(r: Rules, v: Vm, step: Step, u: Vm) returns (hash: Hash)
    requires Inv(v) && Takes(r, v, step, u)
    ensures step.Acknowledge? ==> u.log == v.log + [Acked(hash)]
    ensures Recovery(v, step) ==> u.log == v.log + [Recovered(hash)]
    ensures !step.Acknowledge? && !Recovery(v, step) ==> u.log == v.log
  {
    hide *;
    TakesFacts(r, v, step, u);
    RecoveryIs(v, step);
    if step.Acknowledge? {
      AcknowledgeStep(r, v);
      hash := v.progress.block.hash;
    } else if step.Restart? {
      RestartLog(r, v);
      hash := u.log[|u.log| - 1].hash;
    } else {
      QuietLog(r, v, step);
      hash := 0;
    }
  }

  lemma RecoveryIs(v: Vm, step: Step)
    ensures Recovery(v, step) <==> step.Restart? && Chain(v.disk) != Final(v)
  {
    hide Chain, Final;
  }

  lemma QuietLog(r: Rules, v: Vm, step: Step)
    requires Enabled(v, step) && Ready(v) && !step.Acknowledge? && !step.Restart?
    ensures Next(r, v, step).log == v.log
  {
    hide Usable, Process, Validates;
  }

  lemma RestartLog(r: Rules, v: Vm)
    requires Inv(v) && Enabled(v, Restart) && Ready(v)
    ensures var u := Next(r, v, Restart);
      && |u.log| > 0
      && (Chain(v.disk) == Final(v) ==> u.log == v.log)
      && (Chain(v.disk) != Final(v) ==> u.log == v.log + [Recovered(u.log[|u.log| - 1].hash)])
  {
    hide *;
    InvDisk(v);
    DiskReady(v);
    UsableFacts(v.disk);
    TipIs(v.disk);
    ChainDistinct(v.disk);
    RestartIs(r, v);
    var n := |v.log|;
    if Chain(v.disk) != Final(v) {
      assert Chain(v.disk)[n - 1] == v.log[n - 1].hash;
    } else {
      assert Chain(v.disk)[n - 1] == v.log[n - 1].hash;
    }
  }

  lemma DiskReady(v: Vm)
    requires Ready(v)
    ensures Usable(v.disk)
  {
    hide Usable;
  }

  lemma RestartIs(r: Rules, v: Vm)
    requires Enabled(v, Restart) && Ready(v) && |v.disk.best| > 0
    ensures var tip := v.disk.Tip().Hash();
      Next(r, v, Restart).log ==
        if v.log != [] && v.log[|v.log| - 1].hash == tip then v.log else v.log + [Recovered(tip)]
  {
    hide Usable;
  }

  lemma AckedStep(log: seq<Decision>, d: Decision)
    ensures AllAcked(log) ==> AckedFirst(log)
    ensures d.Acked? ==>
      (AckedFirst(log + [d]) <==> AllAcked(log)) && (AllAcked(log + [d]) <==> AllAcked(log))
    ensures d.Recovered? ==> (AckedFirst(log + [d]) <==> AckedFirst(log)) && !AllAcked(log + [d])
  {
    var more := log + [d];
    assert more[|log|] == d && d in more;
    forall i | 0 <= i < |log|
      ensures more[i] == log[i] && log[i] in log && log[i] in more
    {
    }
    if d.Acked? && AckedFirst(more) {
      forall e | e in log
        ensures e.Acked?
      {
        var i :| 0 <= i < |log| && log[i] == e;
        assert more[i].Acked?;
      }
    }
    if d.Recovered? && AckedFirst(more) {
      forall i, j | 0 <= i < j < |log| && log[j].Acked?
        ensures log[i].Acked?
      {
        assert more[j].Acked? && more[i].Acked?;
      }
    }
  }

  lemma GapStep(vms: seq<Vm>, steps: seq<Step>, i: nat)
    requires i < |steps| < |vms|
    ensures NoRecovery(vms, steps, i) ==> NoGap(vms, steps, i)
    ensures NoRecovery(vms, steps, i + 1) <==> NoRecovery(vms, steps, i) && !Recovery(vms[i], steps[i])
    ensures steps[i].Acknowledge? ==> (NoGap(vms, steps, i + 1) <==> NoRecovery(vms, steps, i))
    ensures !steps[i].Acknowledge? ==> (NoGap(vms, steps, i + 1) <==> NoGap(vms, steps, i))
  {
    hide Recovery;
    if steps[i].Acknowledge? && NoGap(vms, steps, i + 1) {
      forall a | 0 <= a < i
        ensures !Recovery(vms[a], steps[a])
      {
      }
    }
  }

  /** In every run: what became final since the start is in order on the disk, and the
      blocks whose Accept returned nil are a prefix of it exactly when no Accept
      returned nil after a restart that had recovered a block. */
  lemma {:induction false} AckedPrefixOfRun(r: Rules, vms: seq<Vm>, steps: seq<Step>, i: nat)
    requires IsRun(r, vms, steps) && i < |vms|
    ensures |steps| < |vms| && i <= |steps| && |vms[0].log| <= |vms[i].log|
    ensures var later := vms[i].log[|vms[0].log|..];
      && Chain(vms[0].disk) + HashesOf(later) <= Chain(vms[i].disk)
      && (AckedOnly(later) <= HashesOf(later) <==> NoGap(vms, steps, i))
      && (AllAcked(later) <==> NoRecovery(vms, steps, i))
  {
    hide *;
    RunFacts(r, vms, steps);
    RunLog(r, vms, steps, i);
    var n := |vms[0].log|;
    if i == 0 {
      NoSteps(vms, steps);
      assert vms[0].log[n..] == [];
    } else {
      AckedPrefixOfRun(r, vms, steps, i - 1);
      RunLog(r, vms, steps, i - 1);
      RunInv(r, vms, steps, i - 1);
      GapStep(vms, steps, i - 1);
      RecoveryIs(vms[i - 1], steps[i - 1]);
      var hash := StepLog(r, vms[i - 1], steps[i - 1], vms[i]);
      var before := vms[i - 1].log[n..];
      AckedStep(before, Acked(hash));
      AckedStep(before, Recovered(hash));
      assert steps[i - 1].Acknowledge? ==> vms[i].log[n..] == before + [Acked(hash)];
      assert Recovery(vms[i - 1], steps[i - 1]) ==> vms[i].log[n..] == before + [Recovered(hash)];
    }
  }

  lemma NoSteps(vms: seq<Vm>, steps: seq<Step>)
    requires |steps| < |vms|
    ensures NoGap(vms, steps, 0) && NoRecovery(vms, steps, 0)
    ensures AllAcked([]) && AckedFirst([])
  {
  }

  // ---- a verified block, when it is accepted

  /** Every verified block is on top of a final one, and those on top of the last
      accepted block would pass their verification again. */
  ghost predicate Checked(r: Rules, v: Vm) {
    v.up ==> forall h :: h in v.verified ==> CheckedBlock(r, v, h)
  }

  ghost predicate CheckedBlock(r: Rules, v: Vm, h: Hash)
    requires h in v.verified
  {
    var block := v.verified[h];
    && block.hash == h
    && block.prev in Final(v)
    && (!v.broken && v.progress.Idle? && block.prev == v.lastAccepted ==> Validates(r, v.mem, block))
  }

  /** Verification sees no more of the chain than its tip and its coins. */
  lemma SameValidates(r: Rules, s: ChainState, t: ChainState, block: Block)
    requires s.best == t.best && s.ledger == t.ledger
    ensures Validates(r, s, block) <==> Validates(r, t, block)
  {
    hide CheckConnect;
  }

  lemma VerifyIs(r: Rules, v: Vm, block: Block, height: nat, sane: bool)
    requires Enabled(v, Verify(block, height, sane)) && Ready(v)
    ensures var u := Next(r, v, Verify(block, height, sane));
      || u == v
      || (u == v.(verified := v.verified[block.hash := block]) && !v.broken
          && block.prev == v.lastAccepted && Validates(r, v.mem, block))
  {
    hide Usable, Validates;
  }

  lemma CheckedAt(r: Rules, v: Vm, h: Hash)
    requires Checked(r, v) && v.up && h in v.verified
    ensures v.verified[h].hash == h && v.verified[h].prev in Final(v)
    ensures !v.broken && v.progress.Idle? && v.verified[h].prev == v.lastAccepted ==>
      Validates(r, v.mem, v.verified[h])
  {
    hide Validates, Final;
    assert CheckedBlock(r, v, h);
  }

  lemma CheckedIs(r: Rules, v: Vm)
    requires v.up ==> forall h :: h in v.verified ==>
      && v.verified[h].hash == h
      && v.verified[h].prev in Final(v)
      && (!v.broken && v.progress.Idle? && v.verified[h].prev == v.lastAccepted ==> Validates(r, v.mem, v.verified[h]))
    ensures Checked(r, v)
  {
    hide Validates, Final;
  }

  /** A step that verifies nothing keeps what was verified. */
  lemma KeepsChecked(r: Rules, v: Vm, u: Vm)
    requires Checked(r, v) && v.up && Final(v) <= Final(u)
    requires forall h :: h in u.verified ==> h in v.verified && u.verified[h] == v.verified[h]
    requires !u.broken && u.progress.Idle? ==>
      || (!v.broken && v.progress.Idle? && u.lastAccepted == v.lastAccepted
          && u.mem.best == v.mem.best && u.mem.ledger == v.mem.ledger)
      || u.lastAccepted !in Final(v)
    ensures Checked(r, u)
  {
    hide *;
    forall h | h in u.verified
      ensures u.verified[h].hash == h && u.verified[h].prev in Final(u)
      ensures !u.broken && u.progress.Idle? && u.verified[h].prev == u.lastAccepted ==>
        Validates(r, u.mem, u.verified[h])
    {
      CheckedAt(r, v, h);
      if u.mem.best == v.mem.best && u.mem.ledger == v.mem.ledger {
        SameValidates(r, v.mem, u.mem, v.verified[h]);
      }
    }
    CheckedIs(r, u);
  }

  lemma StepChecked(r: Rules, v: Vm, step: Step, u: Vm)
    requires Inv(v) && Checked(r, v) && Takes(r, v, step, u)
    ensures Checked(r, u)
  {
    hide *;
    TakesFacts(r, v, step, u);
    StepInv(r, v, step);
    GrownFacts(v, u);
    match step
    case Verify(block, height, sane) =>
      EnabledVerify(v, block, height, sane);
      VerifyIs(r, v, block, height, sane);
      VerifyChecked(r, v, u, block);
    case Connect(block, sane) => ConnectChecked(r, v, u, block, sane);
    case Acknowledge => AcknowledgeChecked(r, v, u);
    case ConnectFault(_, _, _) =>
      OtherSteps(r, v, step);
      KeepsChecked(r, v, u);
    case Persist(_) =>
      OtherSteps(r, v, step);
      KeepsChecked(r, v, u);
    case Reject(_) =>
      OtherSteps(r, v, step);
      KeepsChecked(r, v, u);
    case Flush =>
      OtherSteps(r, v, step);
      KeepsChecked(r, v, u);
    case Crash =>
      OtherSteps(r, v, step);
      CheckedIs(r, u);
    case Restart =>
      OtherSteps(r, v, step);
      CheckedIs(r, u);
  }

  lemma EnabledVerify(v: Vm, block: Block, height: nat, sane: bool)
    ensures Enabled(v, Verify(block, height, sane)) <==> v.up && v.progress.Idle?
  {
  }

  lemma OtherSteps(r: Rules, v: Vm, step: Step)
    requires Enabled(v, step) && Ready(v) && !step.Verify? && !step.Connect? && !step.Acknowledge?
    ensures var u := Next(r, v, step);
      && (step.Crash? ==> !u.up)
      && (step.Restart? ==> u.verified == map[])
      && (!step.Crash? && !step.Restart? ==>
            && v.up
            && (forall h :: h in u.verified ==> h in v.verified && u.verified[h] == v.verified[h])
            && (!u.broken && u.progress.Idle? ==>
                  !v.broken && v.progress.Idle? && u.lastAccepted == v.lastAccepted && u.mem == v.mem))
  {
    hide Usable, Process;
  }

  lemma VerifyChecked(r: Rules, v: Vm, u: Vm, block: Block)
    requires Inv(v) && Checked(r, v) && v.up && v.progress.Idle?
    requires u == v ||
      (u == v.(verified := v.verified[block.hash := block]) && !v.broken
       && block.prev == v.lastAccepted && Validates(r, v.mem, block))
    ensures Checked(r, u)
  {
    hide *;
    RunningFacts(v);
    SameFinal(v, u);
    assert Final(v)[|v.log| - 1] == v.lastAccepted;
    forall h | h in u.verified
      ensures u.verified[h].hash == h && u.verified[h].prev in Final(u)
      ensures !u.broken && u.progress.Idle? && u.verified[h].prev == u.lastAccepted ==>
        Validates(r, u.mem, u.verified[h])
    {
      if h in v.verified { CheckedAt(r, v, h); }
    }
    CheckedIs(r, u);
  }

  lemma ConnectChecked(r: Rules, v: Vm, u: Vm, block: Block, sane: bool)
    requires Inv(v) && Checked(r, v) && Takes(r, v, Connect(block, sane), u)
    ensures Checked(r, u)
  {
    hide *;
    TakesFacts(r, v, Connect(block, sane), u);
    ConnectStep(r, v, block, sane);
    if Admits(v, block) {
      OnTip(v, block);
      AdmitsIs(v, block);
      UsableFacts(v.mem);
      ProcessOnTip(r, v.mem, block, sane);
      RuleErrors();
      ConnectedIs(r, v, block, sane);
      SameFinal(v, u);
      KeepsChecked(r, v, u);
    }
  }

  lemma AcknowledgeChecked(r: Rules, v: Vm, u: Vm)
    requires Inv(v) && Checked(r, v) && Takes(r, v, Acknowledge, u)
    ensures Checked(r, u)
  {
    hide *;
    TakesFacts(r, v, Acknowledge, u);
    AcknowledgeStep(r, v);
    AcknowledgeKeeps(r, v);
    RunningFacts(v);
    var h := v.progress.block.hash;
    MoreFinal(v, u, Acked(h));
    ChainDistinct(v.mem);
    assert Chain(v.mem)[|Final(v)|] == h;
    assert forall i :: 0 <= i < |Final(v)| ==> Chain(v.mem)[i] == Final(v)[i];
    KeepsChecked(r, v, u);
  }

  lemma AcknowledgeKeeps(r: Rules, v: Vm)
    requires Enabled(v, Acknowledge) && Ready(v)
    ensures var u := Next(r, v, Acknowledge);
      forall h :: h in u.verified ==> h in v.verified && u.verified[h] == v.verified[h]
  {
  }

  lemma {:induction false} RunChecked(r: Rules, vms: seq<Vm>, steps: seq<Step>, i: nat)
    requires IsRun(r, vms, steps) && i < |vms|
    ensures Checked(r, vms[i])
  {
    hide *;
    RunFacts(r, vms, steps);
    if i == 0 {
      StartedNothing(vms[0]);
      CheckedIs(r, vms[0]);
    } else {
      RunChecked(r, vms, steps, i - 1);
      RunInv(r, vms, steps, i - 1);
      StepChecked(r, vms[i - 1], steps[i - 1], vms[i]);
    }
  }

  lemma StartedNothing(v: Vm)
    requires Started(v)
    ensures v.verified == map[]
  {
    hide ChainSafety.Sound, Tree;
  }

  /** A block that was verified, at any time since the last start, is connected when it
      is accepted: if it is still on top of the last accepted block and not indexed
      already, no rule refuses it. */
  lemma VerifiedConnects(r: Rules, vms: seq<Vm>, steps: seq<Step>, i: nat)
    requires IsRun(r, vms, steps) && i < |steps| && steps[i].Connect? && steps[i].sane
    requires steps[i].block.hash in vms[i].verified && vms[i].verified[steps[i].block.hash] == steps[i].block
    requires Admits(vms[i], steps[i].block) && steps[i].block.hash !in vms[i].mem.index
    ensures var v, u, block := vms[i], vms[i + 1], steps[i].block;
      u.progress == InMemory(block) && Chain(u.mem) == Chain(v.mem) + [block.hash]
  {
    hide *;
    RunFacts(r, vms, steps);
    RunInv(r, vms, steps, i);
    RunChecked(r, vms, steps, i);
    var v, u, block := vms[i], vms[i + 1], steps[i].block;
    TakesFacts(r, v, steps[i], u);
    ConnectStep(r, v, block, true);
    AdmitsIs(v, block);
    CheckedAt(r, v, block.hash);
    OnTip(v, block);
    UsableFacts(v.mem);
    ProcessCases(r, v.mem, block, true);
    ProcessOnTip(r, v.mem, block, true);
    ConnectedIs(r, v, block, true);
  }

  // ---- a block that broke a rule

  /** The process neither restarts nor fails between two moments of a run. */
  ghost predicate Undisturbed(steps: seq<Step>, i: nat, j: nat)
    requires i <= j <= |steps|
  {
    forall k :: i <= k < j ==> !steps[k].Restart? && !steps[k].ConnectFault?
  }

  lemma {:induction false} IndexGrows(r: Rules, vms: seq<Vm>, steps: seq<Step>, i: nat, j: nat)
    requires IsRun(r, vms, steps) && i <= j <= |steps| && Undisturbed(steps, i, j)
    ensures |vms| == |steps| + 1 && vms[i].mem.index.Keys <= vms[j].mem.index.Keys
    decreases j
  {
    hide *;
    RunFacts(r, vms, steps);
    if i < j {
      UndisturbedAt(steps, i, j);
      IndexGrows(r, vms, steps, i, j - 1);
      RunInv(r, vms, steps, j - 1);
      IndexKept(r, vms[j - 1], steps[j - 1], vms[j]);
    }
  }

  lemma UndisturbedAt(steps: seq<Step>, i: nat, j: nat)
    requires i < j <= |steps| && Undisturbed(steps, i, j)
    ensures Undisturbed(steps, i, j - 1) && !steps[j - 1].Restart? && !steps[j - 1].ConnectFault?
  {
  }

  lemma IndexKept(r: Rules, v: Vm, step: Step, u: Vm)
    requires Inv(v) && Takes(r, v, step, u) && !step.Restart? && !step.ConnectFault?
    ensures v.mem.index.Keys <= u.mem.index.Keys
  {
    hide *;
    TakesFacts(r, v, step, u);
    if step.Connect? {
      ConnectStep(r, v, step.block, step.sane);
      if Admits(v, step.block) {
        OnTip(v, step.block);
        AdmitsIs(v, step.block);
        UsableFacts(v.mem);
        ProcessOnTip(r, v.mem, step.block, step.sane);
        RuleErrors();
        ConnectedIs(r, v, step.block, step.sane);
        ProcessIndex(r, v.mem, step.block, step.sane);
      }
    } else {
      SameMemory(r, v, step);
    }
  }

  lemma SameMemory(r: Rules, v: Vm, step: Step)
    requires Enabled(v, step) && Ready(v) && !step.Restart? && !step.ConnectFault? && !step.Connect?
    ensures Next(r, v, step).mem == v.mem
  {
    hide Usable, Validates;
  }

  lemma ProcessIndex(r: Rules, s: ChainState, block: Block, sane: bool)
    requires ChainSafety.Sound(s) && Usable(s) && |s.best| > 0 && block.prev == s.Tip().Hash()
    ensures s.index.Keys <= Process(r, s, block, sane).state.index.Keys
  {
    hide *;
    ChainSafety.SoundFacts(s);
    TreeFacts(s);
    ProcessIs(r, s, block, sane);
    if block.hash !in s.index && sane {
      ChainSafety.TipIndexed(s);
      ChainSafety.AcceptSound(r, s, block);
      ChainSafety.AcceptedFacts(s, block, Accept(r, s, block));
    }
  }

  /** A new, sane block that fails to connect when it is accepted is left in the index,
      failed, and nothing else changes. From then on, until a restart or a failure that
      is no rule violation, Accept refuses it as a duplicate and changes nothing. */
  lemma FailedForGood(r: Rules, vms: seq<Vm>, steps: seq<Step>, i: nat, j: nat)
    requires IsRun(r, vms, steps) && i < j < |steps| && Undisturbed(steps, i, j)
    requires steps[i].Connect? && steps[i].sane && Admits(vms[i], steps[i].block)
    requires steps[i].block.hash !in vms[i].mem.index && FailsConnect(r, vms[i].mem, steps[i].block)
    requires steps[j].Connect? && steps[j].block == steps[i].block
    ensures |vms[i].mem.best| > 0 && Linked(vms[i].mem.Tip())
    ensures var v, block := vms[i], steps[i].block;
      vms[i + 1] == v.(mem := v.mem.(
        index := v.mem.index[block.hash := ChildOf(block, v.mem.Tip())],
        status := v.mem.status[block.hash := FAILED_STATUS]))
    ensures vms[j + 1] == vms[j]
  {
    hide *;
    RunFacts(r, vms, steps);
    RunInv(r, vms, steps, i);
    RunInv(r, vms, steps, j);
    var block := steps[i].block;
    FailedAt(r, vms[i], block, vms[i + 1]);
    UndisturbedTail(steps, i, j);
    IndexGrows(r, vms, steps, i + 1, j);
    DuplicateAt(r, vms[j], block, steps[j].sane, vms[j + 1]);
  }

  lemma UndisturbedTail(steps: seq<Step>, i: nat, j: nat)
    requires i < j <= |steps| && Undisturbed(steps, i, j)
    ensures Undisturbed(steps, i + 1, j)
  {
  }

  lemma FailedAt(r: Rules, v: Vm, block: Block, u: Vm)
    requires Inv(v) && Takes(r, v, Connect(block, true), u) && Admits(v, block)
    requires block.hash !in v.mem.index && FailsConnect(r, v.mem, block)
    ensures |v.mem.best| > 0 && Linked(v.mem.Tip())
    ensures u == v.(mem := v.mem.(
        index := v.mem.index[block.hash := ChildOf(block, v.mem.Tip())],
        status := v.mem.status[block.hash := FAILED_STATUS]))
  {
    hide *;
    TakesFacts(r, v, Connect(block, true), u);
    ConnectStep(r, v, block, true);
    OnTip(v, block);
    UsableFacts(v.mem);
    ProcessCases(r, v.mem, block, true);
    ProcessOnTip(r, v.mem, block, true);
    ConnectedIs(r, v, block, true);
  }

  lemma DuplicateAt(r: Rules, v: Vm, block: Block, sane: bool, u: Vm)
    requires Inv(v) && Takes(r, v, Connect(block, sane), u) && block.hash in v.mem.index
    ensures u == v
  {
    hide *;
    TakesFacts(r, v, Connect(block, sane), u);
    ConnectStep(r, v, block, sane);
    if Admits(v, block) {
      UsableFacts(v.mem);
      ProcessIs(r, v.mem, block, sane);
      RuleErrors();
      ConnectedIs(r, v, block, sane);
    }
  }

  // ---- a failure part-way

  /** A step of a VM that has failed part-way, other than a restart, accepts nothing and
      verifies nothing. */
  lemma BrokenStep(r: Rules, v: Vm, step: Step, u: Vm)
    requires Inv(v) && v.broken && Takes(r, v, step, u) && !step.Restart?
    ensures u.broken && u.log == v.log && u.lastAccepted == v.lastAccepted && u.mem == v.mem
    ensures forall h :: h in u.verified ==> h in v.verified && u.verified[h] == v.verified[h]
  {
    hide ChainSafety.Sound, Usable, Process, Validates, Follows, Final;
    if v.up { RunningFacts(v); }
  }

  /** The latch: from a failure part-way to the next restart no block becomes final and no
      block is verified. */
  lemma {:induction false} BrokenLatches(r: Rules, vms: seq<Vm>, steps: seq<Step>, i: nat, j: nat)
    requires IsRun(r, vms, steps) && i <= j <= |steps| && vms[i].broken
    requires forall k :: i <= k < j ==> !steps[k].Restart?
    ensures |vms| == |steps| + 1
    ensures vms[j].broken && vms[j].log == vms[i].log && vms[j].lastAccepted == vms[i].lastAccepted
    ensures vms[j].verified.Keys <= vms[i].verified.Keys
    decreases j
  {
    hide *;
    RunFacts(r, vms, steps);
    if i < j {
      BrokenLatches(r, vms, steps, i, j - 1);
      RunInv(r, vms, steps, j - 1);
      BrokenStep(r, vms[j - 1], steps[j - 1], vms[j]);
    }
  }
}
