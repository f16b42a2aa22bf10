/** Verify, Accept and Reject as the VM runs them (vm/block_adapter.go), on a chain
    object, each proved to take steps of the adapter's state machine. */
module BlockAdapter {
  import opened Wire
  import opened BlockTree
  import opened ChainSpec
  import opened ChainSafety
  import opened Adapter
  import opened Processing
  import BlockChain

  datatype Refusal =
    | ParentNotAccepted
    | Broken
    | WrongHeight
    | Invalid
    | NotConnected(error: Error)
    | NotTip
    | NotPersisted

  /** The steps of one Accept that does not fail outside the rules: connecting, and
      if that made the block the tip, persisting, and if that worked, acknowledging. */
  ghost predicate AcceptSteps(r: Rules, v: Vm, block: Block, sane: bool, ok: bool, u: Vm) {
    && Enabled(v, Connect(block, sane)) && Ready(v)
    && var v1 := Next(r, v, Connect(block, sane));
       if !v1.progress.InMemory? then u == v1
       else
         && Enabled(v1, Persist(ok)) && Ready(v1)
         && var v2 := Next(r, v1, Persist(ok));
            if !ok then u == v2
            else Enabled(v2, Acknowledge) && Ready(v2) && u == Next(r, v2, Acknowledge)
  }

  class VM {
    const chain: BlockChain.Chain
    var lastAccepted: Hash
    var verifiedBlocks: map<Hash, Block>
    var broken: bool
    var orphans: set<Hash>
    ghost var disk: ChainState
    ghost var torn: Option<ChainState>
    ghost var log: seq<Decision>

    /** The state of the machine between two calls. */
    ghost function View(): Vm
      reads this, chain
    {
      Vm(chain.State(), disk, torn, lastAccepted, verifiedBlocks, orphans, broken, Idle, true, log)
    }

    /** Initialize: the tip btcd loaded from disk is the last accepted block. */
    constructor (chain: BlockChain.Chain, ghost log: seq<Decision>)
      requires Sound(chain.State()) && |log| == |chain.bestChain|
      requires forall i :: 0 <= i < |log| ==> log[i] == Recovered(chain.bestChain[i].Hash())
      ensures this.chain == chain && Started(View()) && View().disk == chain.State() && View().log == log
    {
      this.chain := chain;
      lastAccepted := chain.stateSnapshot.hash;
      verifiedBlocks, broken, orphans := map[], false, {};
      disk, torn, this.log := chain.State(), None, log;
      new;
      StartedIs(View(), chain.State());
    }

    /** Verify. */
    method Verify(block: Block, height: nat, sane: bool) returns (err: Option<Refusal>)
      requires Inv(View()) && Ready(View())
      modifies this`verifiedBlocks
      ensures Takes(chain.rules, old(View()), Step.Verify(block, height, sane), View())
      ensures err.None? <==>
        && !broken && block.prev == lastAccepted && height == chain.stateSnapshot.height + 1
        && sane && Validates(chain.rules, chain.State(), block)
      ensures verifiedBlocks == if err.None? then old(verifiedBlocks)[block.hash := block] else old(verifiedBlocks)
    {
      hide *;
      ghost var v := View();
      ViewIs();
      chain.StateIs(chain.State());
      VerifyNext(chain.rules, v, block, height, sane);
      if broken {
        return Some(Broken);
      }
      if block.prev != lastAccepted {
        return Some(ParentNotAccepted);
      }
      if height != chain.stateSnapshot.height + 1 {
        return Some(WrongHeight);
      }
      AdmitsIs(v, block);
      OnTip(v, block);
      var valid := chain.CheckConnectBlockTemplate(block, sane);
      ValidatesIs(chain.rules, v.mem, block);
      if !valid {
        return Some(Invalid);
      }
      verifiedBlocks := verifiedBlocks[block.hash := block];
      ViewIs();
      return None;
    }

    /** Reject. */
    method Reject(block: Block)
      requires Inv(View()) && Ready(View())
      modifies this`verifiedBlocks
      ensures Takes(chain.rules, old(View()), Step.Reject(block), View())
      ensures verifiedBlocks == old(verifiedBlocks) - {block.hash}
    {
      hide *;
      ghost var v := View();
      ViewIs();
      RejectNext(chain.rules, v, block);
      verifiedBlocks := verifiedBlocks - {block.hash};
      ViewIs();
    }

    /** Accept, where btcd fails only by its rules or in writing to disk: it takes the
        steps of the machine, and returns nil exactly when the block is on disk, is
        the tip and is the last accepted block. */
    method Accept(block: Block, sane: bool, persists: bool) returns (err: Option<Refusal>)
      requires Inv(View()) && Ready(View())
      modifies this, chain
      ensures AcceptSteps(chain.rules, old(View()), block, sane, persists, View())
      ensures Inv(View()) && Ready(View())
      ensures err.None? <==> log == old(log) + [Acked(block.hash)]
      ensures err.None? ==> lastAccepted == block.hash && disk == chain.State()
      ensures err.Some? ==> lastAccepted == old(lastAccepted) && log == old(log) && disk == old(disk)
      ensures verifiedBlocks == if err.None? then old(verifiedBlocks) - {block.hash} else old(verifiedBlocks)
      ensures broken <==> old(broken) || err == Some(NotPersisted)
      ensures old(broken) ==> err.Some? && View() == old(View())
    {
      hide *;
      ghost var v := View();
      ViewIs();
      AdmitsIs(v, block);
      RunningFacts(v);
      ReadyFacts(v);
      err := None;
      if block.prev != lastAccepted {
        err := Some(ParentNotAccepted);
      } else if broken {
        err := Some(Broken);
      } else {
        OnTip(v, block);
        UsableFacts(v.mem);
        ProcessOnTip(chain.rules, v.mem, block, sane);
        var isMainChain, isOrphan, failed := ProcessBlock(block, sane);
        var halfDone := false;
        if failed.Some? {
          halfDone := !IsRuleError(failed.value);
          err := Some(NotConnected(failed.value));
        } else if isOrphan || !isMainChain {
          halfDone := true;
          err := Some(NotTip);
        } else if !persists {
          halfDone := true;
          err := Some(NotPersisted);
        } else {
          disk := chain.State();
          verifiedBlocks := verifiedBlocks - {block.hash};
          lastAccepted := block.hash;
          log := log + [Acked(block.hash)];
        }
        if halfDone {
          broken := true;
          torn := Some(chain.State());
        }
      }
      ViewIs();
      AcceptCases(chain.rules, v, block, sane, persists, View());
    }

    lemma ViewIs()
      ensures View() == Vm(chain.State(), disk, torn, lastAccepted, verifiedBlocks, orphans, broken, Idle, true, log)
    {
    }

    /** ProcessBlock, with the orphan pool as the VM keeps it. */
    method ProcessBlock(block: Block, sane: bool) returns (isMainChain: bool, isOrphan: bool, err: Option<Error>)
      requires Sound(chain.State()) && Usable(chain.State()) && orphans == {}
      modifies chain, this`orphans
      ensures var p := Process(chain.rules, old(chain.State()), block, sane);
        && chain.State() == p.state && isMainChain == p.isMainChain && isOrphan == p.isOrphan && err == p.err
        && orphans == if p.isOrphan then {block.hash} else {}
      ensures isOrphan <==> old(block.hash !in chain.index && sane && block.prev !in chain.index)
      ensures isOrphan ==>
        orphans == {block.hash} && chain.State() == old(chain.State()) && !isMainChain && err.None?
      ensures !isOrphan ==> orphans == {}
      ensures isMainChain ==> !isOrphan && err.None?
      ensures err.None? && !isOrphan ==> block.hash in chain.index && chain.index[block.hash].block == block
    {
      hide Sound, Tree, Replay, ChainSpec.Accept, BlockChain.Chain.State, Usable, Process;
      ghost var s := chain.State();
      UsableFacts(s);
      ProcessMeans(chain.rules, s, block, sane);
      ProcessIs(chain.rules, s, block, sane);
      ProcessOrphan(chain.rules, s, block, sane);
      chain.StateIs(chain.State());
      isMainChain, isOrphan, err := false, false, None;
      if block.hash in chain.index {
        err := Some(DuplicateBlock);
      } else if !sane {
        err := Some(SanityRule);
      } else if block.prev !in chain.index {
        orphans := orphans + {block.hash};
        isOrphan := true;
      } else {
        isMainChain, err := chain.MaybeAcceptBlock(block);
      }
      chain.StateIs(chain.State());
    }
  }

  /** What the steps of an Accept come to. */
  lemma AcceptCases(r: Rules, v: Vm, block: Block, sane: bool, ok: bool, u: Vm)
    requires Inv(v) && Ready(v) && v.up && v.progress.Idle?
    requires !Admits(v, block) ==> u == v
    requires Admits(v, block) ==>
      && Usable(v.mem)
      && var p := Process(r, v.mem, block, sane);
         if p.err.Some? then u == v.(mem := p.state)
         else if !ok then u == v.(mem := p.state, broken := true, torn := Some(p.state))
         else u == v.(mem := p.state, disk := p.state, verified := v.verified - {block.hash},
                      lastAccepted := block.hash, log := v.log + [Acked(block.hash)])
    ensures AcceptSteps(r, v, block, sane, ok, u) && Inv(u) && Ready(u)
    ensures Admits(v, block) ==>
      var p := Process(r, v.mem, block, sane);
      !p.isOrphan && (p.err.None? ==> p.isMainChain) && (p.err.Some? ==> IsRuleError(p.err.value))
  {
    hide *;
    ConnectEnabled(v, block, sane);
    ConnectStep(r, v, block, sane);
    StepInv(r, v, Connect(block, sane));
    var v1 := Next(r, v, Connect(block, sane));
    InvReady(v1);
    if Admits(v, block) {
      OnTip(v, block);
      UsableFacts(v.mem);
      ProcessOnTip(r, v.mem, block, sane);
      ConnectedIs(r, v, block, sane);
    }
    if v1.progress.InMemory? {
      PersistEnabled(v1, ok);
      StepInv(r, v1, Persist(ok));
      PersistStep(r, v1, ok);
      var v2 := Next(r, v1, Persist(ok));
      InvReady(v2);
      if ok {
        AcknowledgeEnabled(v2);
        StepInv(r, v2, Acknowledge);
        AcknowledgeNext(r, v2);
        InvReady(Next(r, v2, Acknowledge));
      }
    }
    AcceptStepsIs(r, v, block, sane, ok, u);
  }

  lemma VerifyNext(r: Rules, v: Vm, block: Block, height: nat, sane: bool)
    requires v.up && v.progress.Idle? && Ready(v)
    ensures
      Takes(r, v, Verify(block, height, sane),
        if v.broken || block.prev != v.lastAccepted || height != v.mem.snapshot.height + 1 then v
        else if !sane || !Validates(r, v.mem, block) then v
        else v.(verified := v.verified[block.hash := block]))
  {
    hide Usable, Validates;
  }

  lemma RejectNext(r: Rules, v: Vm, block: Block)
    requires v.up && v.progress.Idle? && Ready(v)
    ensures Takes(r, v, Reject(block), v.(verified := v.verified - {block.hash}))
  {
    hide Usable;
  }

  lemma ConnectEnabled(v: Vm, block: Block, sane: bool)
    requires v.up && v.progress.Idle?
    ensures Enabled(v, Connect(block, sane))
  {
  }

  lemma PersistEnabled(v: Vm, ok: bool)
    requires v.up && v.progress.InMemory?
    ensures Enabled(v, Persist(ok))
  {
  }

  lemma AcknowledgeEnabled(v: Vm)
    requires v.up && v.progress.OnDisk?
    ensures Enabled(v, Acknowledge)
  {
  }

  lemma PersistStep(r: Rules, v: Vm, ok: bool)
    requires Enabled(v, Persist(ok)) && Ready(v)
    ensures v.progress.InMemory?
    ensures Next(r, v, Persist(ok)) ==
      if ok then v.(disk := v.mem, progress := OnDisk(v.progress.block))
      else v.(broken := true, torn := Some(v.mem), progress := Idle)
  {
    hide Usable;
  }

  lemma AcknowledgeNext(r: Rules, v: Vm)
    requires Enabled(v, Acknowledge) && Ready(v)
    ensures v.progress.OnDisk?
    ensures var block := v.progress.block;
      Next(r, v, Acknowledge) ==
        v.(verified := v.verified - {block.hash}, lastAccepted := block.hash, progress := Idle,
          log := v.log + [Acked(block.hash)])
  {
    hide Usable;
  }

  lemma AcceptStepsIs(r: Rules, v: Vm, block: Block, sane: bool, ok: bool, u: Vm)
    requires Enabled(v, Connect(block, sane)) && Ready(v)
    requires var v1 := Next(r, v, Connect(block, sane));
      && (!v1.progress.InMemory? ==> u == v1)
      && (v1.progress.InMemory? ==>
           && Enabled(v1, Persist(ok)) && Ready(v1)
           && var v2 := Next(r, v1, Persist(ok));
              && (!ok ==> u == v2)
              && (ok ==> Enabled(v2, Acknowledge) && Ready(v2) && u == Next(r, v2, Acknowledge)))
    ensures AcceptSteps(r, v, block, sane, ok, u)
  {
    hide Next, Ready, Enabled;
  }

  lemma StartedIs(v: Vm, s: ChainState)
    requires Sound(s) && |v.log| == |s.best|
    requires forall i :: 0 <= i < |v.log| ==> v.log[i] == Recovered(s.best[i].Hash())
    requires v == Vm(s, s, None, s.snapshot.hash, map[], {}, false, Idle, true, v.log)
    ensures Started(v)
  {
    hide Tree, Replay, ValidReplays;
    SoundFacts(s);
    TreeFacts(s);
    SnapshotTip(s);
    TipIs(s);
  }
}
