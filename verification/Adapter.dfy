/** The Snowman adapter (vm/block_adapter.go, vm/vm.go and btcd/btcd.go) as a state
    machine: what the VM keeps in memory, what a restart would find on disk, and
    every point between two writes where the process may fail or die. */
module Adapter {
  import opened Wire
  import opened BlockTree
  import opened ChainSpec
  import opened ChainSafety

  // ---- ProcessBlock

  /** ProcessBlock with an empty orphan pool: the state after it, and what it returns. */
  datatype Processed = Processed(state: ChainState, isMainChain: bool, isOrphan: bool, err: Option<Error>)

  ghost function Process(r: Rules, s: ChainState, block: Block, sane: bool): Processed
    requires Tree(s) && Replay(s.best) == Some(s.ledger)
  {
    if block.hash in s.index then Processed(s, false, false, Some(DuplicateBlock))
    else if !sane then Processed(s, false, false, Some(SanityRule))
    else if block.prev !in s.index then Processed(s, false, true, None)
    else
      match Accept(r, s, block)
      case Outcome(t, Done(main)) => Processed(t, main, false, None)
      case Outcome(t, Failed(e)) => Processed(t, false, false, Some(e))
  }

  predicate IsRuleError(e: Error) {
    e != AssertionFailed
  }

  /** CheckConnectBlockTemplate, once the block is on top of the tip and sane. */
  ghost predicate Validates(r: Rules, s: ChainState, block: Block) {
    && |s.best| > 0 && Linked(s.Tip())
    && r.context(block, s.Tip())
    && CheckConnect(r, s.ledger, ChildOf(block, s.Tip()))
  }

  /** On top of the tip, a block that passes the rules of its context and breaks one of
      connecting. */
  ghost predicate FailsConnect(r: Rules, s: ChainState, block: Block) {
    && |s.best| > 0 && Linked(s.Tip())
    && r.context(block, s.Tip())
    && !CheckConnect(r, s.ledger, ChildOf(block, s.Tip()))
  }

  // ---- the VM

  /** Where an Accept is, between its writes. */
  datatype Progress = Idle | InMemory(block: Block) | OnDisk(block: Block)

  /** The blocks that became final, in order: those whose Accept returned nil, and
      those a restart found on disk though their Accept never returned. */
  datatype Decision = Acked(hash: Hash) | Recovered(hash: Hash)

  datatype Vm = Vm(
    mem: ChainState,                  // btcd's chain in memory
    disk: ChainState,                 // what a restart would load
    torn: Option<ChainState>,         // what a failed accept may still bring to disk
    lastAccepted: Hash,
    verified: map<Hash, Block>,
    orphans: set<Hash>,
    broken: bool,
    progress: Progress,
    up: bool,
    log: seq<Decision>)

  datatype Step =
    | Verify(block: Block, height: nat, sane: bool)
    | Connect(block: Block, sane: bool)                        // accept, up to Persist
    | ConnectFault(block: Block, sane: bool, half: ChainState) // a failure that is no rule violation
    | Persist(ok: bool)
    | Acknowledge                                              // accept, after Persist
    | Reject(block: Block)
    | Flush                                                    // a write in the background
    | Crash
    | Restart

  /** Accept goes on to ProcessBlock. */
  predicate Admits(v: Vm, block: Block) {
    block.prev == v.lastAccepted && !v.broken
  }

  /** Whether a step is possible: Verify, Accept and Reject exclude each other. */
  predicate Enabled(v: Vm, step: Step) {
    match step
    case Verify(_, _, _) => v.up && v.progress.Idle?
    case Connect(_, _) => v.up && v.progress.Idle?
    case ConnectFault(block, _, _) => v.up && v.progress.Idle? && Admits(v, block)
    case Persist(_) => v.up && v.progress.InMemory?
    case Acknowledge => v.up && v.progress.OnDisk?
    case Reject(_) => v.up && v.progress.Idle?
    case Flush => v.up
    case Crash => v.up
    case Restart => !v.up
  }

  /** The chain in memory can be processed. */
  ghost predicate Usable(s: ChainState) {
    Tree(s) && Replay(s.best) == Some(s.ledger)
  }

  /** Memory and disk are in a state a step can start from. */
  ghost predicate Ready(v: Vm) {
    (v.up && !v.broken ==> Usable(v.mem)) && Usable(v.disk)
  }

  ghost function Connected(r: Rules, v: Vm, block: Block, sane: bool): Vm
    requires Usable(v.mem)
  {
    if !Admits(v, block) then v
    else
      var p := Process(r, v.mem, block, sane);
      var u := v.(mem := p.state, orphans := if p.isOrphan then v.orphans + {block.hash} else v.orphans);
      if p.err.Some? then (if IsRuleError(p.err.value) then u else u.(broken := true, torn := Some(p.state)))
      else if p.isOrphan || !p.isMainChain then u.(broken := true, torn := Some(p.state))
      else u.(progress := InMemory(block))
  }

  ghost function Next(r: Rules, v: Vm, step: Step): Vm
    requires Enabled(v, step) && Ready(v)
  {
    match step
    case Verify(block, height, sane) =>
      if v.broken || block.prev != v.lastAccepted || height != v.mem.snapshot.height + 1 then v
      else if !sane || !Validates(r, v.mem, block) then v
      else v.(verified := v.verified[block.hash := block])
    case Connect(block, sane) =>
      if Admits(v, block) then Connected(r, v, block, sane) else v
    case ConnectFault(block, sane, half) =>
      v.(mem := half, broken := true, torn := Some(Process(r, v.mem, block, sane).state))
    case Persist(ok) =>
      if ok then v.(disk := v.mem, progress := OnDisk(v.progress.block))
      else v.(broken := true, torn := Some(v.mem), progress := Idle)
    case Acknowledge =>
      var block := v.progress.block;
      v.(verified := v.verified - {block.hash}, lastAccepted := block.hash, progress := Idle,
         log := v.log + [Acked(block.hash)])
    case Reject(block) => v.(verified := v.verified - {block.hash})
    case Flush =>
      if !v.broken then v.(disk := v.mem)
      else if v.torn.Some? then v.(disk := v.torn.value)
      else v
    case Crash => v.(up := false, progress := Idle)
    case Restart =>
      var tip := v.disk.Tip().Hash();
      Vm(v.disk, v.disk, None, tip, map[], {}, false, Idle, true,
         if v.log != [] && v.log[|v.log| - 1].hash == tip then v.log else v.log + [Recovered(tip)])
  }

  // ---- the invariant

  /** The hashes of the final blocks, in order. */
  ghost function Final(v: Vm): (hashes: seq<Hash>)
    ensures |hashes| == |v.log| && forall i :: 0 <= i < |v.log| ==> hashes[i] == v.log[i].hash
  {
    seq(|v.log|, i requires 0 <= i < |v.log| => v.log[i].hash)
  }

  /** The hashes of the best chain, from genesis. */
  ghost function Chain(s: ChainState): (hashes: seq<Hash>)
    ensures |hashes| == |s.best| && forall i :: 0 <= i < |s.best| ==> hashes[i] == s.best[i].Hash()
  {
    seq(|s.best|, i requires 0 <= i < |s.best| => s.best[i].Hash())
  }

  /** A chain of exactly the final blocks, or of these and one more. */
  ghost predicate Follows(s: ChainState, final: seq<Hash>) {
    Sound(s) && (Chain(s) == final || exists h :: Chain(s) == final + [h])
  }

  /** What holds while the process runs. */
  ghost predicate Running(v: Vm, final: seq<Hash>)
    requires |final| > 0
  {
    && v.orphans == {}
    && v.lastAccepted == final[|final| - 1]
    && (if v.broken then v.progress.Idle? && (v.torn.Some? ==> Follows(v.torn.value, final))
        else
          && Sound(v.mem)
          && match v.progress
             case Idle => Chain(v.mem) == final == Chain(v.disk)
             case InMemory(b) => Chain(v.mem) == final + [b.hash]
             case OnDisk(b) => Chain(v.mem) == final + [b.hash] == Chain(v.disk))
  }

  ghost predicate Inv(v: Vm) {
    && |v.log| > 0
    && Follows(v.disk, Final(v))
    && (v.up ==> Running(v, Final(v)))
  }

  lemma SoundUsable(s: ChainState)
    requires Sound(s)
    ensures Usable(s)
  {
  }

  /** A step is defined in every state the invariant allows. */
  lemma InvReady(v: Vm)
    requires Inv(v)
    ensures Ready(v)
  {
    hide Sound, Tree, Replay;
    SoundUsable(v.disk);
    if v.up && !v.broken { SoundUsable(v.mem); }
  }

  // ---- one block on top of the tip

  /** A block on top of the tip extends the chain by itself, or breaks a rule and
      leaves the chain alone. It never is an orphan, never ends up on a side chain,
      never sets off a reorganization, and fails no assertion. */
  lemma ProcessOnTip(r: Rules, s: ChainState, block: Block, sane: bool)
    requires Sound(s) && Usable(s) && |s.best| > 0 && block.prev == s.Tip().Hash()
    ensures var p := Process(r, s, block, sane);
      && Sound(p.state) && !p.isOrphan
      && (p.err.None? ==>
        p.isMainChain && Chain(p.state) == Chain(s) + [block.hash] && p.state.Tip().parent == Some(s.Tip()))
      && (p.err.Some? ==> IsRuleError(p.err.value) && p.state.best == s.best && p.state.ledger == s.ledger)
  {
    hide Sound, Tree, Replay, Accept;
    SoundFacts(s);
    TreeFacts(s);
    if block.hash !in s.index && sane {
      NodeFacts(s, s.Tip());
      AcceptOnTip(r, s, block);
    }
  }

  /** A block on top of the tip, exactly: what each check leads to. */
  lemma ProcessCases(r: Rules, s: ChainState, block: Block, sane: bool)
    requires Sound(s) && Usable(s) && |s.best| > 0 && block.prev == s.Tip().Hash()
    ensures Linked(s.Tip())
    ensures var p, n := Process(r, s, block, sane), ChildOf(block, s.Tip());
      && (block.hash in s.index ==> p == Processed(s, false, false, Some(DuplicateBlock)))
      && (block.hash !in s.index && !sane ==> p == Processed(s, false, false, Some(SanityRule)))
      && (block.hash !in s.index && sane && !r.context(block, s.Tip()) ==>
            p == Processed(s, false, false, Some(ContextRule)))
      && (block.hash !in s.index && sane && FailsConnect(r, s, block) ==>
            p == Processed(s.(index := s.index[block.hash := n], status := s.status[block.hash := FAILED_STATUS]),
                   false, false, Some(ConnectRule)))
      && (block.hash !in s.index && sane && Validates(r, s, block) ==> p.err == None)
  {
    hide *;
    SoundFacts(s);
    TreeFacts(s);
    UsableFacts(s);
    TipIndexed(s);
    StatusAt(s, s.Tip());
    ProcessIs(r, s, block, sane);
    ValidatesIs(r, s, block);
    if block.hash !in s.index && sane {
      AcceptUnfold(r, s, block);
      if r.context(block, s.Tip()) {
        ChildFacts(block, s.Tip());
        var n := ChildOf(block, s.Tip());
        AddNodeFacts(s, n);
        var t := AddNode(s, n);
        NodeFacts(t, n);
        NewNotValid(s, n);
        CheckConnectFacts(r, s.ledger, n);
        ConnectBestUnfold(r, t, n);
        MarkFailed(s.status, n);
      }
    }
  }

  const FAILED_STATUS := NEW_STATUS.(validateFailed := true)

  lemma ProcessIs(r: Rules, s: ChainState, block: Block, sane: bool)
    requires Tree(s) && Replay(s.best) == Some(s.ledger)
    ensures block.hash in s.index ==> Process(r, s, block, sane) == Processed(s, false, false, Some(DuplicateBlock))
    ensures block.hash !in s.index && !sane ==>
      Process(r, s, block, sane) == Processed(s, false, false, Some(SanityRule))
    ensures block.hash !in s.index && sane && block.prev in s.index ==>
      var o := Accept(r, s, block);
      Process(r, s, block, sane) ==
        if o.result.Done? then Processed(o.state, o.result.isMainChain, false, None)
        else Processed(o.state, false, false, Some(o.result.error))
  {
    hide Tree, Replay, Accept;
  }

  lemma ValidatesIs(r: Rules, s: ChainState, block: Block)
    requires |s.best| > 0 && Linked(s.Tip())
    ensures Validates(r, s, block) <==> r.context(block, s.Tip()) && CheckConnect(r, s.ledger, ChildOf(block, s.Tip()))
    ensures FailsConnect(r, s, block) <==>
      r.context(block, s.Tip()) && !CheckConnect(r, s.ledger, ChildOf(block, s.Tip()))
  {
  }

  lemma NewNotValid(s: ChainState, n: BlockNode)
    ensures !AddNode(s, n).KnownValid(n)
  {
  }

  lemma MarkFailed(status: Statuses, n: BlockNode)
    ensures n.Hash() in status[n.Hash() := NEW_STATUS]
    ensures MarkOne(status[n.Hash() := NEW_STATUS], n, ValidateFailed) == status[n.Hash() := FAILED_STATUS]
  {
  }

  /** A block on top of the tip that is refused by a rule changes the state exactly when
      it is new and sane, and passes the rules of its context but not those of
      connecting. Then it is in the index, failed, and from then on a duplicate. */
  lemma RuleViolation(r: Rules, s: ChainState, block: Block, sane: bool)
    requires Sound(s) && Usable(s) && |s.best| > 0 && block.prev == s.Tip().Hash()
    requires Process(r, s, block, sane).err.Some?
    ensures Linked(s.Tip())
    ensures var p, n := Process(r, s, block, sane), ChildOf(block, s.Tip());
      && (p.state != s <==> block.hash !in s.index && sane && FailsConnect(r, s, block))
      && (p.state != s ==>
            && p.state == s.(index := s.index[block.hash := n], status := s.status[block.hash := FAILED_STATUS])
            && p.err == Some(ConnectRule)
            && Usable(p.state)
            && (forall again ::
                  Process(r, p.state, block, again) == Processed(p.state, false, false, Some(DuplicateBlock))))
  {
    hide *;
    SoundFacts(s);
    TreeFacts(s);
    ProcessCases(r, s, block, sane);
    ValidatesIs(r, s, block);
    ProcessOnTip(r, s, block, sane);
    var p := Process(r, s, block, sane);
    SoundUsable(p.state);
    UsableFacts(p.state);
    if block.hash in p.state.index {
      forall again: bool | true
        ensures Process(r, p.state, block, again) == Processed(p.state, false, false, Some(DuplicateBlock))
      {
        ProcessIs(r, p.state, block, again);
      }
    }
  }

  lemma AcceptOnTip(r: Rules, s: ChainState, block: Block)
    requires Sound(s) && Usable(s) && |s.best| > 0 && block.prev == s.Tip().Hash() && block.hash !in s.index
    ensures var o := Accept(r, s, block);
      && Sound(o.state) && |o.state.best| > 0
      && (o.result.Done? ==>
           o.result == Done(true) && Chain(o.state) == Chain(s) + [block.hash] && o.state.Tip().parent == Some(s.Tip()))
      && (o.result.Failed? ==> IsRuleError(o.result.error) && o.state.best == s.best && o.state.ledger == s.ledger)
  {
    hide *;
    SoundFacts(s);
    TreeFacts(s);
    NodeFacts(s, s.Tip());
    AcceptUnfold(r, s, block);
    AcceptSound(r, s, block);
    var o := Accept(r, s, block);
    AcceptedFacts(s, block, o);
    RuleErrors();
    if !s.KnownInvalid(s.Tip()) && r.context(block, s.Tip()) {
      var prev := s.Tip();
      ChildFacts(block, prev);
      var n := ChildOf(block, prev);
      AddNodeFacts(s, n);
      AddNodeTree(s, n);
      var t := AddNode(s, n);
      NodeFacts(t, n);
      ExtendCases(r, t, n);
      TipIs(o.state);
      ChainSnoc(s, o.state, n);
    }
  }

  lemma RuleErrors()
    ensures forall e :: IsRuleError(e) <==> e != AssertionFailed
  {
  }

  lemma ChainSnoc(s: ChainState, t: ChainState, n: BlockNode)
    ensures t.best == s.best + [n] ==> Chain(t) == Chain(s) + [n.Hash()]
  {
  }

  /** connectBestChain on top of the tip: the first of its three branches. */
  lemma ExtendCases(r: Rules, s: ChainState, n: BlockNode)
    requires Tree(s) && s.Has(n) && n.parent.Some? && Replay(s.best) == Some(s.ledger) && n.Hash() in s.status
    requires n.block.prev == s.Tip().Hash()
    ensures var o := ConnectBest(r, s, n);
      || (o.result == Done(true) && o.state.best == s.best + [n])
      || (o.result.Failed? && o.state.best == s.best && o.state.ledger == s.ledger)
  {
    hide Tree, Replay, ReorganizeTo, ConnectNode, CheckConnect, MarkOne;
  }

  // ---- every step keeps the invariant

  /** One more final block, or none. */
  ghost predicate Grown(v: Vm, u: Vm) {
    u.log == v.log || exists d :: u.log == v.log + [d]
  }

  /** Every step, whatever fails in it, keeps the invariant; no final block is ever
      taken back. */
  lemma StepInv(r: Rules, v: Vm, step: Step)
    requires Inv(v) && Enabled(v, step) && Ready(v)
    ensures Inv(Next(r, v, step)) && Grown(v, Next(r, v, step))
  {
    hide Sound, Tree, Replay, Process, Usable, Follows, Running;
    var u := Next(r, v, step);
    match step
    case Verify(_, _, _) => VerifyInv(v, u);
    case Connect(block, sane) => if Admits(v, block) { ConnectInv(r, v, block, sane); }
    case ConnectFault(block, sane, half) => FaultInv(r, v, block, sane, half);
    case Persist(ok) => PersistInv(v, u, ok);
    case Acknowledge => AcknowledgeInv(v, u);
    case Reject(_) => VerifyInv(v, u);
    case Flush => FlushInv(v, u);
    case Crash => SameFinal(v, u);
    case Restart =>
      UsableFacts(v.disk);
      RestartInv(v, u);
  }

  lemma UsableFacts(s: ChainState)
    requires Usable(s)
    ensures Tree(s) && Replay(s.best) == Some(s.ledger) && |s.best| > 0
  {
  }

  lemma SameFinal(v: Vm, u: Vm)
    ensures u.log == v.log ==> Final(u) == Final(v)
  {
  }

  lemma RunningFacts(v: Vm)
    requires Inv(v) && v.up
    ensures |v.log| > 0 && Follows(v.disk, Final(v)) && v.orphans == {} && v.lastAccepted == v.log[|v.log| - 1].hash
    ensures v.broken ==> v.progress.Idle? && (v.torn.Some? ==> Follows(v.torn.value, Final(v)))
    ensures !v.broken ==> Sound(v.mem)
    ensures !v.broken && v.progress.Idle? ==> Chain(v.mem) == Final(v) == Chain(v.disk)
    ensures !v.broken && v.progress.InMemory? ==> Chain(v.mem) == Final(v) + [v.progress.block.hash]
    ensures !v.broken && v.progress.OnDisk? ==> Chain(v.mem) == Final(v) + [v.progress.block.hash] == Chain(v.disk)
  {
    hide Sound, Follows;
  }

  lemma RunningIs(v: Vm)
    requires |v.log| > 0 && Follows(v.disk, Final(v)) && v.orphans == {} && v.lastAccepted == v.log[|v.log| - 1].hash
    requires v.broken ==> v.progress.Idle? && (v.torn.Some? ==> Follows(v.torn.value, Final(v)))
    requires !v.broken ==> Sound(v.mem)
    requires !v.broken && v.progress.Idle? ==> Chain(v.mem) == Final(v) == Chain(v.disk)
    requires !v.broken && v.progress.InMemory? ==> Chain(v.mem) == Final(v) + [v.progress.block.hash]
    requires !v.broken && v.progress.OnDisk? ==> Chain(v.mem) == Final(v) + [v.progress.block.hash] == Chain(v.disk)
    ensures Inv(v)
  {
    hide Sound, Follows;
  }

  lemma FollowsIs(s: ChainState, final: seq<Hash>, h: Hash)
    requires Sound(s) && (Chain(s) == final || Chain(s) == final + [h])
    ensures Follows(s, final)
  {
    hide Sound, Chain;
  }

  lemma VerifyInv(v: Vm, u: Vm)
    requires Inv(v) && v.up && u == v.(verified := u.verified)
    ensures Inv(u)
  {
    hide *;
    RunningFacts(v);
    SameFinal(v, u);
    RunningIs(u);
  }

  /** The parent check of Accept is a check against the tip. */
  lemma OnTip(v: Vm, block: Block)
    requires Inv(v) && v.up && v.progress.Idle? && Admits(v, block)
    ensures Sound(v.mem) && |v.mem.best| > 0 && block.prev == v.mem.Tip().Hash()
  {
    hide Sound, Follows, Chain, Final;
    TipIs(v.mem);
  }

  lemma ConnectInv(r: Rules, v: Vm, block: Block, sane: bool)
    requires Inv(v) && v.up && v.progress.Idle? && Admits(v, block) && Usable(v.mem)
    ensures Inv(Connected(r, v, block, sane)) && Connected(r, v, block, sane).log == v.log
    ensures !Connected(r, v, block, sane).broken
  {
    hide *;
    RunningFacts(v);
    OnTip(v, block);
    AdmitsIs(v, block);
    ProcessOnTip(r, v.mem, block, sane);
    RuleErrors();
    var u := Connected(r, v, block, sane);
    ConnectedIs(r, v, block, sane);
    SameFinal(v, u);
    SameChain(v.mem, u.mem);
    RunningIs(u);
  }

  lemma AdmitsIs(v: Vm, block: Block)
    ensures Admits(v, block) <==> block.prev == v.lastAccepted && !v.broken
  {
  }

  lemma SameChain(s: ChainState, t: ChainState)
    ensures s.best == t.best ==> Chain(s) == Chain(t)
  {
  }

  lemma ConnectedIs(r: Rules, v: Vm, block: Block, sane: bool)
    requires Usable(v.mem) && Admits(v, block)
    ensures
      var p := Process(r, v.mem, block, sane);
      var u := v.(mem := p.state);
      !p.isOrphan ==>
        && (p.err.Some? && IsRuleError(p.err.value) ==> Connected(r, v, block, sane) == u)
        && (p.err.None? && p.isMainChain ==> Connected(r, v, block, sane) == u.(progress := InMemory(block)))
  {
    hide Process;
  }

  lemma FaultInv(r: Rules, v: Vm, block: Block, sane: bool, half: ChainState)
    requires Inv(v) && v.up && v.progress.Idle? && Admits(v, block) && Usable(v.mem)
    ensures Inv(v.(mem := half, broken := true, torn := Some(Process(r, v.mem, block, sane).state)))
  {
    hide *;
    RunningFacts(v);
    AdmitsIs(v, block);
    OnTip(v, block);
    UsableFacts(v.mem);
    ProcessOnTip(r, v.mem, block, sane);
    var torn := Process(r, v.mem, block, sane).state;
    SameChain(v.mem, torn);
    FollowsIs(torn, Final(v), block.hash);
    var u := v.(mem := half, broken := true, torn := Some(torn));
    SameFinal(v, u);
    RunningIs(u);
  }

  lemma PersistInv(v: Vm, u: Vm, ok: bool)
    requires Inv(v) && v.up && v.progress.InMemory?
    requires u == if ok then v.(disk := v.mem, progress := OnDisk(v.progress.block))
                  else v.(broken := true, torn := Some(v.mem), progress := Idle)
    ensures Inv(u)
  {
    hide *;
    RunningFacts(v);
    SameFinal(v, u);
    FollowsIs(v.mem, Final(v), v.progress.block.hash);
    RunningIs(u);
  }

  lemma AcknowledgeInv(v: Vm, u: Vm)
    requires Inv(v) && v.up && v.progress.OnDisk?
    requires u.mem == v.mem && u.disk == v.disk && u.orphans == v.orphans && u.broken == v.broken && u.up == v.up
    requires u.progress == Idle && u.lastAccepted == v.progress.block.hash
    requires u.log == v.log + [Acked(v.progress.block.hash)]
    ensures Inv(u)
  {
    hide *;
    RunningFacts(v);
    var h := v.progress.block.hash;
    MoreFinal(v, u, Acked(h));
    DiskSound(v.disk, Final(v));
    FollowsIs(v.disk, Final(u), h);
    RunningIs(u);
  }

  lemma DiskSound(s: ChainState, final: seq<Hash>)
    requires Follows(s, final)
    ensures Sound(s)
  {
    hide Sound;
  }

  lemma MoreFinal(v: Vm, u: Vm, d: Decision)
    ensures u.log == v.log + [d] ==> Final(u) == Final(v) + [d.hash]
  {
  }

  lemma FlushInv(v: Vm, u: Vm)
    requires Inv(v) && v.up
    requires u == if !v.broken then v.(disk := v.mem) else if v.torn.Some? then v.(disk := v.torn.value) else v
    ensures Inv(u)
  {
    hide *;
    RunningFacts(v);
    SameFinal(v, u);
    if !v.broken { FollowsIs(v.mem, Final(v), if v.progress.Idle? then 0 else v.progress.block.hash); }
    RunningIs(u);
  }

  /** A restart takes the chain on disk for final; the block it may be ahead by is
      recovered. */
  lemma RestartInv(v: Vm, u: Vm)
    requires Inv(v) && Usable(v.disk) && |v.disk.best| > 0
    requires var tip := v.disk.Tip().Hash();
      u == Vm(v.disk, v.disk, None, tip, map[], {}, false, Idle, true,
        if v.log != [] && v.log[|v.log| - 1].hash == tip then v.log else v.log + [Recovered(tip)])
    ensures Inv(u)
  {
    hide *;
    InvDisk(v);
    TipIs(v.disk);
    var tip := v.disk.Tip().Hash();
    MoreFinal(v, u, Recovered(tip));
    SameFinal(v, u);
    ChainDistinct(v.disk);
    var n := |v.log|;
    assert Chain(v.disk)[|Chain(v.disk)| - 1] == tip;
    if Chain(v.disk) == Final(v) {
      assert v.log[n - 1].hash == tip;
    } else {
      var h :| Chain(v.disk) == Final(v) + [h];
      assert Chain(v.disk)[n - 1] == v.log[n - 1].hash != Chain(v.disk)[n] == tip;
    }
    FollowsIs(v.disk, Final(u), tip);
    RunningIs(u);
  }

  lemma InvDisk(v: Vm)
    requires Inv(v)
    ensures |v.log| > 0 && Sound(v.disk)
    ensures Chain(v.disk) == Final(v) || exists h :: Chain(v.disk) == Final(v) + [h]
  {
    hide Sound, Chain;
  }

  /** No block is twice on the best chain. */
  lemma ChainDistinct(s: ChainState)
    requires Sound(s)
    ensures forall i, j :: 0 <= i < j < |Chain(s)| ==> Chain(s)[i] != Chain(s)[j]
  {
    hide *;
    SoundFacts(s);
    TreeFacts(s);
    forall i, j | 0 <= i < j < |Chain(s)|
      ensures Chain(s)[i] != Chain(s)[j]
    {
      PathDistinct(s, s.Tip(), i, j);
    }
  }

  // ---- runs

  /** A VM that has just been initialized from a chain on disk. */
  ghost predicate Started(v: Vm) {
    && Sound(v.disk) && Tree(v.disk)
    && v.log != []
    && v == Vm(v.disk, v.disk, None, v.disk.Tip().Hash(), map[], {}, false, Idle, true, v.log)
    && Final(v) == Chain(v.disk)
    && forall d :: d in v.log ==> d.Recovered?
  }

  ghost predicate Takes(r: Rules, v: Vm, step: Step, u: Vm) {
    Enabled(v, step) && Ready(v) && u == Next(r, v, step)
  }

  ghost predicate IsRun(r: Rules, vms: seq<Vm>, steps: seq<Step>) {
    && |vms| == |steps| + 1
    && Started(vms[0])
    && forall i :: 0 <= i < |steps| ==> Takes(r, vms[i], steps[i], vms[i + 1])
  }

  lemma StartedInv(v: Vm)
    requires Started(v)
    ensures Inv(v)
  {
    hide Sound, Tree;
    TipIs(v.disk);
    assert Chain(v.disk)[|v.log| - 1] == v.log[|v.log| - 1].hash;
  }

  lemma RunFacts(r: Rules, vms: seq<Vm>, steps: seq<Step>)
    requires IsRun(r, vms, steps)
    ensures |vms| == |steps| + 1 && Started(vms[0])
    ensures forall i :: 0 <= i < |steps| ==> Takes(r, vms[i], steps[i], vms[i + 1])
  {
    hide Started, Takes;
  }

  lemma TakesFacts(r: Rules, v: Vm, step: Step, u: Vm)
    requires Takes(r, v, step, u)
    ensures Enabled(v, step) && Ready(v) && u == Next(r, v, step)
  {
    hide Next, Ready, Enabled;
  }

  /** Through every interleaving of accepts, failures, crashes and restarts. */
  lemma {:induction false} RunInv(r: Rules, vms: seq<Vm>, steps: seq<Step>, i: nat)
    requires IsRun(r, vms, steps) && i < |vms|
    ensures Inv(vms[i]) && (i > 0 ==> Grown(vms[i - 1], vms[i]))
  {
    hide *;
    RunFacts(r, vms, steps);
    if i == 0 {
      StartedInv(vms[0]);
    } else {
      RunInv(r, vms, steps, i - 1);
      TakesFacts(r, vms[i - 1], steps[i - 1], vms[i]);
      StepInv(r, vms[i - 1], steps[i - 1]);
    }
  }

  /** Final blocks stay final, in their order. */
  lemma {:induction false} FinalGrows(r: Rules, vms: seq<Vm>, steps: seq<Step>, i: nat, j: nat)
    requires IsRun(r, vms, steps) && i <= j < |vms|
    ensures vms[i].log <= vms[j].log && Final(vms[i]) <= Final(vms[j])
    decreases j
  {
    hide *;
    if i < j {
      FinalGrows(r, vms, steps, i, j - 1);
      RunInv(r, vms, steps, j);
      GrownFacts(vms[j - 1], vms[j]);
    }
  }

  lemma GrownFacts(v: Vm, u: Vm)
    requires Grown(v, u)
    ensures v.log <= u.log && Final(v) <= Final(u)
  {
  }

  /** Durability: at every moment of every run the chain on disk is the final blocks
      so far and at most one block more, whatever failed and whenever the process
      died. So a block whose Accept returned nil is on disk from then on, at the
      same height. */
  lemma Durable(r: Rules, vms: seq<Vm>, steps: seq<Step>, i: nat, j: nat)
    requires IsRun(r, vms, steps) && i <= j < |vms|
    ensures Sound(vms[j].disk)
    ensures Final(vms[j]) <= Chain(vms[j].disk) && |Chain(vms[j].disk)| <= |Final(vms[j])| + 1
    ensures Final(vms[i]) <= Chain(vms[j].disk)
    ensures forall k :: 0 <= k < |vms[i].log| ==>
      k < |vms[j].disk.best| && vms[j].disk.best[k].Hash() == vms[i].log[k].hash && vms[j].disk.best[k].height == k
  {
    hide *;
    RunInv(r, vms, steps, j);
    InvDisk(vms[j]);
    FinalGrows(r, vms, steps, i, j);
    SoundFacts(vms[j].disk);
    TreeFacts(vms[j].disk);
  }

  /** Finality: while the VM is not broken and no Accept is under way, the tip is the
      last accepted block, and disk and memory hold exactly the final blocks. */
  lemma TipIsLastAccepted(r: Rules, vms: seq<Vm>, steps: seq<Step>, i: nat)
    requires IsRun(r, vms, steps) && i < |vms|
    requires vms[i].up && !vms[i].broken && vms[i].progress.Idle?
    ensures var v := vms[i];
      && Sound(v.mem) && |v.mem.best| > 0
      && Chain(v.mem) == Chain(v.disk) == Final(v)
      && v.lastAccepted == v.mem.Tip().Hash() == v.mem.snapshot.hash
      && v.mem.snapshot.height == |v.log| - 1
      && v.orphans == {}
  {
    hide *;
    RunInv(r, vms, steps, i);
    var v := vms[i];
    RunningFacts(v);
    SoundFacts(v.mem);
    TreeFacts(v.mem);
    TipIs(v.mem);
    SnapshotTip(v.mem);
  }

  lemma SnapshotTip(s: ChainState)
    requires Sound(s) && |s.best| > 0
    ensures s.snapshot.hash == s.best[|s.best| - 1].Hash() && s.snapshot.height == s.best[|s.best| - 1].height
  {
    hide Tree, Replay, ValidReplays;
  }

  /** An Accept never moves the chain but by one block on top: no block is ever
      disconnected, and neither an orphan nor a side chain is what breaks the VM. */
  lemma AcceptExtends(r: Rules, vms: seq<Vm>, steps: seq<Step>, i: nat)
    requires IsRun(r, vms, steps) && i < |steps| && steps[i].Connect?
    ensures var v, u := vms[i], vms[i + 1];
      && u.broken == v.broken && u.orphans == v.orphans && u.log == v.log
      && (u.mem.best == v.mem.best ||
           (Chain(u.mem) == Chain(v.mem) + [steps[i].block.hash] && u.progress == InMemory(steps[i].block)
             && Admits(v, steps[i].block)))
  {
    hide *;
    RunFacts(r, vms, steps);
    RunInv(r, vms, steps, i);
    var v, u, block, sane := vms[i], vms[i + 1], steps[i].block, steps[i].sane;
    TakesFacts(r, v, steps[i], u);
    ConnectStep(r, v, block, sane);
    if Admits(v, block) {
      OnTip(v, block);
      AdmitsIs(v, block);
      ReadyFacts(v);
      UsableFacts(v.mem);
      ProcessOnTip(r, v.mem, block, sane);
      ConnectedIs(r, v, block, sane);
    }
  }

  lemma ConnectStep(r: Rules, v: Vm, block: Block, sane: bool)
    requires Enabled(v, Connect(block, sane)) && Ready(v)
    ensures v.up && v.progress.Idle?
    ensures !Admits(v, block) ==> Next(r, v, Connect(block, sane)) == v
    ensures Admits(v, block) ==> Usable(v.mem) && Next(r, v, Connect(block, sane)) == Connected(r, v, block, sane)
  {
    hide Usable, Connected;
  }

  lemma ReadyFacts(v: Vm)
    requires Ready(v)
    ensures v.up && !v.broken ==> Usable(v.mem)
  {
    hide Usable;
  }

  /** Accepted heights rise by one: the k-th final block has height k. */
  lemma AcceptedHeight(r: Rules, vms: seq<Vm>, steps: seq<Step>, i: nat)
    requires IsRun(r, vms, steps) && i < |steps| && steps[i].Acknowledge?
    ensures var v, u := vms[i], vms[i + 1];
      && |u.log| == |v.log| + 1 && |u.mem.best| > 0
      && u.mem.Tip().height == |v.log| && u.lastAccepted == u.mem.Tip().Hash() == u.log[|v.log|].hash
  {
    hide *;
    RunFacts(r, vms, steps);
    RunInv(r, vms, steps, i);
    RunInv(r, vms, steps, i + 1);
    TakesFacts(r, vms[i], steps[i], vms[i + 1]);
    AcknowledgeStep(r, vms[i]);
    RunningFacts(vms[i]);
    RunningFacts(vms[i + 1]);
    SoundFacts(vms[i].mem);
    TreeFacts(vms[i].mem);
    TipIs(vms[i].mem);
  }

  lemma AcknowledgeStep(r: Rules, v: Vm)
    requires Enabled(v, Acknowledge) && Ready(v)
    ensures v.up && v.progress.OnDisk?
    ensures var u := Next(r, v, Acknowledge);
      && u.up && u.mem == v.mem && u.broken == v.broken && u.lastAccepted == v.progress.block.hash
      && u.log == v.log + [Acked(v.progress.block.hash)]
  {
  }

  /** A sibling of a final block is never accepted afterwards: its parent is not the
      last accepted block again, so Accept refuses it and changes nothing. */
  lemma SiblingRefused(r: Rules, vms: seq<Vm>, steps: seq<Step>, i: nat, j: nat, k: nat, sibling: Block)
    requires IsRun(r, vms, steps) && i <= j < |vms| && 0 < k < |vms[i].log|
    requires sibling.prev == vms[i].log[k - 1].hash
    ensures vms[j].up ==> sibling.prev != vms[j].lastAccepted && !Admits(vms[j], sibling)
  {
    hide *;
    FinalGrows(r, vms, steps, i, j);
    Durable(r, vms, steps, j, j);
    RunInv(r, vms, steps, j);
    ChainDistinct(vms[j].disk);
    AdmitsIs(vms[j], sibling);
    if vms[j].up {
      RunningFacts(vms[j]);
      var last := |vms[j].log| - 1;
      assert Chain(vms[j].disk)[k - 1] == Final(vms[j])[k - 1];
      assert Chain(vms[j].disk)[last] == Final(vms[j])[last];
    }
  }
}
