/**
 What becomes of a single frame under any interleaving: with which faults it is still stored, when it gets its
 synthetic receipt, and how recent the backlink is that it puts on a new chain.
 */
module PipelineFrames {
  import opened Receipts
  import opened ChainState
  import opened PipelineMachine
  import opened PipelineInvariant
  import PS = PipelineSteps
  import PT = PipelineTheorems

  // ---------- faults ----------

  predicate OnSynthetic(pc: Pc) {
    (pc.Build? || pc.Insert?) && pc.half.Synthetic?
  }

  /** The step is no fault, or, unless `strict`, only the synthetic receipt fails. */
  predicate Spared(w: World, s: Step, strict: bool) {
    s.Go? ==> s.choice.ok || (!strict && s.actor in w.pcs && OnSynthetic(w.pcs[s.actor]))
  }

  /** No step of the run is a fault, or none but on synthetic receipts. */
  ghost predicate RunSpared(w: World, steps: seq<Step>, strict: bool)
    decreases |steps|
  {
    steps == [] ||
    (Enabled(w, steps[0]) && Spared(w, steps[0], strict) && RunSpared(Next(w, steps[0]), steps[1..], strict))
  }

  /** A frame that reports drops has its synthetic receipt, for certain if `strict`; another one has none. */
  predicate DropFits(drops: bool, synthetic: bool, strict: bool) {
    (synthetic ==> drops) && (strict && drops ==> synthetic)
  }

  predicate HalfFits(drops: bool, half: Half, strict: bool) {
    match half
    case Synthetic => drops
    case LiveHalf(s) => DropFits(drops, s.Some?, strict)
  }

  /** Where a call can be when nothing but perhaps its synthetic receipt has failed. */
  predicate Fits(f: Frame, pc: Pc, strict: bool) {
    var drops := f.dropCount > 0;
    match pc
    case Build(half, _, _, _, _) => f.valid && HalfFits(drops, half, strict)
    case Insert(half, _, _, _) => f.valid && HalfFits(drops, half, strict)
    case Commit(half, _, _) => f.valid && HalfFits(drops, half, strict)
    case Abort(half, _) => f.valid && !strict && half.Synthetic? && drops
    case Observe(_, s) => f.valid && DropFits(drops, s.Some?, strict)
    case Done(Failed(s)) => !f.valid && s == None
    case Done(Stored(_, s)) => f.valid && DropFits(drops, s.Some?, strict)
    case _ => f.valid && DropFits(drops, pc.mode.WithDrop?, strict)
  }

  ghost predicate AllFit(w: World, strict: bool) {
    forall a :: a in w.pcs && a in w.frames ==> Fits(w.frames[a], w.pcs[a], strict)
  }

  lemma StepFits(w: World, a: Actor, c: Choice, strict: bool)
    requires CanGo(w, a, c) && Spared(w, Go(a, c), strict) && Fits(w.frames[a], w.pcs[a], strict)
    ensures a in GoNext(w, a, c).pcs && Fits(w.frames[a], GoNext(w, a, c).pcs[a], strict)
    ensures GoNext(w, a, c).frames == w.frames
  {
    match w.pcs[a]
    case Lookup(_) => LookupFits(w, a, strict);
    case FastSeq(_, _) => FastSeqFits(w, a, strict);
    case FastDelegation(_, _) => DelegationFits(w, a, strict);
    case Load(_) => LoadFits(w, a, c.pick, strict);
    case SlowDelegation(_, _) => DelegationFits(w, a, strict);
    case Install(_, _, _) => InstallFits(w, a, strict);
    case RaceSeq(_, _, _) => RaceSeqFits(w, a, strict);
    case Ready(_, _, _) => AllocateFits(w, a, strict);
    case Build(_, _, _, _, _) => BuildFits(w, a, c.ok, c.pick, strict);
    case Insert(_, _, _, _) => InsertFits(w, a, c.ok, strict);
    case Commit(_, _, _) => CommitFits(w, a, strict);
    case Abort(_, _) => AbortFits(w, a, strict);
    case Observe(_, _) =>
  }

  /** The call is where it may be, and its next place is one too; no frame changes. */
  ghost predicate MovesFit(w: World, w': World, a: Actor, strict: bool) {
    && a in w.frames && w'.frames == w.frames && a in w'.pcs && Fits(w.frames[a], w'.pcs[a], strict)
  }

  ghost predicate IsFit(w: World, a: Actor, strict: bool) {
    a in w.pcs && a in w.frames && Fits(w.frames[a], w.pcs[a], strict) && (HasRef(w.pcs[a]) ==> w.pcs[a].ref in w.heap)
  }

  lemma LookupFits(w: World, a: Actor, strict: bool)
    requires IsFit(w, a, strict) && w.pcs[a].Lookup?
    ensures MovesFit(w, LookupStep(w, a), a, strict)
  {
  }

  lemma FastSeqFits(w: World, a: Actor, strict: bool)
    requires IsFit(w, a, strict) && w.pcs[a].FastSeq?
    ensures MovesFit(w, FastSeqStep(w, a), a, strict)
  {
  }

  lemma DelegationFits(w: World, a: Actor, strict: bool)
    requires IsFit(w, a, strict) && (w.pcs[a].FastDelegation? || w.pcs[a].SlowDelegation?)
    ensures w.pcs[a].FastDelegation? ==> MovesFit(w, FastDelegationStep(w, a, true), a, strict)
    ensures w.pcs[a].SlowDelegation? ==> MovesFit(w, SlowDelegationStep(w, a, true), a, strict)
  {
  }

  lemma LoadFits(w: World, a: Actor, pick: nat, strict: bool)
    requires IsFit(w, a, strict) && w.pcs[a].Load?
    ensures MovesFit(w, LoadStep(w, a, true, pick), a, strict)
  {
  }

  lemma InstallFits(w: World, a: Actor, strict: bool)
    requires IsFit(w, a, strict) && w.pcs[a].Install?
    ensures MovesFit(w, InstallStep(w, a), a, strict)
  {
  }

  lemma RaceSeqFits(w: World, a: Actor, strict: bool)
    requires IsFit(w, a, strict) && w.pcs[a].RaceSeq?
    ensures MovesFit(w, RaceSeqStep(w, a), a, strict)
  {
  }

  lemma AllocateFits(w: World, a: Actor, strict: bool)
    requires IsFit(w, a, strict) && w.pcs[a].Ready?
    ensures MovesFit(w, AllocateStep(w, a), a, strict)
  {
  }

  lemma BuildFits(w: World, a: Actor, ok: bool, id: nat, strict: bool)
    requires IsFit(w, a, strict) && w.pcs[a].Build? && (ok || (!strict && w.pcs[a].half.Synthetic?))
    ensures MovesFit(w, BuildStep(w, a, ok, id), a, strict)
  {
  }

  lemma InsertFits(w: World, a: Actor, ok: bool, strict: bool)
    requires IsFit(w, a, strict) && w.pcs[a].Insert? && (ok || (!strict && w.pcs[a].half.Synthetic?))
    ensures MovesFit(w, InsertStep(w, a, ok), a, strict)
  {
  }

  lemma CommitFits(w: World, a: Actor, strict: bool)
    requires IsFit(w, a, strict) && w.pcs[a].Commit?
    ensures MovesFit(w, CommitStep(w, a), a, strict)
  {
  }

  lemma AbortFits(w: World, a: Actor, strict: bool)
    requires IsFit(w, a, strict) && w.pcs[a].Abort?
    ensures MovesFit(w, AbortStep(w, a), a, strict)
  {
  }

  lemma {:induction false} RunFits(w: World, steps: seq<Step>, w': World, strict: bool)
    requires AllFit(w, strict) && Runs(w, steps, w') && RunSpared(w, steps, strict)
    ensures AllFit(w', strict)
    decreases |steps|
  {
    if steps != [] {
      var s := steps[0];
      if s.Go? {
        StepFits(w, s.actor, s.choice, strict);
        PT.GoMovesOwn(w, s.actor, s.choice);
      }
      RunFits(Next(w, s), steps[1..], w', strict);
    }
  }

  /** The live receipt of the call is stored, and if `pair` a synthetic one directly before it. */
  ghost predicate IsStored(w: World, a: Actor, k: string, pair: bool) {
    exists i :: 0 <= i < |ChainAt(w.store, k)| && ChainAt(w.store, k)[i].kind == Live(a) &&
                (pair ==> i > 0 && ChainAt(w.store, k)[i - 1].kind == EventsDropped(a))
  }

  lemma DoneIsStored(w: World, a: Actor)
    requires a in w.pcs && a in w.frames && ActorOk(w, a) && w.pcs[a].Done? && w.pcs[a].outcome.Stored?
    ensures IsStored(w, a, KeyOf(w, a), w.pcs[a].outcome.synthetic.Some?)
  {
    var i := w.pcs[a].outcome.live.sequence - 1;
    assert ChainAt(w.store, KeyOf(w, a))[i].kind == Live(a);
  }

  /** The call stored a synthetic receipt somewhere. */
  ghost predicate HasSynthetic(w: World, a: Actor) {
    exists k, i :: k in w.store && 0 <= i < |w.store[k]| && w.store[k][i].kind == EventsDropped(a)
  }

  lemma SyntheticIsAccounted(w: World, a: Actor)
    requires Inv(w) && a in w.pcs && a in w.frames && HasSynthetic(w, a)
    ensures SyntheticOf(w.pcs[a]).Some?
  {
    var k, i :| k in w.store && 0 <= i < |w.store[k]| && w.store[k][i].kind == EventsDropped(a);
    assert ReceiptAccounted(w, a, k, w.store[k][i]);
  }

  /**
   In a run without faults every valid frame that has returned is stored, its synthetic receipt in front exactly if
   it reports drops; an invalid one is not.
   */
  lemma FaultFreeRun(root: string, signer: PublicKey, st: Store, steps: seq<Step>, w: World, a: Actor)
    requires PT.Reached(root, signer, st, steps, w) && RunSpared(Initial(root, signer, st), steps, true)
    requires a in w.pcs && w.pcs[a].Done?
    ensures a in w.frames && (w.pcs[a].outcome.Stored? <==> w.frames[a].valid)
    ensures w.frames[a].valid ==> IsStored(w, a, KeyOf(w, a), w.frames[a].dropCount > 0)
    ensures w.frames[a].dropCount == 0 ==> !HasSynthetic(w, a)
  {
    PT.ReachedInv(root, signer, st, steps, w);
    RunFits(Initial(root, signer, st), steps, w, true);
    assert ActorOk(w, a);
    if w.frames[a].valid {
      DoneIsStored(w, a);
    }
    if HasSynthetic(w, a) {
      SyntheticIsAccounted(w, a);
    }
  }

  /** If only synthetic receipts fail, every valid frame still gets its live receipt: the fallback works. */
  lemma FallbackStores(root: string, signer: PublicKey, st: Store, steps: seq<Step>, w: World, a: Actor)
    requires PT.Reached(root, signer, st, steps, w) && RunSpared(Initial(root, signer, st), steps, false)
    requires a in w.pcs && w.pcs[a].Done?
    ensures a in w.frames && (w.pcs[a].outcome.Stored? <==> w.frames[a].valid)
    ensures w.frames[a].valid ==> IsStored(w, a, KeyOf(w, a), w.pcs[a].outcome.synthetic.Some?)
    ensures w.frames[a].dropCount == 0 ==> !HasSynthetic(w, a)
  {
    PT.ReachedInv(root, signer, st, steps, w);
    RunFits(Initial(root, signer, st), steps, w, false);
    assert ActorOk(w, a);
    if w.frames[a].valid {
      DoneIsStored(w, a);
    }
    if HasSynthetic(w, a) {
      SyntheticIsAccounted(w, a);
    }
  }

  // ---------- how recent a backlink is ----------

  function LinkOf(pc: Pc): Backlink {
    match pc
    case Install(_, _, link) => link
    case RaceSeq(_, _, link) => link
    case Ready(_, _, link) => link
    case Build(_, _, _, _, link) => link
    case Insert(_, _, _, link) => link
    case _ => NO_BACKLINK
  }

  /** The call has looked at a root chain of at least `n` receipts, if it has looked at all. */
  predicate SeesAtLeast(w: World, a: Actor, n: nat) {
    a in w.pcs && LinkOf(w.pcs[a]).seen.Some? ==> LinkOf(w.pcs[a]).seen.value >= n
  }

  predicate IsBy(r: Receipt, a: Actor) {
    r.kind == Live(a) || r.kind == EventsDropped(a)
  }

  /** A chain that the call has begun carries what it saw then. */
  ghost predicate BeganWith(w: World, a: Actor, n: nat) {
    forall k :: k != w.root && ChainAt(w.store, k) != [] && IsBy(ChainAt(w.store, k)[0], a) ==>
                  k in w.firstSeen && w.firstSeen[k] >= n
  }

  ghost predicate Recent(w: World, a: Actor, n: nat) {
    SeesAtLeast(w, a, n) && BeganWith(w, a, n) && n <= |ChainAt(w.store, w.root)|
  }

  lemma OwnStepSees(w: World, a: Actor, c: Choice, n: nat)
    requires CanGo(w, a, c) && SeesAtLeast(w, a, n) && n <= |ChainAt(w.store, w.root)|
    ensures SeesAtLeast(GoNext(w, a, c), a, n)
  {
  }

  lemma InsertBegan(w: World, b: Actor, a: Actor, n: nat)
    requires Inv(w) && b in w.pcs && b in w.frames && w.pcs[b].Insert? && Recent(w, a, n)
    ensures BeganWith(InsertStep(w, b, true), a, n)
  {
    var w', k, r := InsertStep(w, b, true), KeyOf(w, b), w.pcs[b].receipt;
    assert ActorOk(w, b);
    forall j | j != w.root && ChainAt(w'.store, j) != [] && IsBy(ChainAt(w'.store, j)[0], a)
      ensures j in w'.firstSeen && w'.firstSeen[j] >= n
    {
      PS.AppendAt(w.store, k, r, j);
      if ChainAt(w.store, j) != [] {
        assert ChainAt(w'.store, j)[0] == ChainAt(w.store, j)[0];
      }
    }
  }

  lemma StepRecent(w: World, s: Step, a: Actor, n: nat)
    requires Inv(w) && Enabled(w, s) && Recent(w, a, n)
    ensures Recent(Next(w, s), a, n)
  {
    PT.StepGrows(w, s);
    var w' := Next(w, s);
    assert ChainAt(w.store, w.root) <= ChainAt(w'.store, w.root);
    if s.Go? {
      PT.GoMovesOwn(w, s.actor, s.choice);
      if s.actor == a {
        OwnStepSees(w, a, s.choice, n);
      }
      if w.pcs[s.actor].Insert? && s.choice.ok {
        InsertBegan(w, s.actor, a, n);
      } else {
        QuietStore(w, s.actor, s.choice);
      }
    }
  }

  lemma QuietStore(w: World, a: Actor, c: Choice)
    requires CanGo(w, a, c) && !(w.pcs[a].Insert? && c.ok)
    ensures GoNext(w, a, c).store == w.store && GoNext(w, a, c).firstSeen == w.firstSeen
  {
    if Holding(w.pcs[a]) || Finished(w.pcs[a]) {
      PS.HolderQuiet(w, a, c);
    } else {
      PS.RouteQuiet(w, a, c);
    }
  }

  lemma {:induction false} RunRecent(w: World, steps: seq<Step>, w': World, a: Actor, n: nat)
    requires Inv(w) && Runs(w, steps, w') && Recent(w, a, n)
    ensures Recent(w', a, n)
    decreases |steps|
  {
    if steps != [] {
      PS.StepInv(w, steps[0]);
      StepRecent(w, steps[0], a, n);
      RunRecent(Next(w, steps[0]), steps[1..], w', a, n);
    }
  }

  /**
   A frame that arrives after some moment and begins an agent chain puts a backlink there that names a root receipt
   not older than the tail of that moment; there is none only if the root chain was empty.
   */
  lemma BacklinkIsRecent(root: string, signer: PublicKey, st: Store, steps: seq<Step>, w: World,
                         more: seq<Step>, w': World, a: Actor, k: string)
    requires PT.Reached(root, signer, st, steps, w) && Runs(w, more, w') && NewName(w.store, a) && a !in w.pcs
    requires k != w'.root && ChainAt(w'.store, k) != [] && IsBy(ChainAt(w'.store, k)[0], a)
    ensures var r, d := ChainAt(w'.store, w'.root), ChainAt(w'.store, k)[0].delegation;
            if d == None then ChainAt(w.store, w.root) == []
            else exists i :: |ChainAt(w.store, w.root)| <= i + 1 && 0 <= i < |r| &&
                             d == Some(Delegation(w'.root, r[i].id))
  {
    PT.ReachedInv(root, signer, st, steps, w);
    var n := |ChainAt(w.store, w.root)|;
    assert forall j :: ChainAt(w.store, j) != [] ==> !IsBy(ChainAt(w.store, j)[0], a);
    RunRecent(w, more, w', a, n);
    PT.RunInv(w, more, w');
    LinkIsRecent(w', k, n);
  }

  lemma LinkIsRecent(w: World, k: string, n: nat)
    requires FirstLinksOk(w) && k in w.firstSeen && w.firstSeen[k] >= n
    ensures ChainAt(w.store, k) != []
    ensures var r, d := ChainAt(w.store, w.root), ChainAt(w.store, k)[0].delegation;
            if d == None then n == 0
            else exists i :: n <= i + 1 && 0 <= i < |r| && d == Some(Delegation(w.root, r[i].id))
  {
    var m := w.firstSeen[k];
    assert LinkOk(w, Backlink(ChainAt(w.store, k)[0].delegation, Some(m)));
    if m > 0 {
      var i, r := m - 1, ChainAt(w.store, w.root);
      assert n <= i + 1 && ChainAt(w.store, k)[0].delegation == Some(Delegation(w.root, r[i].id));
    }
  }
}
