/** Every step of every actor keeps the pipeline invariant. */
module PipelineSteps {
  import opened Receipts
  import opened ChainState
  import opened PipelineMachine
  import opened PipelineInvariant

  // ---------- steps that only move a program counter ----------

  ghost predicate OnlyPc(w: World, w': World, a: Actor, pc: Pc) {
    w'.(mapHolder := w.mapHolder) == Set(w, a, pc)
  }

  lemma PcStep(w: World, w': World, a: Actor, pc: Pc)
    requires ActorsOk(w) && ChainsOk(w) && MapOk(w) && a in w.pcs
    requires OnlyPc(w, w', a, pc) && (w'.mapHolder == w.mapHolder || w.mapHolder == None || w.mapHolder == Some(a))
    requires MapOk(w') && ActorOk(w', a)
    requires forall ref :: InCritical(w.pcs[a], ref) ==> InCritical(pc, ref)
    ensures OwnPartOk(w, w', a, 0)
  {
    assert Touches(w, w', a, 0);
    forall k ensures ChainOk(w', k) {
      assert ChainOk(w, k);
    }
  }

  /** Nothing an actor has stored is forgotten by its program counter. */
  predicate Remembers(old_: Pc, new_: Pc) {
    && (LiveOf(old_).Some? ==> LiveOf(new_) == LiveOf(old_))
    && (SyntheticOf(old_).Some? ==> SyntheticOf(new_) == SyntheticOf(old_))
  }

  lemma AccountedKept(w: World, w': World, a: Actor)
    requires Accounted(w) && a in w.pcs && a in w.frames && a in w'.pcs
    requires w'.store == w.store && w'.root == w.root && w'.frames == w.frames
    requires w'.pcs == w.pcs[a := w'.pcs[a]] && Remembers(w.pcs[a], w'.pcs[a])
    ensures Accounted(w')
  {
    forall b, k, i | b in w'.pcs && b in w'.frames && k in w'.store && 0 <= i < |w'.store[k]|
      ensures ReceiptAccounted(w', b, k, w'.store[k][i])
    {
      assert ReceiptAccounted(w, b, k, w.store[k][i]);
    }
  }

  // ---------- getOrCreateAgentState ----------

  lemma LookupKeeps(w: World, a: Actor, c: Choice)
    requires ActorsOk(w) && ChainsOk(w) && MapOk(w) && CanGo(w, a, c) && w.pcs[a].Lookup?
    ensures OwnPartOk(w, LookupStep(w, a), a, 0)
  {
    var k := KeyOf(w, a);
    var w' := LookupStep(w, a);
    assert ChainOk(w, k) && ChainOk(w, w.root);
    PcStep(w, w', a, w'.pcs[a]);
  }

  lemma FastSeqKeeps(w: World, a: Actor, c: Choice)
    requires ActorsOk(w) && ChainsOk(w) && MapOk(w) && CanGo(w, a, c) && w.pcs[a].FastSeq?
    ensures OwnPartOk(w, FastSeqStep(w, a), a, 0)
  {
    var w' := FastSeqStep(w, a);
    assert ChainOk(w, KeyOf(w, a));
    PcStep(w, w', a, w'.pcs[a]);
  }

  lemma FastDelegationKeeps(w: World, a: Actor, c: Choice)
    requires ActorsOk(w) && ChainsOk(w) && MapOk(w) && CanGo(w, a, c) && w.pcs[a].FastDelegation?
    ensures OwnPartOk(w, FastDelegationStep(w, a, c.ok), a, 0)
  {
    var w' := FastDelegationStep(w, a, c.ok);
    PcStep(w, w', a, w'.pcs[a]);
  }

  lemma LoadActorOk(w: World, a: Actor, c: Choice)
    requires ActorsOk(w) && ChainsOk(w) && CanGo(w, a, c) && w.pcs[a].Load? && c.ok
    ensures ActorOk(LoadStep(w, a, c.ok, c.pick), a)
  {
    var k := KeyOf(w, a);
    assert ChainOk(w, k);
    LoadedIsTail(ChainAt(w.store, k), k);
    forall j | j in w.installed ensures w.installed[j] != c.pick {
      assert ChainOk(w, j);
    }
  }

  lemma LoadKeeps(w: World, a: Actor, c: Choice)
    requires ActorsOk(w) && ChainsOk(w) && MapOk(w) && CanGo(w, a, c) && w.pcs[a].Load?
    ensures OwnPartOk(w, LoadStep(w, a, c.ok, c.pick), a, c.pick)
  {
    var w' := LoadStep(w, a, c.ok, c.pick);
    if c.ok {
      LoadActorOk(w, a, c);
    }
    assert Touches(w, w', a, c.pick);
    forall j ensures ChainOk(w', j) {
      assert ChainOk(w, j);
    }
  }

  lemma SlowDelegationKeeps(w: World, a: Actor, c: Choice)
    requires ActorsOk(w) && ChainsOk(w) && MapOk(w) && CanGo(w, a, c) && w.pcs[a].SlowDelegation?
    ensures OwnPartOk(w, SlowDelegationStep(w, a, c.ok), a, 0)
  {
    var w' := SlowDelegationStep(w, a, c.ok);
    PcStep(w, w', a, w'.pcs[a]);
  }

  lemma InstallKeeps(w: World, a: Actor, c: Choice)
    requires ActorsOk(w) && ChainsOk(w) && MapOk(w) && CanGo(w, a, c) && w.pcs[a].Install?
    ensures OwnPartOk(w, InstallStep(w, a), a, w.pcs[a].ref)
  {
    if KeyOf(w, a) in w.installed {
      LosesRace(w, a, c);
    } else {
      InstallsNew(w, a, c);
    }
  }

  lemma LosesRace(w: World, a: Actor, c: Choice)
    requires ActorsOk(w) && ChainsOk(w) && MapOk(w) && CanGo(w, a, c) && w.pcs[a].Install? && KeyOf(w, a) in w.installed
    ensures OwnPartOk(w, InstallStep(w, a), a, w.pcs[a].ref)
  {
    var w' := InstallStep(w, a);
    assert ChainOk(w, KeyOf(w, a));
    PcStep(w, w', a, w'.pcs[a]);
    assert Touches(w, w', a, w.pcs[a].ref);
  }

  lemma InstallsNew(w: World, a: Actor, c: Choice)
    requires ActorsOk(w) && ChainsOk(w) && MapOk(w) && CanGo(w, a, c) && w.pcs[a].Install? &&
             KeyOf(w, a) !in w.installed
    ensures OwnPartOk(w, InstallStep(w, a), a, w.pcs[a].ref)
  {
    var w' := InstallStep(w, a);
    assert ActorOk(w, a);
    assert Touches(w, w', a, w.pcs[a].ref);
    forall j ensures ChainOk(w', j) {
      NewlyInstalledOk(w, a, j);
    }
  }

  lemma NewlyInstalledOk(w: World, a: Actor, j: string)
    requires ActorsOk(w) && ChainsOk(w) && a in w.pcs && a in w.frames && w.pcs[a].Install? &&
             KeyOf(w, a) !in w.installed
    ensures ChainOk(InstallStep(w, a), j)
  {
    assert ActorOk(w, a) && ChainOk(w, j);
  }

  lemma RaceSeqKeeps(w: World, a: Actor, c: Choice)
    requires ActorsOk(w) && ChainsOk(w) && MapOk(w) && CanGo(w, a, c) && w.pcs[a].RaceSeq?
    ensures OwnPartOk(w, RaceSeqStep(w, a), a, 0)
  {
    var w' := RaceSeqStep(w, a);
    assert ChainOk(w, KeyOf(w, a));
    PcStep(w, w', a, w'.pcs[a]);
  }

  // ---------- under the chain mutex ----------

  /** A step of the holder (or of the next holder) that changes only the State `ref` and its own counter. */
  lemma MutexStep(w: World, w': World, a: Actor, ref: nat)
    requires ActorsOk(w) && ChainsOk(w) && MapOk(w) && a in w.pcs && a in w.frames
    requires HasRef(w.pcs[a]) && w.pcs[a].ref == ref && IsInstalled(w, KeyOf(w, a), ref) && MayUse(w, a, ref)
    requires ref in w'.heap && a in w'.pcs && w' == Set(w.(heap := w.heap[ref := w'.heap[ref]]), a, w'.pcs[a])
    requires w'.heap[ref].chain == w.heap[ref].chain
    requires ActorOk(w', a) && MapOk(w') && ChainOk(w', KeyOf(w, a))
    ensures OwnPartOk(w, w', a, ref)
  {
    assert Touches(w, w', a, ref);
    forall j ensures ChainOk(w', j) {
      if j != KeyOf(w, a) {
        OtherChainOk(w, w', a, ref, j);
      }
    }
  }

  lemma AllocateKeeps(w: World, a: Actor, c: Choice)
    requires ActorsOk(w) && ChainsOk(w) && MapOk(w) && CanGo(w, a, c) && w.pcs[a].Ready?
    ensures OwnPartOk(w, AllocateStep(w, a), a, w.pcs[a].ref)
  {
    var w' := AllocateStep(w, a);
    assert ChainOk(w, KeyOf(w, a));
    assert ActorOk(w', a);
    MutexStep(w, w', a, w.pcs[a].ref);
  }

  lemma BuildKeeps(w: World, a: Actor, c: Choice)
    requires ActorsOk(w) && ChainsOk(w) && MapOk(w) && CanGo(w, a, c) && w.pcs[a].Build?
    ensures OwnPartOk(w, BuildStep(w, a, c.ok, c.pick), a, 0)
  {
    var w' := BuildStep(w, a, c.ok, c.pick);
    PcStep(w, w', a, w'.pcs[a]);
  }

  lemma InsertFailKeeps(w: World, a: Actor, c: Choice)
    requires ActorsOk(w) && ChainsOk(w) && MapOk(w) && CanGo(w, a, c) && w.pcs[a].Insert? && !c.ok
    ensures OwnPartOk(w, InsertStep(w, a, c.ok), a, 0)
  {
    var w' := InsertStep(w, a, c.ok);
    PcStep(w, w', a, w'.pcs[a]);
  }

  lemma AppendAt(st: Store, k: string, r: Receipt, j: string)
    ensures ChainAt(Append(st, k, r), j) == if j == k then ChainAt(st, k) + [r] else ChainAt(st, j)
  {
  }

  lemma InsertActorOk(w: World, a: Actor, c: Choice)
    requires ActorsOk(w) && CanGo(w, a, c) && w.pcs[a].Insert? && c.ok
    ensures ActorOk(InsertStep(w, a, c.ok), a)
  {
    var k := KeyOf(w, a);
    AppendAt(w.store, k, w.pcs[a].receipt, k);
  }

  lemma InsertTouches(w: World, a: Actor, c: Choice)
    requires ActorsOk(w) && CanGo(w, a, c) && w.pcs[a].Insert? && c.ok
    ensures Touches(w, InsertStep(w, a, c.ok), a, w.pcs[a].ref)
  {
    var w' := InsertStep(w, a, c.ok);
    var k := KeyOf(w, a);
    forall j
      ensures ChainAt(w'.store, j) == ChainAt(w.store, j) || (j == k && ChainAt(w.store, j) <= ChainAt(w'.store, j))
    {
      AppendAt(w.store, k, w.pcs[a].receipt, j);
    }
  }

  lemma InsertKeeps(w: World, a: Actor, c: Choice)
    requires ActorsOk(w) && ChainsOk(w) && MapOk(w) && CanGo(w, a, c) && w.pcs[a].Insert? && c.ok
    ensures OwnPartOk(w, InsertStep(w, a, c.ok), a, w.pcs[a].ref)
  {
    var w' := InsertStep(w, a, c.ok);
    var k, r := KeyOf(w, a), w.pcs[a].receipt;
    InsertActorOk(w, a, c);
    InsertTouches(w, a, c);
    forall j ensures ChainOk(w', j) {
      AppendAt(w.store, k, r, j);
      assert ChainOk(w, j);
      if j == k {
        LinkedAppend(ChainAt(w.store, k), k, r);
      }
    }
  }

  lemma CommittedView(w: World, a: Actor, c: Choice)
    requires ActorsOk(w) && ChainsOk(w) && CanGo(w, a, c) && w.pcs[a].Commit?
    ensures var r := w.pcs[a].receipt;
            Advanced(r.sequence, HashOf(r)) == TailView(ChainAt(w.store, KeyOf(w, a)))
  {
  }

  lemma CommitActorOk(w: World, a: Actor, c: Choice)
    requires ActorsOk(w) && ChainsOk(w) && CanGo(w, a, c) && w.pcs[a].Commit?
    ensures ActorOk(CommitStep(w, a), a)
  {
    CommittedView(w, a, c);
  }

  /** Whoever is inside the critical section may use the State it holds. */
  lemma HolderMayUse(w: World, a: Actor)
    requires ActorsOk(w) && a in w.pcs && a in w.frames && (w.pcs[a].Commit? || w.pcs[a].Abort?)
    ensures IsInstalled(w, KeyOf(w, a), w.pcs[a].ref) && MayUse(w, a, w.pcs[a].ref)
  {
    assert ActorOk(w, a);
  }

  lemma CommitShape(w: World, a: Actor)
    requires a in w.pcs && w.pcs[a].Commit? && w.pcs[a].ref in w.heap
    ensures var w', ref := CommitStep(w, a), w.pcs[a].ref;
            ref in w'.heap && a in w'.pcs && w' == Set(w.(heap := w.heap[ref := w'.heap[ref]]), a, w'.pcs[a]) &&
            w'.heap[ref].chain == w.heap[ref].chain
  {
  }

  lemma AbortShape(w: World, a: Actor)
    requires a in w.pcs && w.pcs[a].Abort? && w.pcs[a].ref in w.heap
    ensures var w', ref := AbortStep(w, a), w.pcs[a].ref;
            ref in w'.heap && a in w'.pcs && w' == Set(w.(heap := w.heap[ref := w'.heap[ref]]), a, w'.pcs[a]) &&
            w'.heap[ref].chain == w.heap[ref].chain
  {
  }

  lemma CommitChainOk(w: World, a: Actor, c: Choice)
    requires ActorsOk(w) && ChainsOk(w) && CanGo(w, a, c) && w.pcs[a].Commit?
    ensures ChainOk(CommitStep(w, a), KeyOf(w, a))
  {
    assert ChainOk(w, KeyOf(w, a));
    CommittedView(w, a, c);
  }

  lemma CommitKeeps(w: World, a: Actor, c: Choice)
    requires ActorsOk(w) && ChainsOk(w) && MapOk(w) && CanGo(w, a, c) && w.pcs[a].Commit?
    ensures OwnPartOk(w, CommitStep(w, a), a, w.pcs[a].ref)
  {
    var w' := CommitStep(w, a);
    CommitActorOk(w, a, c);
    CommitChainOk(w, a, c);
    CommitShape(w, a);
    HolderMayUse(w, a);
    MutexStep(w, w', a, w.pcs[a].ref);
  }

  lemma AbortActorOk(w: World, a: Actor, c: Choice)
    requires ActorsOk(w) && ChainsOk(w) && CanGo(w, a, c) && w.pcs[a].Abort?
    ensures ActorOk(AbortStep(w, a), a)
  {
  }

  lemma AbortChainOk(w: World, a: Actor, c: Choice)
    requires ActorsOk(w) && ChainsOk(w) && CanGo(w, a, c) && w.pcs[a].Abort?
    ensures ChainOk(AbortStep(w, a), KeyOf(w, a))
  {
    assert ChainOk(w, KeyOf(w, a));
    assert ActorOk(w, a);
  }

  lemma AbortKeeps(w: World, a: Actor, c: Choice)
    requires ActorsOk(w) && ChainsOk(w) && MapOk(w) && CanGo(w, a, c) && w.pcs[a].Abort?
    ensures OwnPartOk(w, AbortStep(w, a), a, w.pcs[a].ref)
  {
    var w' := AbortStep(w, a);
    AbortActorOk(w, a, c);
    AbortChainOk(w, a, c);
    AbortShape(w, a);
    HolderMayUse(w, a);
    MutexStep(w, w', a, w.pcs[a].ref);
  }

  lemma ObserveKeeps(w: World, a: Actor, c: Choice)
    requires ActorsOk(w) && ChainsOk(w) && MapOk(w) && CanGo(w, a, c) && w.pcs[a].Observe?
    ensures OwnPartOk(w, GoNext(w, a, c), a, 0)
  {
    var w' := GoNext(w, a, c);
    PcStep(w, w', a, w'.pcs[a]);
  }

  lemma ArriveKeeps(w: World, a: Actor, f: Frame)
    requires ActorsOk(w) && ChainsOk(w) && MapOk(w) && a !in w.pcs
    ensures OwnPartOk(w, ArriveNext(w, a, f), a, 0)
  {
    var w' := ArriveNext(w, a, f);
    assert Touches(w, w', a, 0);
    forall k ensures ChainOk(w', k) {
      assert ChainOk(w, k);
    }
  }

  // ---------- the stored receipts ----------

  lemma AccountedInsert(w: World, a: Actor, c: Choice)
    requires ActorsOk(w) && Accounted(w) && CanGo(w, a, c) && w.pcs[a].Insert? && c.ok
    ensures Accounted(InsertStep(w, a, c.ok))
  {
    var w' := InsertStep(w, a, c.ok);
    var k, r := KeyOf(w, a), w.pcs[a].receipt;
    forall b, j, i | b in w'.pcs && b in w'.frames && j in w'.store && 0 <= i < |w'.store[j]|
      ensures ReceiptAccounted(w', b, j, w'.store[j][i])
    {
      AppendAt(w.store, k, r, j);
      if j != k || i < |ChainAt(w.store, k)| {
        assert ReceiptAccounted(w, b, j, w.store[j][i]);
      }
    }
  }

  lemma AccountedArrive(w: World, a: Actor, f: Frame)
    requires ActorsOk(w) && Accounted(w) && a !in w.pcs && NewName(w.store, a)
    ensures Accounted(ArriveNext(w, a, f))
  {
    var w' := ArriveNext(w, a, f);
    forall b, k, i | b in w'.pcs && b in w'.frames && k in w'.store && 0 <= i < |w'.store[k]|
      ensures ReceiptAccounted(w', b, k, w'.store[k][i])
    {
      if b != a {
        assert ReceiptAccounted(w, b, k, w.store[k][i]);
      }
    }
  }

  lemma NamesStoredStable(st: Store, k: string, r: Receipt, j: string, d: Delegation)
    requires NamesStored(st, j, d)
    ensures NamesStored(Append(st, k, r), j, d)
  {
    AppendAt(st, k, r, d.parentChain);
    var p :| 0 <= p < |ChainAt(st, d.parentChain)| && ChainAt(st, d.parentChain)[p].id == d.parentId;
    assert ChainAt(Append(st, k, r), d.parentChain)[p].id == d.parentId;
  }

  /** A delegation that fits the slot names a stored receipt of the root chain. */
  lemma SlotLinkNames(w: World, a: Actor, sequence: nat, link: Backlink)
    requires a in w.frames && SlotLinkOk(w, a, sequence, link) && link.del.Some?
    ensures sequence == 1 && NamesStored(w.store, KeyOf(w, a), link.del.value)
  {
    ChainIdIsUnder(w.root, w.frames[a].agent);
    var c := ChainAt(w.store, w.root);
    assert c[link.seen.value - 1].id == link.del.value.parentId;
  }

  lemma DelegationsInsert(w: World, a: Actor, c: Choice)
    requires ActorsOk(w) && DelegationsOk(w.store) && CanGo(w, a, c) && w.pcs[a].Insert? && c.ok
    ensures DelegationsOk(InsertStep(w, a, c.ok).store)
  {
    var st: Store := InsertStep(w, a, c.ok).store;
    var k, r := KeyOf(w, a), w.pcs[a].receipt;
    forall j: string, i: int | j in st && 0 <= i < |st[j]| && st[j][i].delegation.Some?
      ensures i == 0 && NamesStored(st, j, st[j][i].delegation.value)
    {
      AppendAt(w.store, k, r, j);
      if j == k && i == |ChainAt(w.store, k)| {
        SlotLinkNames(w, a, r.sequence, w.pcs[a].link);
      } else {
        assert st[j][i] == w.store[j][i];
      }
      NamesStoredStable(w.store, k, r, j, st[j][i].delegation.value);
    }
  }

  lemma FirstLinksStable(w: World, w': World, a: Actor, ref: nat)
    requires Touches(w, w', a, ref) && FirstLinksOk(w) && w'.firstSeen == w.firstSeen
    ensures FirstLinksOk(w')
  {
    forall k | k in w'.firstSeen
      ensures ChainAt(w'.store, k) != [] &&
              LinkOk(w', Backlink(ChainAt(w'.store, k)[0].delegation, Some(w'.firstSeen[k])))
    {
      GrowsOf(w, w', a, ref, k);
      LinkStable(w, w', a, ref, Backlink(ChainAt(w.store, k)[0].delegation, Some(w.firstSeen[k])));
    }
  }

  lemma FirstLinksInsert(w: World, a: Actor, c: Choice)
    requires ActorsOk(w) && FirstLinksOk(w) && CanGo(w, a, c) && w.pcs[a].Insert? && c.ok
    ensures FirstLinksOk(InsertStep(w, a, c.ok))
  {
    var w' := InsertStep(w, a, c.ok);
    var key, link := KeyOf(w, a), w.pcs[a].link;
    InsertTouches(w, a, c);
    AppendAt(w.store, key, w.pcs[a].receipt, key);
    forall k | k in w'.firstSeen
      ensures ChainAt(w'.store, k) != [] &&
              LinkOk(w', Backlink(ChainAt(w'.store, k)[0].delegation, Some(w'.firstSeen[k])))
    {
      if k == key && link.seen.Some? {
        LinkStable(w, w', a, w.pcs[a].ref, link);
      } else {
        GrowsOf(w, w', a, w.pcs[a].ref, k);
        LinkStable(w, w', a, w.pcs[a].ref, Backlink(ChainAt(w.store, k)[0].delegation, Some(w.firstSeen[k])));
      }
    }
  }

  // ---------- all together ----------

  lemma InsertInv(w: World, a: Actor, c: Choice)
    requires Inv(w) && CanGo(w, a, c) && w.pcs[a].Insert? && c.ok
    ensures Inv(InsertStep(w, a, c.ok))
  {
    InsertKeeps(w, a, c);
    StructureStep(w, InsertStep(w, a, c.ok), a, w.pcs[a].ref);
    AccountedInsert(w, a, c);
    DelegationsInsert(w, a, c);
    FirstLinksInsert(w, a, c);
  }

  /** The part of a step that is the same whichever it is, once its own part is shown. */
  lemma QuietInv(w: World, w': World, a: Actor, ref: nat)
    requires Inv(w) && OwnPartOk(w, w', a, ref) && a in w.pcs && a in w.frames
    requires Quiet(w, w', a)
    ensures Inv(w')
  {
    StructureStep(w, w', a, ref);
    AccountedKept(w, w', a);
    FirstLinksStable(w, w', a, ref);
  }

  lemma RouteKeeps(w: World, a: Actor, c: Choice) returns (ref: nat)
    requires ActorsOk(w) && ChainsOk(w) && MapOk(w) && CanGo(w, a, c) && !Holding(w.pcs[a]) && !Finished(w.pcs[a])
    ensures OwnPartOk(w, GoNext(w, a, c), a, ref)
  {
    ref := if HasRef(w.pcs[a]) then w.pcs[a].ref else 0;
    match w.pcs[a]
    case Lookup(_) => LookupKeeps(w, a, c);
    case FastSeq(_, _) => FastSeqKeeps(w, a, c); ref := 0;
    case FastDelegation(_, _) => FastDelegationKeeps(w, a, c); ref := 0;
    case Load(_) => LoadKeeps(w, a, c); ref := c.pick;
    case SlowDelegation(_, _) => SlowDelegationKeeps(w, a, c); ref := 0;
    case Install(_, _, _) => InstallKeeps(w, a, c);
    case RaceSeq(_, _, _) => RaceSeqKeeps(w, a, c); ref := 0;
    case Ready(_, _, _) => AllocateKeeps(w, a, c);
  }

  lemma HolderKeeps(w: World, a: Actor, c: Choice) returns (ref: nat)
    requires ActorsOk(w) && ChainsOk(w) && MapOk(w) && CanGo(w, a, c) && (Holding(w.pcs[a]) || Finished(w.pcs[a]))
    requires !(w.pcs[a].Insert? && c.ok)
    ensures OwnPartOk(w, GoNext(w, a, c), a, ref)
  {
    ref := if HasRef(w.pcs[a]) then w.pcs[a].ref else 0;
    match w.pcs[a]
    case Build(_, _, _, _, _) => BuildKeeps(w, a, c); ref := 0;
    case Insert(_, _, _, _) => InsertFailKeeps(w, a, c); ref := 0;
    case Commit(_, _, _) => CommitKeeps(w, a, c);
    case Abort(_, _) => AbortKeeps(w, a, c);
    case Observe(_, _) => ObserveKeeps(w, a, c);
  }

  /** Only a successful insert changes the stored receipts. */
  ghost predicate Quiet(w: World, w': World, a: Actor)
    requires a in w.pcs
  {
    && w'.store == w.store && w'.frames == w.frames && w'.firstSeen == w.firstSeen
    && a in w'.pcs && w'.pcs == w.pcs[a := w'.pcs[a]] && Remembers(w.pcs[a], w'.pcs[a])
  }

  lemma RouteQuiet(w: World, a: Actor, c: Choice)
    requires CanGo(w, a, c) && !Holding(w.pcs[a]) && !Finished(w.pcs[a])
    ensures Quiet(w, GoNext(w, a, c), a)
  {
    match w.pcs[a]
    case Lookup(_) => assert Quiet(w, LookupStep(w, a), a);
    case FastSeq(_, _) => assert Quiet(w, FastSeqStep(w, a), a);
    case FastDelegation(_, _) => assert Quiet(w, FastDelegationStep(w, a, c.ok), a);
    case Load(_) => assert Quiet(w, LoadStep(w, a, c.ok, c.pick), a);
    case SlowDelegation(_, _) => assert Quiet(w, SlowDelegationStep(w, a, c.ok), a);
    case Install(_, _, _) => assert Quiet(w, InstallStep(w, a), a);
    case RaceSeq(_, _, _) => assert Quiet(w, RaceSeqStep(w, a), a);
    case Ready(_, _, _) => assert Quiet(w, AllocateStep(w, a), a);
  }

  lemma CommitQuiet(w: World, a: Actor)
    requires a in w.pcs && w.pcs[a].Commit? && w.pcs[a].ref in w.heap
    ensures Quiet(w, CommitStep(w, a), a)
  {
  }

  lemma HolderQuiet(w: World, a: Actor, c: Choice)
    requires CanGo(w, a, c) && (Holding(w.pcs[a]) || Finished(w.pcs[a])) && !(w.pcs[a].Insert? && c.ok)
    ensures Quiet(w, GoNext(w, a, c), a)
  {
    match w.pcs[a]
    case Build(_, _, _, _, _) => assert Quiet(w, BuildStep(w, a, c.ok, c.pick), a);
    case Insert(_, _, _, _) => assert Quiet(w, InsertStep(w, a, c.ok), a);
    case Commit(_, _, _) => CommitQuiet(w, a);
    case Abort(_, _) => assert Quiet(w, AbortStep(w, a), a);
    case Observe(_, _) =>
  }

  lemma StepInv(w: World, s: Step)
    requires Inv(w) && Enabled(w, s)
    ensures Inv(Next(w, s))
  {
    match s
    case Arrive(a, f) =>
      ArriveKeeps(w, a, f);
      StructureStep(w, Next(w, s), a, 0);
      AccountedArrive(w, a, f);
      FirstLinksStable(w, Next(w, s), a, 0);
    case Go(a, c) =>
      if w.pcs[a].Insert? && c.ok {
        InsertInv(w, a, c);
      } else {
        var ref;
        if Holding(w.pcs[a]) || Finished(w.pcs[a]) {
          ref := HolderKeeps(w, a, c);
          HolderQuiet(w, a, c);
        } else {
          ref := RouteKeeps(w, a, c);
          RouteQuiet(w, a, c);
        }
        QuietInv(w, GoNext(w, a, c), a, ref);
      }
  }
}
