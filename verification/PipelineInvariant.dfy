/**
 The invariant of the pipeline machine and its preservation by every step of every actor.

 The invariant is split into facts about one actor, facts about one chain, and two facts about
 the stored receipts. A step touches one actor, at most one chain it holds the mutex of, and at
 most one State; `Touches` says so, and everything else is framed through it.
 */
module PipelineInvariant {
  import opened Receipts
  import opened ChainState
  import opened PipelineMachine

  // ---------- facts about one actor ----------

  ghost predicate IsInstalled(w: World, k: string, ref: nat) {
    k in w.installed && w.installed[k] == ref && ref in w.heap && w.heap[ref].chain == k
  }

  /** A State that was loaded but not published: only its maker knows it. */
  ghost predicate Private(w: World, a: Actor, k: string, ref: nat) {
    && ref in w.heap
    && w.heap[ref].chain == k && w.heap[ref].maker == Some(a) && w.heap[ref].holder == None
    && (forall j :: j in w.installed ==> w.installed[j] != ref)
    && (k !in w.installed ==> w.heap[ref].view == TailView(ChainAt(w.store, k)))
    && (w.heap[ref].view.nextSeq != 1 ==> ChainAt(w.store, k) != [])
  }

  /** The delegation names the receipt that was the root chain's tail when it was computed. */
  ghost predicate LinkOk(w: World, link: Backlink) {
    match link.seen
    case None => link.del == None
    case Some(n) =>
      var rootChain := ChainAt(w.store, w.root);
      n <= |rootChain| &&
      link.del == if n == 0 then None else Some(Delegation(w.root, rootChain[n - 1].id))
  }

  /** An agent frame without a computed delegation is on a chain that already has its first receipt. */
  ghost predicate LinkFits(w: World, a: Actor, link: Backlink)
    requires a in w.frames
  {
    && LinkOk(w, link)
    && (w.frames[a].agent == "" ==> link == NO_BACKLINK)
    && (w.frames[a].agent != "" && link.seen == None ==> ChainAt(w.store, KeyOf(w, a)) != [])
  }

  ghost predicate StoredAt(w: World, k: string, r: Receipt) {
    1 <= r.sequence <= |ChainAt(w.store, k)| && ChainAt(w.store, k)[r.sequence - 1] == r
  }

  /** The synthetic receipt of a pair is stored right before position `next`. */
  ghost predicate PairOk(w: World, a: Actor, k: string, synthetic: Option<Receipt>, next: nat) {
    synthetic.Some? ==>
      StoredAt(w, k, synthetic.value) && synthetic.value.kind == EventsDropped(a) &&
      synthetic.value.sequence + 1 == next
  }

  ghost predicate HalfOk(w: World, a: Actor, k: string, half: Half, next: nat) {
    half.LiveHalf? ==> PairOk(w, a, k, half.synthetic, next)
  }

  function KindFor(a: Actor, half: Half): Kind {
    if half.Synthetic? then EventsDropped(a) else Live(a)
  }

  ghost predicate Holds(w: World, a: Actor, k: string, ref: nat) {
    IsInstalled(w, k, ref) && w.heap[ref].holder == Some(a)
  }

  /** The slot a holder is filling is the one right after the stored tail. */
  ghost predicate AtTail(w: World, k: string, ref: nat) {
    ref in w.heap && w.heap[ref].view == TailView(ChainAt(w.store, k))
  }

  ghost predicate SlotLinkOk(w: World, a: Actor, sequence: nat, link: Backlink)
    requires a in w.frames
  {
    LinkOk(w, link) && (sequence != 1 || w.frames[a].agent == "" ==> link == NO_BACKLINK) &&
    (sequence == 1 && w.frames[a].agent != "" ==> link.seen.Some?)
  }

  ghost predicate OutcomeOk(w: World, a: Actor, k: string, o: Outcome) {
    match o
    case Failed(synthetic) => synthetic.Some? ==> PairOk(w, a, k, synthetic, synthetic.value.sequence + 1)
    case Stored(live, synthetic) =>
      StoredAt(w, k, live) && live.kind == Live(a) && PairOk(w, a, k, synthetic, live.sequence)
  }

  ghost predicate ActorOk(w: World, a: Actor)
    requires a in w.pcs && a in w.frames
  {
    var k := KeyOf(w, a);
    var agent := w.frames[a].agent != "";
    match w.pcs[a]
    case Lookup(_) => true
    case FastSeq(_, ref) => agent && IsInstalled(w, k, ref)
    case FastDelegation(_, ref) => agent && IsInstalled(w, k, ref)
    case Load(_) => agent
    case SlowDelegation(_, ref) => agent && Private(w, a, k, ref)
    case Install(_, ref, link) =>
      agent && Private(w, a, k, ref) && LinkOk(w, link) &&
      (link.seen == None ==> ChainAt(w.store, k) != [])
    case RaceSeq(_, ref, link) => agent && IsInstalled(w, k, ref) && w.mapHolder == Some(a) && LinkFits(w, a, link)
    case Ready(_, ref, link) => IsInstalled(w, k, ref) && LinkFits(w, a, link)
    case Build(half, ref, sequence, prev, link) =>
      Holds(w, a, k, ref) && AtTail(w, k, ref) && ChainView(sequence, prev) == w.heap[ref].view &&
      SlotLinkOk(w, a, sequence, link) && HalfOk(w, a, k, half, sequence)
    case Insert(half, ref, r, link) =>
      Holds(w, a, k, ref) && AtTail(w, k, ref) && Continues(ChainAt(w.store, k), k, r) && !r.terminal &&
      r.kind == KindFor(a, half) && r.delegation == link.del &&
      SlotLinkOk(w, a, r.sequence, link) && HalfOk(w, a, k, half, r.sequence)
    case Commit(half, ref, r) =>
      Holds(w, a, k, ref) && StoredAt(w, k, r) && r.sequence == |ChainAt(w.store, k)| &&
      r.kind == KindFor(a, half) && HalfOk(w, a, k, half, r.sequence)
    case Abort(half, ref) =>
      Holds(w, a, k, ref) && AtTail(w, k, ref) &&
      (half.LiveHalf? ==> OutcomeOk(w, a, k, Failed(half.synthetic)))
    case Observe(live, synthetic) => OutcomeOk(w, a, k, Stored(live, synthetic))
    case Done(o) => OutcomeOk(w, a, k, o)
  }

  ghost predicate ActorsOk(w: World) {
    forall a :: a in w.pcs ==> a in w.frames && ActorOk(w, a)
  }

  // ---------- facts about one chain ----------

  ghost predicate InCritical(pc: Pc, ref: nat) {
    (pc.Build? || pc.Insert? || pc.Commit? || pc.Abort?) && pc.ref == ref
  }

  /** When nobody holds the mutex, the in-memory tail is the stored tail. */
  ghost predicate ChainOk(w: World, k: string) {
    && Linked(ChainAt(w.store, k), k)
    && (k in w.installed ==>
          var ref := w.installed[k];
          IsInstalled(w, k, ref) &&
          match w.heap[ref].holder
          case None => AtTail(w, k, ref)
          case Some(b) => b in w.pcs && InCritical(w.pcs[b], ref))
  }

  ghost predicate ChainsOk(w: World) {
    && w.root in w.installed && w.installed[w.root] == ROOT_REF
    && (forall k :: ChainOk(w, k))
  }

  ghost predicate MapOk(w: World) {
    match w.mapHolder
    case None => true
    case Some(b) => b in w.pcs && w.pcs[b].RaceSeq?
  }

  // ---------- facts about the stored receipts ----------

  /** The live receipt actor `pc` has stored, and the synthetic one. */
  function LiveOf(pc: Pc): Option<Receipt> {
    match pc
    case Commit(LiveHalf(_), _, r) => Some(r)
    case Observe(live, _) => Some(live)
    case Done(Stored(live, _)) => Some(live)
    case _ => None
  }

  function SyntheticOf(pc: Pc): Option<Receipt> {
    match pc
    case Build(LiveHalf(s), _, _, _, _) => s
    case Insert(LiveHalf(s), _, _, _) => s
    case Commit(Synthetic, _, r) => Some(r)
    case Commit(LiveHalf(s), _, _) => s
    case Abort(LiveHalf(s), _) => s
    case Observe(_, s) => s
    case Done(Failed(s)) => s
    case Done(Stored(_, s)) => s
    case _ => None
  }

  /** Every stored receipt of an actor is the one its program counter accounts for. */
  ghost predicate ReceiptAccounted(w: World, a: Actor, k: string, r: Receipt)
    requires a in w.pcs && a in w.frames
  {
    && (r.kind == Live(a) ==> k == KeyOf(w, a) && LiveOf(w.pcs[a]) == Some(r))
    && (r.kind == EventsDropped(a) ==> k == KeyOf(w, a) && SyntheticOf(w.pcs[a]) == Some(r))
  }

  ghost predicate Accounted(w: World) {
    forall a, k, i ::
      a in w.pcs && a in w.frames && k in w.store && 0 <= i < |w.store[k]| ==>
        ReceiptAccounted(w, a, k, w.store[k][i])
  }

  /** The delegation names a stored receipt of a root chain, and `k` is an agent chain under that root. */
  ghost predicate NamesStored(st: Store, k: string, d: Delegation) {
    AgentUnder(d.parentChain, k) &&
    exists j :: 0 <= j < |ChainAt(st, d.parentChain)| && ChainAt(st, d.parentChain)[j].id == d.parentId
  }

  /** A delegation stands on the first receipt of a chain only. */
  ghost predicate DelegationsOk(st: Store) {
    forall k, i :: k in st && 0 <= i < |st[k]| && st[k][i].delegation.Some? ==>
      i == 0 && NamesStored(st, k, st[k][i].delegation.value)
  }

  /** For the agent chains opened in this run: what their first receipt carries. */
  ghost predicate FirstLinksOk(w: World) {
    forall k :: k in w.firstSeen ==>
      ChainAt(w.store, k) != [] &&
      LinkOk(w, Backlink(ChainAt(w.store, k)[0].delegation, Some(w.firstSeen[k])))
  }

  ghost predicate Inv(w: World) {
    ActorsOk(w) && ChainsOk(w) && MapOk(w) && Accounted(w) && DelegationsOk(w.store) && FirstLinksOk(w)
  }

  // ---------- framing ----------

  /** What a step of actor `a` may change, `ref` being the State it works on. */
  ghost predicate MayUse(w: World, a: Actor, ref: nat) {
    && ref in w.heap && IsInstalled(w, w.heap[ref].chain, ref)
    && (w.heap[ref].holder == None || w.heap[ref].holder == Some(a))
  }

  ghost predicate HeapTouch(w: World, w': World, a: Actor, ref: nat) {
    forall r :: r in w.heap ==>
      && r in w'.heap
      && (w'.heap[r] == w.heap[r] ||
          (r == ref && MayUse(w, a, ref) && w'.heap[r].chain == w.heap[r].chain))
  }

  ghost predicate StoreTouch(w: World, w': World, a: Actor, ref: nat) {
    forall k :: ChainAt(w'.store, k) == ChainAt(w.store, k) ||
      (MayUse(w, a, ref) && k == w.heap[ref].chain && w.heap[ref].holder == Some(a) &&
       ChainAt(w.store, k) <= ChainAt(w'.store, k))
  }

  ghost predicate InstallTouch(w: World, w': World, a: Actor) {
    && (forall k :: k in w.installed ==> k in w'.installed && w'.installed[k] == w.installed[k])
    && (forall k :: k in w'.installed && k !in w.installed ==>
          w'.installed[k] in w.heap && w.heap[w'.installed[k]].maker == Some(a))
  }

  ghost predicate Touches(w: World, w': World, a: Actor, ref: nat) {
    && w'.root == w.root
    && (forall b :: b in w.pcs && b != a ==> b in w'.pcs && w'.pcs[b] == w.pcs[b])
    && (forall b :: b in w'.pcs && b != a ==> b in w.pcs)
    && (forall b :: b in w.frames && b != a ==> b in w'.frames && w'.frames[b] == w.frames[b])
    && (w'.mapHolder == w.mapHolder || w.mapHolder == None || w.mapHolder == Some(a))
    && HeapTouch(w, w', a, ref) && StoreTouch(w, w', a, ref) && InstallTouch(w, w', a)
  }

  lemma GrowsOf(w: World, w': World, a: Actor, ref: nat, k: string)
    requires Touches(w, w', a, ref)
    ensures ChainAt(w.store, k) <= ChainAt(w'.store, k)
  {
  }

  lemma LinkStable(w: World, w': World, a: Actor, ref: nat, link: Backlink)
    requires Touches(w, w', a, ref) && LinkOk(w, link)
    ensures LinkOk(w', link)
  {
    GrowsOf(w, w', a, ref, w.root);
  }

  lemma OutcomeStable(w: World, w': World, a: Actor, ref: nat, b: Actor, k: string, o: Outcome)
    requires Touches(w, w', a, ref) && OutcomeOk(w, b, k, o)
    ensures OutcomeOk(w', b, k, o)
  {
    GrowsOf(w, w', a, ref, k);
  }

  /** What a mutex holder relies on cannot be changed by anybody else. */
  lemma HeldStable(w: World, w': World, a: Actor, ref: nat, b: Actor, k: string, mine: nat)
    requires Touches(w, w', a, ref) && b != a && Holds(w, b, k, mine)
    ensures Holds(w', b, k, mine) && w'.heap[mine] == w.heap[mine]
    ensures ChainAt(w'.store, k) == ChainAt(w.store, k)
  {
  }

  lemma PrivateStable(w: World, w': World, a: Actor, ref: nat, b: Actor, k: string, mine: nat)
    requires Touches(w, w', a, ref) && b != a && Private(w, b, k, mine)
    ensures Private(w', b, k, mine)
  {
    GrowsOf(w, w', a, ref, k);
    if ChainAt(w'.store, k) != ChainAt(w.store, k) {
      assert k in w.installed;
    }
  }

  lemma InstalledStable(w: World, w': World, a: Actor, ref: nat, k: string, mine: nat)
    requires Touches(w, w', a, ref) && IsInstalled(w, k, mine)
    ensures IsInstalled(w', k, mine)
  {
  }

  predicate Holding(pc: Pc) {
    pc.Build? || pc.Insert? || pc.Commit? || pc.Abort?
  }

  predicate Finished(pc: Pc) {
    pc.Observe? || pc.Done?
  }

  lemma OtherHolderOk(w: World, w': World, a: Actor, ref: nat, b: Actor)
    requires Touches(w, w', a, ref)
    requires b != a && b in w.pcs && b in w.frames && ActorOk(w, b) && Holding(w.pcs[b])
    ensures ActorOk(w', b)
  {
    HeldStable(w, w', a, ref, b, KeyOf(w, b), w.pcs[b].ref);
    if w.pcs[b].Build? || w.pcs[b].Insert? {
      LinkStable(w, w', a, ref, w.pcs[b].link);
    }
  }

  lemma OtherWaiterOk(w: World, w': World, a: Actor, ref: nat, b: Actor)
    requires Touches(w, w', a, ref)
    requires b != a && b in w.pcs && b in w.frames && ActorOk(w, b) && !Holding(w.pcs[b]) && !Finished(w.pcs[b])
    ensures ActorOk(w', b)
  {
    var k := KeyOf(w, b);
    GrowsOf(w, w', a, ref, k);
    match w.pcs[b]
    case Lookup(_) =>
    case FastSeq(_, mine) => InstalledStable(w, w', a, ref, k, mine);
    case FastDelegation(_, mine) => InstalledStable(w, w', a, ref, k, mine);
    case Load(_) =>
    case SlowDelegation(_, mine) => PrivateStable(w, w', a, ref, b, k, mine);
    case Install(_, mine, link) =>
      PrivateStable(w, w', a, ref, b, k, mine);
      LinkStable(w, w', a, ref, link);
    case RaceSeq(_, mine, link) =>
      InstalledStable(w, w', a, ref, k, mine);
      LinkStable(w, w', a, ref, link);
    case Ready(_, mine, link) =>
      InstalledStable(w, w', a, ref, k, mine);
      LinkStable(w, w', a, ref, link);
  }

  lemma OtherActorOk(w: World, w': World, a: Actor, ref: nat, b: Actor)
    requires Touches(w, w', a, ref)
    requires b != a && b in w.pcs && b in w.frames && ActorOk(w, b)
    ensures ActorOk(w', b)
  {
    if Holding(w.pcs[b]) {
      OtherHolderOk(w, w', a, ref, b);
    } else if Finished(w.pcs[b]) {
      match w.pcs[b]
      case Observe(live, synthetic) => OutcomeStable(w, w', a, ref, b, KeyOf(w, b), Stored(live, synthetic));
      case Done(o) => OutcomeStable(w, w', a, ref, b, KeyOf(w, b), o);
    } else {
      OtherWaiterOk(w, w', a, ref, b);
    }
  }

  /** The chains an actor's step does not work on stay as they were. */
  lemma OtherChainOk(w: World, w': World, a: Actor, ref: nat, k: string)
    requires Touches(w, w', a, ref) && ChainOk(w, k)
    requires k in w.installed ==> w.installed[k] != ref
    requires k in w'.installed ==> k in w.installed
    requires a in w.pcs && HasRef(w.pcs[a]) ==> w.pcs[a].ref == ref
    ensures ChainOk(w', k)
  {
  }

  /** What one step still has to show once the rest is framed. */
  ghost predicate OwnPartOk(w: World, w': World, a: Actor, ref: nat) {
    && Touches(w, w', a, ref)
    && a in w'.pcs && a in w'.frames && ActorOk(w', a)
    && (forall k :: ChainOk(w', k))
    && MapOk(w')
  }

  lemma StructureStep(w: World, w': World, a: Actor, ref: nat)
    requires ActorsOk(w) && ChainsOk(w) && OwnPartOk(w, w', a, ref)
    ensures ActorsOk(w') && ChainsOk(w') && MapOk(w')
  {
    forall b | b in w'.pcs ensures b in w'.frames && ActorOk(w', b) {
      if b != a {
        OtherActorOk(w, w', a, ref, b);
      }
    }
  }
}
