/**
 What the pipeline guarantees over every schedule of every number of concurrent `Process` calls,
 from any well-formed store, with sign, query and insert failures anywhere.
 */
module PipelineTheorems {
  import opened Receipts
  import opened ChainState
  import opened PipelineMachine
  import opened PipelineInvariant
  import opened PipelineSteps

  /** A store as earlier runs leave it. */
  ghost predicate StoreOk(st: Store) {
    AllLinked(st) && DelegationsOk(st)
  }

  /** `w` is reached from the start of a run by the schedule `steps`. */
  ghost predicate Reached(root: string, signer: PublicKey, st: Store, steps: seq<Step>, w: World) {
    StoreOk(st) && Runs(Initial(root, signer, st), steps, w)
  }

  lemma InitialInv(root: string, signer: PublicKey, st: Store)
    requires StoreOk(st)
    ensures Inv(Initial(root, signer, st))
  {
    var w := Initial(root, signer, st);
    LoadedIsTail(ChainAt(st, root), root);
    forall k ensures ChainOk(w, k) {
    }
  }

  lemma {:induction false} RunInv(w: World, steps: seq<Step>, w': World)
    requires Inv(w) && Runs(w, steps, w')
    ensures Inv(w')
    decreases |steps|
  {
    if steps != [] {
      StepInv(w, steps[0]);
      RunInv(Next(w, steps[0]), steps[1..], w');
    }
  }

  lemma ReachedInv(root: string, signer: PublicKey, st: Store, steps: seq<Step>, w: World)
    requires Reached(root, signer, st, steps, w)
    ensures Inv(w)
  {
    InitialInv(root, signer, st);
    RunInv(Initial(root, signer, st), steps, w);
  }

  // ---------- chains and their in-memory tails ----------

  /**
   Every stored chain has sequences 1..n and intact links at every moment of every run, and
   whenever a chain's mutex is free its (nextSeq, prevHash) is (n + 1, hash of the stored tail).
   */
  lemma ChainsStayLinked(root: string, signer: PublicKey, st: Store, steps: seq<Step>, w: World, k: string)
    requires Reached(root, signer, st, steps, w)
    ensures Linked(ChainAt(w.store, k), k)
    ensures k in w.installed ==> w.installed[k] in w.heap
    ensures k in w.installed && w.heap[w.installed[k]].holder == None ==>
              w.heap[w.installed[k]].view == TailView(ChainAt(w.store, k))
  {
    ReachedInv(root, signer, st, steps, w);
    assert ChainOk(w, k);
  }

  /** The program counters from which an actor has committed to allocate on a State. */
  predicate Allocates(pc: Pc) {
    pc.Ready? || Holding(pc)
  }

  /** Once installed, a State stays the one for its chain. */
  lemma StepKeepsInstalled(w: World, s: Step)
    requires Enabled(w, s)
    ensures Next(w, s).root == w.root
    ensures forall k :: k in w.installed ==> k in Next(w, s).installed && Next(w, s).installed[k] == w.installed[k]
  {
    if s.Go? && w.pcs[s.actor].Install? {
      assert Next(w, s) == InstallStep(w, s.actor);
    }
  }

  lemma {:induction false} RunKeepsInstalled(w: World, steps: seq<Step>, w': World)
    requires Runs(w, steps, w')
    ensures w'.root == w.root
    ensures forall k :: k in w.installed ==> k in w'.installed && w'.installed[k] == w.installed[k]
    decreases |steps|
  {
    if steps != [] {
      StepKeepsInstalled(w, steps[0]);
      RunKeepsInstalled(Next(w, steps[0]), steps[1..], w');
    }
  }

  /**
   At most one State per chain is ever allocated on in a run, although loads happen outside the map
   lock: a call that allocates now and one that allocates at any later moment use the same State
   exactly if they are on the same chain.
   */
  lemma OneStatePerChain(root: string, signer: PublicKey, st: Store, steps: seq<Step>, w: World,
                         more: seq<Step>, w': World, a: Actor, b: Actor)
    requires Reached(root, signer, st, steps, w) && Runs(w, more, w')
    requires a in w.pcs && Allocates(w.pcs[a]) && b in w'.pcs && Allocates(w'.pcs[b])
    ensures a in w.frames && b in w'.frames
    ensures KeyOf(w, a) == KeyOf(w', b) <==> w.pcs[a].ref == w'.pcs[b].ref
  {
    ReachedInv(root, signer, st, steps, w);
    RunInv(w, more, w');
    RunKeepsInstalled(w, more, w');
    assert ActorOk(w, a) && ActorOk(w', b);
    var k, ref := KeyOf(w, a), w.pcs[a].ref;
    assert IsInstalled(w, k, ref) && IsInstalled(w', KeyOf(w', b), w'.pcs[b].ref);
    assert ChainOk(w', k);
  }

  /** Two calls are never inside the critical section of one chain. */
  lemma OneHolderPerChain(root: string, signer: PublicKey, st: Store, steps: seq<Step>, w: World, a: Actor, b: Actor)
    requires Reached(root, signer, st, steps, w)
    requires a in w.pcs && b in w.pcs && Holding(w.pcs[a]) && Holding(w.pcs[b])
    ensures a in w.frames && b in w.frames
    ensures KeyOf(w, a) == KeyOf(w, b) ==> a == b
  {
    ReachedInv(root, signer, st, steps, w);
    assert ActorOk(w, a) && ActorOk(w, b);
  }

  /** A State that is about to be published agrees with the stored tail, however long ago it was loaded. */
  lemma InstalledStateIsCurrent(root: string, signer: PublicKey, st: Store, steps: seq<Step>, w: World, a: Actor)
    requires Reached(root, signer, st, steps, w)
    requires a in w.pcs && w.pcs[a].Install?
    ensures a in w.frames && w.pcs[a].ref in w.heap
    ensures KeyOf(w, a) !in w.installed ==>
              w.heap[w.pcs[a].ref].view == TailView(ChainAt(w.store, KeyOf(w, a)))
  {
    ReachedInv(root, signer, st, steps, w);
    assert ActorOk(w, a);
  }

  // ---------- the mutex discipline ----------

  /**
   An actor about to allocate holds no chain mutex, and an actor about to release holds exactly
   the one it releases.
   */
  lemma MutexDiscipline(root: string, signer: PublicKey, st: Store, steps: seq<Step>, w: World, a: Actor, k: string)
    requires Reached(root, signer, st, steps, w) && a in w.pcs && k in w.installed
    ensures a in w.frames && w.installed[k] in w.heap
    ensures w.heap[w.installed[k]].holder == Some(a) <==> Holding(w.pcs[a]) && k == KeyOf(w, a)
    ensures Holding(w.pcs[a]) ==> w.pcs[a].ref in w.heap && w.heap[w.pcs[a].ref].holder == Some(a)
  {
    ReachedInv(root, signer, st, steps, w);
    assert ChainOk(w, k) && ActorOk(w, a);
    if w.heap[w.installed[k]].holder == Some(a) {
      assert IsInstalled(w, k, w.pcs[a].ref);
    }
  }

  lemma {:induction false} UnusedRef(s: set<nat>) returns (n: nat)
    ensures n !in s && forall m :: m in s ==> m < n
    decreases s
  {
    if s == {} {
      n := 0;
    } else {
      var x :| x in s;
      var n' := UnusedRef(s - {x});
      n := if x < n' then n' else x + 1;
      forall m | m in s ensures m < n {
        assert m == x || m in s - {x};
      }
    }
  }

  /** The map lock is never what blocks: its holder waits only for a chain mutex. */
  lemma NobodyHolds(w: World, a: Actor, c: Choice)
    requires Inv(w) && a in w.pcs && !w.pcs[a].Done? && c.pick !in w.heap
    requires forall b :: b in w.pcs ==> !Holding(w.pcs[b])
    requires w.mapHolder == None || w.mapHolder == Some(a)
    ensures CanGo(w, a, c)
  {
    assert ActorOk(w, a);
    assert ChainOk(w, KeyOf(w, a));
    if HasRef(w.pcs[a]) && !w.pcs[a].Install? && !w.pcs[a].SlowDelegation? {
      assert IsInstalled(w, KeyOf(w, a), w.pcs[a].ref);
    }
  }

  /** No deadlock: as long as one call has not returned, some call can take a step. */
  lemma SomebodyCanGo(root: string, signer: PublicKey, st: Store, steps: seq<Step>, w: World, a: Actor)
      returns (b: Actor, c: Choice)
    requires Reached(root, signer, st, steps, w) && a in w.pcs && !w.pcs[a].Done?
    ensures CanGo(w, b, c)
  {
    ReachedInv(root, signer, st, steps, w);
    var n := UnusedRef(w.heap.Keys);
    c := Choice(true, n);
    if h :| h in w.pcs && Holding(w.pcs[h]) {
      b := h;
      assert ActorOk(w, h);
    } else {
      b := if w.mapHolder.Some? then w.mapHolder.value else a;
      NobodyHolds(w, b, c);
    }
  }

  // ---------- results ----------

  /**
   Process returns nil exactly when its live receipt was stored, and it is stored at one place
   only; a failed call stored no live receipt at all.
   */
  lemma NilIffStoredOnce(root: string, signer: PublicKey, st: Store, steps: seq<Step>, w: World, a: Actor)
    requires Reached(root, signer, st, steps, w) && a in w.pcs && w.pcs[a].Done?
    ensures a in w.frames
    ensures w.pcs[a].outcome.Stored? <==>
              exists k, i :: k in w.store && 0 <= i < |w.store[k]| && w.store[k][i].kind == Live(a)
    ensures forall k, i, k', i' ::
              k in w.store && 0 <= i < |w.store[k]| && w.store[k][i].kind == Live(a) &&
              k' in w.store && 0 <= i' < |w.store[k']| && w.store[k'][i'].kind == Live(a) ==>
                k == KeyOf(w, a) && k' == k && i' == i
  {
    ReachedInv(root, signer, st, steps, w);
    assert ActorOk(w, a);
    if w.pcs[a].outcome.Stored? {
      OutcomeIsStored(w, a);
    }
    forall k, i | k in w.store && 0 <= i < |w.store[k]| && w.store[k][i].kind == Live(a)
      ensures IsOutcome(w, a, k, i)
    {
      LiveIsOutcome(w, a, k, i);
    }
  }

  lemma OutcomeIsStored(w: World, a: Actor)
    requires a in w.pcs && a in w.frames && ActorOk(w, a) && w.pcs[a].Done? && w.pcs[a].outcome.Stored?
    ensures exists k, i :: k in w.store && 0 <= i < |w.store[k]| && w.store[k][i].kind == Live(a)
  {
    var r := w.pcs[a].outcome.live;
    assert w.store[KeyOf(w, a)][r.sequence - 1].kind == Live(a);
  }

  /** The receipt at position `i` of chain `k` is the one that call `a` returned. */
  predicate IsOutcome(w: World, a: Actor, k: string, i: int) {
    && a in w.pcs && a in w.frames && w.pcs[a].Done? && w.pcs[a].outcome.Stored?
    && k == KeyOf(w, a) && i == w.pcs[a].outcome.live.sequence - 1
  }

  lemma LiveIsOutcome(w: World, a: Actor, k: string, i: int)
    requires Inv(w) && a in w.pcs && w.pcs[a].Done?
    requires k in w.store && 0 <= i < |w.store[k]| && w.store[k][i].kind == Live(a)
    ensures IsOutcome(w, a, k, i)
  {
    assert ActorOk(w, a);
    assert ReceiptAccounted(w, a, k, w.store[k][i]);
    assert ChainOk(w, k);
    LinkedAt(w.store[k], k, i);
  }

  /**
   A synthetic events_dropped receipt and the live receipt of the same frame are adjacent when
   both are stored, whatever other calls did in between.
   */
  lemma PairsAreAdjacent(root: string, signer: PublicKey, st: Store, steps: seq<Step>, w: World,
                         a: Actor, k: string, i: nat, k': string, j: nat)
    requires Reached(root, signer, st, steps, w) && a in w.pcs
    requires k in w.store && i < |w.store[k]| && w.store[k][i].kind == EventsDropped(a)
    requires k' in w.store && j < |w.store[k']| && w.store[k'][j].kind == Live(a)
    ensures k' == k && j == i + 1
  {
    ReachedInv(root, signer, st, steps, w);
    PlaceOf(w, a, k, i);
    PlaceOf(w, a, k', j);
    assert ActorOk(w, a);
  }

  /** Where a stored receipt of a call stands, according to that call. */
  lemma PlaceOf(w: World, a: Actor, k: string, i: nat)
    requires Inv(w) && a in w.pcs && a in w.frames && k in w.store && i < |w.store[k]|
    requires w.store[k][i].kind == EventsDropped(a) || w.store[k][i].kind == Live(a)
    ensures k == KeyOf(w, a) && w.store[k][i].sequence == i + 1
    ensures Some(w.store[k][i]) == if w.store[k][i].kind == Live(a) then LiveOf(w.pcs[a]) else SyntheticOf(w.pcs[a])
  {
    assert ReceiptAccounted(w, a, k, w.store[k][i]) && ChainOk(w, k);
    LinkedAt(w.store[k], k, i);
  }

  // ---------- delegations ----------

  /**
   A delegation stands only on sequence 1 of an agent chain and names a stored receipt of the root chain
   that this is an agent chain of. The first receipt of an agent chain opened in this run carries one
   exactly when the root chain was non-empty at the moment the delegation was computed, and then it names
   the tail of that moment.
   */
  lemma DelegationsBacklink(root: string, signer: PublicKey, st: Store, steps: seq<Step>, w: World, k: string)
    requires Reached(root, signer, st, steps, w)
    ensures forall i :: 0 <= i < |ChainAt(w.store, k)| && ChainAt(w.store, k)[i].delegation.Some? ==>
              i == 0 && NamesStored(w.store, k, ChainAt(w.store, k)[i].delegation.value)
    ensures k in w.firstSeen ==>
              var n := w.firstSeen[k];
              var rootChain := ChainAt(w.store, w.root);
              ChainAt(w.store, k) != [] && n <= |rootChain| &&
              ChainAt(w.store, k)[0].delegation ==
                if n == 0 then None else Some(Delegation(w.root, rootChain[n - 1].id))
  {
    ReachedInv(root, signer, st, steps, w);
  }

  /** An agent chain that was empty at the start of the run and is not any more has its history recorded. */
  ghost predicate OpenedRecorded(st: Store, w: World) {
    forall k :: ChainAt(st, k) == [] && ChainAt(w.store, k) != [] && k != w.root ==> k in w.firstSeen
  }

  // ---------- what a run does to the store ----------

  /** What serving stores: nothing terminal, and a delegation only on an agent chain of this root, to its root chain. */
  predicate ServedUnder(root: string, k: string, r: Receipt) {
    !r.terminal && (r.delegation.Some? ==> AgentUnder(root, k) && r.delegation.value.parentChain == root)
  }

  /** Chains only grow, by what serving stores, and only the chains of this root are touched. */
  ghost predicate Grew(root: string, st: Store, st': Store) {
    forall k ::
      && ChainAt(st, k) <= ChainAt(st', k)
      && (forall i :: |ChainAt(st, k)| <= i < |ChainAt(st', k)| ==> ServedUnder(root, k, ChainAt(st', k)[i]))
      && (ChainAt(st', k) != ChainAt(st, k) ==> Under(root, k))
  }

  ghost predicate Steps(w: World, w': World) {
    && Grew(w.root, w.store, w'.store) && w'.root == w.root
    && (forall k :: k != w.root && ChainAt(w.store, k) == [] && ChainAt(w'.store, k) != [] ==> k in w'.firstSeen)
    && (forall k :: k in w.firstSeen ==> k in w'.firstSeen)
  }

  lemma InsertedIsServed(w: World, a: Actor)
    requires Inv(w) && a in w.pcs && a in w.frames && w.pcs[a].Insert?
    ensures ServedUnder(w.root, KeyOf(w, a), w.pcs[a].receipt)
  {
    assert ActorOk(w, a);
    ChainIdIsUnder(w.root, w.frames[a].agent);
  }

  lemma InsertGrows(w: World, a: Actor, c: Choice)
    requires Inv(w) && CanGo(w, a, c) && w.pcs[a].Insert? && c.ok
    ensures Steps(w, GoNext(w, a, c))
  {
    var k, w' := KeyOf(w, a), InsertStep(w, a, true);
    ChainIdIsUnder(w.root, w.frames[a].agent);
    assert ActorOk(w, a);
    InsertedIsServed(w, a);
    forall j
      ensures ChainAt(w'.store, j) == if j == k then ChainAt(w.store, k) + [w.pcs[a].receipt] else ChainAt(w.store, j)
    {
      AppendAt(w.store, k, w.pcs[a].receipt, j);
    }
  }

  lemma StepGrows(w: World, s: Step)
    requires Inv(w) && Enabled(w, s)
    ensures Steps(w, Next(w, s))
  {
    if s.Go? {
      var a, c := s.actor, s.choice;
      if w.pcs[a].Insert? && c.ok {
        InsertGrows(w, a, c);
      } else if Holding(w.pcs[a]) || Finished(w.pcs[a]) {
        HolderQuiet(w, a, c);
        var ref := HolderKeeps(w, a, c);
      } else {
        RouteQuiet(w, a, c);
        var ref := RouteKeeps(w, a, c);
      }
    }
  }

  lemma GoInstalls(w: World, a: Actor, c: Choice)
    requires CanGo(w, a, c)
    ensures !w.pcs[a].Install? ==> GoNext(w, a, c).installed == w.installed
    ensures w.pcs[a].Install? ==> GoNext(w, a, c).installed.Keys == w.installed.Keys + {KeyOf(w, a)}
  {
  }

  /** A step of a call moves its own program counter and no other. */
  lemma GoMovesOwn(w: World, a: Actor, c: Choice)
    requires CanGo(w, a, c)
    ensures a in GoNext(w, a, c).pcs && GoNext(w, a, c).pcs == w.pcs[a := GoNext(w, a, c).pcs[a]]
  {
    if w.pcs[a].Insert? && c.ok {
      assert GoNext(w, a, c) == InsertStep(w, a, true);
    } else if Holding(w.pcs[a]) || Finished(w.pcs[a]) {
      HolderQuiet(w, a, c);
    } else {
      RouteQuiet(w, a, c);
    }
  }

  lemma StepMovesOne(w: World, s: Step)
    requires Enabled(w, s)
    ensures forall a :: a in w.pcs ==> a in Next(w, s).pcs && (a != s.actor ==> Next(w, s).pcs[a] == w.pcs[a])
  {
    if s.Go? {
      GoMovesOwn(w, s.actor, s.choice);
    }
  }

  /** The agent map only ever holds chains of this root. */
  lemma StepInstalls(w: World, s: Step)
    requires Enabled(w, s)
    ensures forall k :: k in Next(w, s).installed ==> k in w.installed || Under(w.root, k)
  {
    if s.Go? {
      ChainIdIsUnder(w.root, w.frames[s.actor].agent);
      GoInstalls(w, s.actor, s.choice);
    }
  }

  lemma {:induction false} RunGrows(w: World, steps: seq<Step>, w': World)
    requires Inv(w) && Runs(w, steps, w')
    ensures Grew(w.root, w.store, w'.store) && w'.root == w.root
    decreases |steps|
  {
    if steps != [] {
      var w1 := Next(w, steps[0]);
      StepInv(w, steps[0]);
      StepGrows(w, steps[0]);
      RunGrows(w1, steps[1..], w');
      GrewTransitive(w.root, w.store, w1.store, w'.store);
    }
  }

  lemma GrewTransitive(root: string, s1: Store, s2: Store, s3: Store)
    requires Grew(root, s1, s2) && Grew(root, s2, s3)
    ensures Grew(root, s1, s3)
  {
    forall k
      ensures ChainAt(s1, k) <= ChainAt(s3, k)
      ensures forall i :: |ChainAt(s1, k)| <= i < |ChainAt(s3, k)| ==> ServedUnder(root, k, ChainAt(s3, k)[i])
      ensures ChainAt(s3, k) != ChainAt(s1, k) ==> Under(root, k)
    {
      forall i | |ChainAt(s1, k)| <= i < |ChainAt(s3, k)| ensures ServedUnder(root, k, ChainAt(s3, k)[i]) {
        if i < |ChainAt(s2, k)| {
          assert ChainAt(s2, k)[i] == ChainAt(s3, k)[i];
        }
      }
    }
  }

  lemma {:induction false} OpenedAreRecorded(st: Store, w: World, steps: seq<Step>, w': World)
    requires Inv(w) && Runs(w, steps, w') && OpenedRecorded(st, w)
    ensures OpenedRecorded(st, w')
    decreases |steps|
  {
    if steps != [] {
      StepInv(w, steps[0]);
      StepGrows(w, steps[0]);
      OpenedAreRecorded(st, Next(w, steps[0]), steps[1..], w');
    }
  }

  /** So every agent chain opened in this run is covered by DelegationsBacklink. */
  lemma OpenedChainsCovered(root: string, signer: PublicKey, st: Store, steps: seq<Step>, w: World, k: string)
    requires Reached(root, signer, st, steps, w)
    requires k != w.root && ChainAt(st, k) == [] && ChainAt(w.store, k) != []
    ensures k in w.firstSeen
  {
    InitialInv(root, signer, st);
    OpenedAreRecorded(st, Initial(root, signer, st), steps, w);
  }

  /** Running never alters or removes a stored receipt and never writes a terminal one. */
  lemma ServingOnlyAppends(root: string, signer: PublicKey, st: Store, steps: seq<Step>, w: World)
    requires Reached(root, signer, st, steps, w)
    ensures Grew(root, st, w.store) && StoreOk(w.store)
  {
    InitialInv(root, signer, st);
    RunGrows(Initial(root, signer, st), steps, w);
    ReachedInv(root, signer, st, steps, w);
    forall id | id in w.store ensures Linked(w.store[id], id) {
      assert ChainOk(w, id);
    }
  }
}
