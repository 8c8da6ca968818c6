/**
 daemon/internal/pipeline/build.go as the object it is, on one goroutine: `Process` with its
 allocations, explicit and deferred rollbacks, the terminators and the final flush, over the State
 objects of ChainState. Which calls into the store and the signer fail is a parameter.

 A mutex is only ever locked when it is free and unlocked when it is held, because State requires
 it; that all of them are free again at the end says every allocation was released exactly once.
 The root State and the map of agent States are one map here, keyed by chain id.
 */
module Pipeline {
  import opened Receipts
  import opened ChainState
  import M = PipelineMachine

  /** The calls that may fail; the two attempts at a delegation are separate calls. */
  datatype Op = Load | DropTail | LiveTail | BuildDrop | InsertDrop | BuildLive | InsertLive

  /** A decoded and validated frame; `id` stands for its content. */
  datatype Frame = Frame(id: nat, agent: string, dropCount: nat)

  lemma AppendLinked(st: Store, k: string, r: Receipt)
    requires AllLinked(st) && Continues(ChainAt(st, k), k, r)
    ensures AllLinked(M.Append(st, k, r))
    ensures ChainAt(M.Append(st, k, r), k) == ChainAt(st, k) + [r]
    ensures forall j :: j != k ==> ChainAt(M.Append(st, k, r), j) == ChainAt(st, j)
  {
    LinkedAppend(ChainAt(st, k), k, r);
  }

  // ---------- what one frame does to the store ----------

  /** What buildDelegation returns: the tail of the root chain. */
  function RootTail(st: Store, root: string): Option<Delegation> {
    var r := ChainAt(st, root);
    if r == [] then None else Some(Delegation(root, r[|r| - 1].id))
  }

  /** The backlink due on the next receipt of the agent's chain: only on its first one. */
  function BacklinkDue(st: Store, root: string, agent: string): Option<Delegation> {
    if agent == "" || ChainAt(st, ChainIdFor(root, agent)) != [] then None else RootTail(st, root)
  }

  function NextReceipt(st: Store, root: string, agent: string, kind: Kind, id: nat, signer: PublicKey): Receipt {
    var k := ChainIdFor(root, agent);
    var view := TailView(ChainAt(st, k));
    Receipt(id, k, view.nextSeq, view.prev, kind, false, BacklinkDue(st, root, agent), signer)
  }

  function Stored(st: Store, root: string, agent: string, kind: Kind, id: nat, signer: PublicKey): Store {
    M.Append(st, ChainIdFor(root, agent), NextReceipt(st, root, agent, kind, id, signer))
  }

  /** Whether the state of the agent's chain, and the backlink due, can be had. */
  predicate Reachable(st: Store, root: string, agent: string, known: bool, loadFails: bool, tailFails: bool) {
    agent == "" || ((known || !loadFails) && (ChainAt(st, ChainIdFor(root, agent)) == [] ==> !tailFails))
  }

  /** The result of a call: the store it leaves, and whether it returned nil. */
  datatype Result = Result(store: Store, ok: bool)

  function LiveResult(st: Store, root: string, f: Frame, known: bool, id: nat, signer: PublicKey,
                      faults: set<Op>): Result {
    if Reachable(st, root, f.agent, known, Load in faults, LiveTail in faults) &&
       BuildLive !in faults && InsertLive !in faults
    then Result(Stored(st, root, f.agent, Live(f.id), id, signer), true)
    else Result(st, false)
  }

  function DropResult(st: Store, root: string, f: Frame, known: bool, dropId: nat, id: nat, signer: PublicKey,
                      faults: set<Op>): Result {
    if !Reachable(st, root, f.agent, known, Load in faults, DropTail in faults) then Result(st, false)
    else FilledPair(st, root, f, dropId, id, signer, faults)
  }

  function FilledPair(st: Store, root: string, f: Frame, dropId: nat, id: nat, signer: PublicKey,
                      faults: set<Op>): Result {
    if BuildDrop in faults || InsertDrop in faults then LiveResult(st, root, f, true, id, signer, faults)
    else
      var st1 := Stored(st, root, f.agent, EventsDropped(f.id), dropId, signer);
      if BuildLive in faults || InsertLive in faults then Result(st1, false)
      else Result(Stored(st1, root, f.agent, Live(f.id), id, signer), true)
  }

  function ProcessResult(st: Store, root: string, f: Frame, known: bool, dropId: nat, id: nat, signer: PublicKey,
                         faults: set<Op>): Result {
    if f.dropCount > 0 then DropResult(st, root, f, known, dropId, id, signer, faults)
    else LiveResult(st, root, f, known, id, signer, faults)
  }

  // ---------- what shutdown does to the store ----------

  predicate Terminates(st: Store, k: string) {
    var c := ChainAt(st, k);
    c != [] && !c[|c| - 1].terminal
  }

  function Terminator(st: Store, k: string, id: nat, signer: PublicKey): Receipt {
    var view := TailView(ChainAt(st, k));
    Receipt(id, k, view.nextSeq, view.prev, ChainInterrupted, true, None, signer)
  }

  /**
   The chains whose tail query fails, those whose deadline has expired when the slot would be taken,
   and those whose signer, second deadline check or insert fails while it is held.
   */
  datatype Trouble = Trouble(query: set<string>, expired: set<string>, held: set<string>)

  function AfterOne(st: Store, k: string, id: nat, t: Trouble, signer: PublicKey): Store {
    if Terminates(st, k) && k !in t.query && k !in t.expired && k !in t.held
    then M.Append(st, k, Terminator(st, k, id, signer)) else st
  }

  /** A chain that is empty or already terminal needs nothing that could fail later. */
  predicate OneOk(st: Store, k: string, t: Trouble) {
    ChainAt(st, k) == [] || (k !in t.query && (Terminates(st, k) ==> k !in t.expired && k !in t.held))
  }

  function AfterAll(st: Store, order: seq<string>, ids: string -> nat, t: Trouble, signer: PublicKey): Store
    decreases |order|
  {
    if order == [] then st else AfterAll(AfterOne(st, order[0], ids(order[0]), t, signer), order[1..], ids, t, signer)
  }

  predicate AllOk(st: Store, order: seq<string>, ids: string -> nat, t: Trouble, signer: PublicKey)
    decreases |order|
  {
    order == [] ||
    (OneOk(st, order[0], t) && AllOk(AfterOne(st, order[0], ids(order[0]), t, signer), order[1..], ids, t, signer))
  }

  datatype Head = Head(chain: string, sequence: nat, hash: Hash)

  predicate IsHead(st: Store, h: Head) {
    var c := ChainAt(st, h.chain);
    c != [] && h == Head(h.chain, |c|, HashOf(c[|c| - 1]))
  }

  function HeadsOf(st: Store, order: seq<string>, failing: set<string>): seq<Head> {
    if order == [] then []
    else
      var c := ChainAt(st, order[0]);
      (if order[0] in failing || c == [] then [] else [Head(order[0], c[|c| - 1].sequence, HashOf(c[|c| - 1]))]) +
      HeadsOf(st, order[1..], failing)
  }

  lemma HeadsStep(st: Store, order: seq<string>, i: nat, failing: set<string>, heads: seq<Head>)
    requires i < |order|
    ensures var c := ChainAt(st, order[i]);
            heads + HeadsOf(st, order[i..], failing) ==
              (if order[i] in failing || c == [] then heads
               else heads + [Head(order[i], c[|c| - 1].sequence, HashOf(c[|c| - 1]))]) +
              HeadsOf(st, order[i + 1..], failing)
  {
    assert order[i..][0] == order[i] && order[i..][1..] == order[i + 1..];
  }

  /** The walk over the chains has come to position `i`: the store and the verdict so far. */
  ghost predicate WalkedTo(before: Store, st: Store, order: seq<string>, i: nat, ids: string -> nat, t: Trouble,
                           signer: PublicKey, ok: bool)
    requires i <= |order|
  {
    && AfterAll(st, order[i..], ids, t, signer) == AfterAll(before, order, ids, t, signer)
    && AllOk(before, order, ids, t, signer) == (ok && AllOk(st, order[i..], ids, t, signer))
  }

  lemma WalkBegins(st: Store, order: seq<string>, ids: string -> nat, t: Trouble, signer: PublicKey)
    ensures WalkedTo(st, st, order, 0, ids, t, signer, true)
  {
    assert order[0..] == order;
  }

  lemma WalkGoesOn(before: Store, st: Store, order: seq<string>, i: nat, ids: string -> nat, t: Trouble,
                   signer: PublicKey, ok: bool)
    requires i < |order| && WalkedTo(before, st, order, i, ids, t, signer, ok)
    ensures WalkedTo(before, AfterOne(st, order[i], ids(order[i]), t, signer), order, i + 1, ids, t, signer,
                     ok && OneOk(st, order[i], t))
  {
    assert order[i..][0] == order[i] && order[i..][1..] == order[i + 1..];
  }

  class Pipeline {
    const root: string
    const signer: PublicKey
    var chains: map<string, State>
    var store: Store

    constructor (root: string, signer: PublicKey, store: Store)
      requires AllLinked(store)
      ensures Valid() && this.root == root && this.signer == signer && this.store == store
      ensures chains.Keys == {root} && fresh(chains[root])
    {
      this.root, this.signer, this.store, chains := root, signer, store, map[];
      new;
      var s := LoadState(root);
      chains := map[root := s];
    }

    /** The in-memory tail is the stored tail. */
    ghost predicate Current(s: State)
      reads this, s
    {
      s.View() == TailView(ChainAt(store, s.chainId))
    }

    /** Everything is in order but the States in `except`. */
    ghost predicate ValidBut(except: set<State>)
      reads this, chains.Values
    {
      && AllLinked(store) && root in chains
      && (forall k :: k in chains ==>
            chains[k].chainId == k && (chains[k] !in except ==> !chains[k].locked && Current(chains[k])))
    }

    /** All mutexes are free and every in-memory tail is the stored tail. */
    ghost predicate Valid()
      reads this, chains.Values
    {
      ValidBut({})
    }

    ghost predicate Has(k: string, s: State)
      reads this
    {
      k in chains && chains[k] == s
    }

    /** LoadFromStore: a State nobody else knows yet. */
    method LoadState(k: string) returns (s: State)
      requires AllLinked(store)
      ensures fresh(s) && s.chainId == k && !s.locked && Current(s)
    {
      var c := ChainAt(store, k);
      LoadedIsTail(c, k);
      s := new State.NewFromTail(k, if c == [] then 0 else c[|c| - 1].sequence, TailHash(c), c != []);
    }

    /** Reading NextSeq takes and releases the mutex and changes nothing else. */
    method PeekSeq(s: State) returns (n: nat)
      requires Valid() && s in chains.Values
      modifies s
      ensures Valid() && n == |ChainAt(store, s.chainId)| + 1
    {
      n := s.NextSeq();
    }

    /** The agent is known: the backlink is derived again while the first receipt is missing. */
    method KnownState(agent: string, tailFails: bool) returns (ok: bool, s: State, del: Option<Delegation>)
      requires Valid() && agent != "" && ChainIdFor(root, agent) in chains
      modifies chains.Values
      ensures Valid() && Has(ChainIdFor(root, agent), s)
      ensures ok == Reachable(store, root, agent, true, false, tailFails)
      ensures ok ==> del == BacklinkDue(store, root, agent)
    {
      ok, s, del := true, chains[ChainIdFor(root, agent)], None;
      var n := PeekSeq(s);
      if n == 1 {
        if tailFails {
          return false, s, None;
        }
        del := RootTail(store, root);
      }
    }

    /** The agent is new to this run: its chain is loaded and installed. */
    method NewState(agent: string, loadFails: bool, tailFails: bool)
      returns (ok: bool, s: State, del: Option<Delegation>)
      requires Valid() && agent != "" && ChainIdFor(root, agent) !in chains
      modifies this`chains
      ensures Valid() && Grown(old(chains), ChainIdFor(root, agent))
      ensures ok == Reachable(store, root, agent, false, loadFails, tailFails)
      ensures ok ==> Has(ChainIdFor(root, agent), s) && del == BacklinkDue(store, root, agent)
    {
      var k := ChainIdFor(root, agent);
      ok, s, del := false, chains[root], None;
      if loadFails {
        return;
      }
      s := LoadState(k);
      var n := s.NextSeq();
      if n == 1 {
        if tailFails {
          return;
        }
        del := RootTail(store, root);
      }
      Install(k, s);
      ok := true;
    }

    method Install(k: string, s: State)
      requires Valid() && k !in chains && s.chainId == k && !s.locked && Current(s)
      modifies this`chains
      ensures Valid() && chains == old(chains)[k := s]
    {
      chains := chains[k := s];
    }

    /** getOrCreateAgentState; the double check for a concurrent creator is in PipelineMachine. */
    method GetOrCreateAgentState(agent: string, loadFails: bool, tailFails: bool)
      returns (ok: bool, s: State, del: Option<Delegation>)
      requires Valid()
      modifies this`chains, chains.Values
      ensures Valid() && Grown(old(chains), ChainIdFor(root, agent))
      ensures ok == Reachable(store, root, agent, ChainIdFor(root, agent) in old(chains), loadFails, tailFails)
      ensures ok ==> Has(ChainIdFor(root, agent), s) && del == BacklinkDue(store, root, agent)
    {
      if agent == "" {
        return true, chains[root], None;
      }
      if ChainIdFor(root, agent) in chains {
        ok, s, del := KnownState(agent, tailFails);
      } else {
        ok, s, del := NewState(agent, loadFails, tailFails);
      }
    }

    /** The map of chains may only grow by the one given, with a new State. */
    twostate predicate Grown(before: map<string, State>, k: string)
      reads this
    {
      chains == before || (k !in before && k in chains && fresh(chains[k]) && chains == before[k := chains[k]])
    }

    // ---------- slots ----------

    /** An allocation holds the State of chain `k`; everything else is in order. */
    ghost predicate Held(k: string, s: State, release: Once)
      reads this, chains.Values, release
    {
      Has(k, s) && ValidBut({s}) && s.locked && !release.done
    }

    method AllocateOn(k: string, s: State) returns (alloc: Allocation)
      requires Valid() && Has(k, s)
      modifies s`locked
      ensures alloc.state == s && fresh(alloc.release) && Held(k, s, alloc.release) && Current(s)
      ensures ChainView(alloc.sequence, alloc.prevHash) == TailView(ChainAt(store, k))
    {
      alloc := s.Allocate();
    }

    method AllocatePairOn(k: string, s: State) returns (pair: PairAlloc)
      requires Valid() && Has(k, s)
      modifies s`locked
      ensures pair.state == s && fresh(pair.release) && Held(k, s, pair.release) && Current(s)
      ensures ChainView(pair.firstSeq, pair.firstPrev) == TailView(ChainAt(store, k))
    {
      pair := s.AllocatePair();
    }

    /** The first rollback releases the slot unused; later, deferred ones do nothing. */
    method RollBack(ghost k: string, alloc: Allocation)
      requires Held(k, alloc.state, alloc.release) && Current(alloc.state)
      modifies alloc.state, alloc.release
      ensures Valid() && alloc.release.done
    {
      alloc.Rollback();
    }

    method RollBackPair(ghost k: string, pair: PairAlloc)
      requires Held(k, pair.state, pair.release) && Current(pair.state)
      modifies pair.state, pair.release
      ensures Valid() && pair.release.done
    {
      pair.Rollback();
    }

    method DeferredRollback(alloc: Allocation)
      requires Valid() && alloc.release.done
      modifies alloc.state, alloc.release
      ensures Valid() && alloc.release.done
    {
      alloc.Rollback();
    }

    method DeferredPairRollback(pair: PairAlloc)
      requires Valid() && pair.release.done
      modifies pair.state, pair.release
      ensures Valid() && pair.release.done
    {
      pair.Rollback();
    }

    /** Store.Insert of a receipt that continues its chain. */
    method InsertReceipt(k: string, s: State, ghost release: Once, r: Receipt)
      requires Held(k, s, release) && Continues(ChainAt(store, k), k, r)
      modifies this`store
      ensures Held(k, s, release) && store == M.Append(old(store), k, r)
    {
      AppendLinked(store, k, r);
      store := M.Append(store, k, r);
    }

    /** `r` is the stored tail of chain `k`. */
    ghost predicate IsTail(k: string, r: Receipt)
      reads this
    {
      var c := ChainAt(store, k);
      c != [] && c[|c| - 1] == r && r.sequence == |c|
    }

    method CommitSlot(ghost k: string, alloc: Allocation, r: Receipt)
      requires Held(k, alloc.state, alloc.release) && IsTail(k, r) && alloc.sequence == r.sequence
      modifies alloc.state, alloc.release
      ensures Valid() && alloc.release.done
    {
      alloc.Commit(HashOf(r));
    }

    method CommitFirstSlot(ghost k: string, pair: PairAlloc, r: Receipt) returns (second: Allocation)
      requires Held(k, pair.state, pair.release) && IsTail(k, r) && pair.firstSeq == r.sequence
      modifies pair.state
      ensures second.state == pair.state && second.release == pair.release &&
              Held(k, second.state, second.release) && Current(second.state)
      ensures ChainView(second.sequence, second.prevHash) == TailView(ChainAt(store, k))
    {
      second := pair.CommitFirst(HashOf(r));
    }

    // ---------- one frame ----------

    /** The part of processLive and processWithDrop that fills the live slot. */
    method FillLive(f: Frame, k: string, alloc: Allocation, del: Option<Delegation>, id: nat, faults: set<Op>)
      returns (ok: bool)
      requires k == ChainIdFor(root, f.agent) && Held(k, alloc.state, alloc.release) && Current(alloc.state)
      requires ChainView(alloc.sequence, alloc.prevHash) == TailView(ChainAt(store, k))
      requires del == BacklinkDue(store, root, f.agent)
      modifies this`store, alloc.state, alloc.release
      ensures Valid() && alloc.release.done
      ensures ok == (BuildLive !in faults && InsertLive !in faults)
      ensures store == if ok then Stored(old(store), root, f.agent, Live(f.id), id, signer) else old(store)
    {
      if BuildLive in faults || InsertLive in faults {
        RollBack(k, alloc);
        return false;
      }
      var r := Receipt(id, k, alloc.sequence, alloc.prevHash, Live(f.id), false, del, signer);
      AppendLinked(store, k, r);
      InsertReceipt(k, alloc.state, alloc.release, r);
      CommitSlot(k, alloc, r);
      ok := true;
    }

    /** Allocate, fill, and the deferred rollback. */
    method LiveOnState(f: Frame, s: State, delegation: Option<Delegation>, id: nat, faults: set<Op>) returns (ok: bool)
      requires Valid() && Has(ChainIdFor(root, f.agent), s) && delegation == BacklinkDue(store, root, f.agent)
      modifies this`store, s
      ensures Valid()
      ensures ok == (BuildLive !in faults && InsertLive !in faults)
      ensures store == if ok then Stored(old(store), root, f.agent, Live(f.id), id, signer) else old(store)
    {
      var k, del := ChainIdFor(root, f.agent), delegation;
      var alloc := AllocateOn(k, s);
      if alloc.sequence != 1 {
        del := None;
      }
      ok := FillLive(f, k, alloc, del, id, faults);
      DeferredRollback(alloc);
    }

    method ProcessLive(f: Frame, id: nat, faults: set<Op>) returns (ok: bool)
      requires Valid()
      modifies this`chains, this`store, chains.Values
      ensures Valid() && Grown(old(chains), ChainIdFor(root, f.agent))
      ensures Result(store, ok) ==
                LiveResult(old(store), root, f, ChainIdFor(root, f.agent) in old(chains), id, signer, faults)
    {
      var found, s, del := GetOrCreateAgentState(f.agent, Load in faults, LiveTail in faults);
      if !found {
        return false;
      }
      ok := LiveOnState(f, s, del, id, faults);
    }

    /**
     The two slots of a pair. `failed` says that the synthetic receipt was not stored; the slot has
     been rolled back then, before the frame is processed again without it.
     */
    method PairOnState(f: Frame, s: State, delegation: Option<Delegation>, dropId: nat, id: nat, faults: set<Op>)
      returns (pair: PairAlloc, failed: bool, ok: bool)
      requires Valid() && Has(ChainIdFor(root, f.agent), s) && delegation == BacklinkDue(store, root, f.agent)
      modifies this`store, s
      ensures Valid() && pair.state == s && fresh(pair.release) && pair.release.done
      ensures failed == (BuildDrop in faults || InsertDrop in faults)
      ensures failed ==> store == old(store)
      ensures !failed ==>
                ok == (BuildLive !in faults && InsertLive !in faults) &&
                var st1 := Stored(old(store), root, f.agent, EventsDropped(f.id), dropId, signer);
                store == if ok then Stored(st1, root, f.agent, Live(f.id), id, signer) else st1
    {
      var k, del := ChainIdFor(root, f.agent), delegation;
      pair := AllocatePairOn(k, s);
      if pair.firstSeq != 1 {
        del := None;
      }
      ok := false;
      failed := BuildDrop in faults || InsertDrop in faults;
      if failed {
        RollBackPair(k, pair);
        return;
      }
      var synthetic := Receipt(dropId, k, pair.firstSeq, pair.firstPrev, EventsDropped(f.id), false, del, signer);
      AppendLinked(store, k, synthetic);
      InsertReceipt(k, s, pair.release, synthetic);
      var second := CommitFirstSlot(k, pair, synthetic);
      ok := FillLive(f, k, second, None, id, faults);
      DeferredRollback(second);
    }

    /** The deferred pair.Rollback runs last, after a possible fallback to processLive. */
    method PairOrLive(f: Frame, s: State, delegation: Option<Delegation>, dropId: nat, id: nat, faults: set<Op>)
      returns (ok: bool)
      requires Valid() && Has(ChainIdFor(root, f.agent), s) && delegation == BacklinkDue(store, root, f.agent)
      modifies this`chains, this`store, chains.Values
      ensures Valid()
      ensures Result(store, ok) == FilledPair(old(store), root, f, dropId, id, signer, faults)
    {
      var pair, failed;
      pair, failed, ok := PairOnState(f, s, delegation, dropId, id, faults);
      if failed {
        ok := ProcessLive(f, id, faults);
      }
      DeferredPairRollback(pair);
    }

    method ProcessWithDrop(f: Frame, dropId: nat, id: nat, faults: set<Op>) returns (ok: bool)
      requires Valid()
      modifies this`chains, this`store, chains.Values
      ensures Valid()
      ensures Result(store, ok) ==
                DropResult(old(store), root, f, ChainIdFor(root, f.agent) in old(chains), dropId, id, signer, faults)
    {
      var found, s, del := GetOrCreateAgentState(f.agent, Load in faults, DropTail in faults);
      if !found {
        return false;
      }
      ok := PairOrLive(f, s, del, dropId, id, faults);
    }

    method Process(f: Frame, dropId: nat, id: nat, faults: set<Op>) returns (ok: bool)
      requires Valid()
      modifies this`chains, this`store, chains.Values
      ensures Valid()
      ensures Result(store, ok) ==
                ProcessResult(old(store), root, f, ChainIdFor(root, f.agent) in old(chains), dropId, id, signer, faults)
    {
      if f.dropCount > 0 {
        ok := ProcessWithDrop(f, dropId, id, faults);
      } else {
        ok := ProcessLive(f, id, faults);
      }
    }

    // ---------- shutdown ----------

    /** emitTerminatorForChain. */
    method EmitTerminatorForChain(k: string, id: nat, t: Trouble) returns (ok: bool)
      requires Valid() && k in chains
      modifies this`store, chains[k]
      ensures Valid()
      ensures store == AfterOne(old(store), k, id, t, signer) && ok == OneOk(old(store), k, t)
    {
      var s := chains[k];
      var n := PeekSeq(s);
      if n == 1 {
        return true;
      }
      if k in t.query {
        return false;
      }
      var c := ChainAt(store, k);
      if c[|c| - 1].terminal {
        return true;
      }
      if k in t.expired {
        return false;
      }
      ok := TerminateHeld(k, id, s, k in t.held);
    }

    /** The part of emitTerminatorForChain that holds the slot. */
    method TerminateHeld(k: string, id: nat, s: State, fails: bool) returns (ok: bool)
      requires Valid() && Has(k, s)
      modifies this`store, s
      ensures Valid() && ok == !fails
      ensures store == if fails then old(store) else M.Append(old(store), k, Terminator(old(store), k, id, signer))
    {
      var alloc := AllocateOn(k, s);
      if fails {
        RollBack(k, alloc);
        return false;
      }
      var r := Receipt(id, k, alloc.sequence, alloc.prevHash, ChainInterrupted, true, None, signer);
      AppendLinked(store, k, r);
      InsertReceipt(k, s, alloc.release, r);
      CommitSlot(k, alloc, r);
      DeferredRollback(alloc);
      ok := true;
    }

    /** A walk over the map of agent chains, in whatever order, and then the root chain. */
    ghost predicate Walk(order: seq<string>)
      reads this
    {
      order != [] && order[|order| - 1] == root && (forall k :: k in chains <==> k in order) &&
      forall i, j :: 0 <= i < j < |order| ==> order[i] != order[j]
    }

    /** EmitTerminator: every opened chain is attempted, even after a failure, and the first error is kept. */
    method EmitTerminator(order: seq<string>, ids: string -> nat, t: Trouble) returns (ok: bool)
      requires Valid() && Walk(order)
      modifies this`store, chains.Values
      ensures Valid()
      ensures store == AfterAll(old(store), order, ids, t, signer)
      ensures ok == AllOk(old(store), order, ids, t, signer)
    {
      ok := true;
      WalkBegins(store, order, ids, t, signer);
      for i := 0 to |order|
        invariant Valid() && chains == old(chains) && WalkedTo(old(store), store, order, i, ids, t, signer, ok)
      {
        WalkGoesOn(old(store), store, order, i, ids, t, signer, ok);
        assert order[i] in order;
        var one := EmitTerminatorForChain(order[i], ids(order[i]), t);
        ok := ok && one;
      }
    }

    /** FlushCheckpoints: the heads handed to the emitter, read from the store chain by chain. */
    method FlushCheckpoints(order: seq<string>, failing: set<string>) returns (heads: seq<Head>)
      requires Walk(order)
      ensures heads == HeadsOf(store, order, failing)
    {
      heads := [];
      for i := 0 to |order|
        invariant heads + HeadsOf(store, order[i..], failing) == HeadsOf(store, order, failing)
      {
        HeadsStep(store, order, i, failing, heads);
        var k := order[i];
        var c := ChainAt(store, k);
        if k in failing || c == [] {
          continue;
        }
        heads := heads + [Head(k, c[|c| - 1].sequence, HashOf(c[|c| - 1]))];
      }
    }
  }

  // ---------- what the results mean ----------

  /** After the terminators every attempted chain that was open has exactly one more receipt, its terminator. */
  lemma {:induction false} AfterAllAt(st: Store, order: seq<string>, ids: string -> nat, t: Trouble,
                                      signer: PublicKey, k: string)
    requires forall i, j :: 0 <= i < j < |order| ==> order[i] != order[j]
    ensures ChainAt(AfterAll(st, order, ids, t, signer), k) ==
              if k in order && k !in t.query && k !in t.expired && k !in t.held && Terminates(st, k)
              then ChainAt(st, k) + [Terminator(st, k, ids(k), signer)]
              else ChainAt(st, k)
    decreases |order|
  {
    if order != [] {
      var st1 := AfterOne(st, order[0], ids(order[0]), t, signer);
      assert order == [order[0]] + order[1..];
      AfterAllAt(st1, order[1..], ids, t, signer, k);
      if k == order[0] {
        assert k !in order[1..];
      }
    }
  }

  /** No attempt on the chain can fail. */
  predicate Untroubled(t: Trouble, k: string) {
    k !in t.query && k !in t.expired && k !in t.held
  }

  /** The chain was open and has ended: one receipt more, which continues it and is its interrupted terminator. */
  predicate EndedBy(c: Chain, c': Chain, k: string, id: nat, signer: PublicKey) {
    && |c'| == |c| + 1 && c <= c' && Continues(c, k, c'[|c|])
    && c'[|c|].terminal && c'[|c|].kind == ChainInterrupted && c'[|c|].delegation == None
    && c'[|c|].id == id && c'[|c|].signer == signer
  }

  lemma AfterOneLinked(st: Store, k: string, id: nat, t: Trouble, signer: PublicKey)
    requires AllLinked(st)
    ensures AllLinked(AfterOne(st, k, id, t, signer))
  {
    if AfterOne(st, k, id, t, signer) != st {
      AppendLinked(st, k, Terminator(st, k, id, signer));
    }
  }

  lemma {:induction false} AfterAllLinked(st: Store, order: seq<string>, ids: string -> nat, t: Trouble,
                                          signer: PublicKey)
    requires AllLinked(st)
    ensures AllLinked(AfterAll(st, order, ids, t, signer))
    decreases |order|
  {
    if order != [] {
      AfterOneLinked(st, order[0], ids(order[0]), t, signer);
      AfterAllLinked(AfterOne(st, order[0], ids(order[0]), t, signer), order[1..], ids, t, signer);
    }
  }

  /**
   What shutdown does to any chain of a well-linked store: an attempted open chain without trouble ends with its
   terminator, every other chain stays as it is, and "terminal is last" and the links are kept.
   */
  lemma ShutdownEndsChains(st: Store, order: seq<string>, ids: string -> nat, t: Trouble, signer: PublicKey, k: string)
    requires AllLinked(st) && forall i, j :: 0 <= i < j < |order| ==> order[i] != order[j]
    ensures var st' := AfterAll(st, order, ids, t, signer);
            var c, c' := ChainAt(st, k), ChainAt(st', k);
            && AllLinked(st') && (TerminalLast(c) ==> TerminalLast(c'))
            && if k in order && Untroubled(t, k) && c != [] && !c[|c| - 1].terminal
               then EndedBy(c, c', k, ids(k), signer) else c' == c
  {
    AfterAllLinked(st, order, ids, t, signer);
    AfterAllAt(st, order, ids, t, signer, k);
  }

  lemma {:induction false} NothingToEnd(st: Store, order: seq<string>, ids: string -> nat, t: Trouble,
                                        signer: PublicKey)
    requires forall k :: k in order ==> !Terminates(st, k)
    ensures AfterAll(st, order, ids, t, signer) == st
    decreases |order|
  {
    if order != [] {
      assert order == [order[0]] + order[1..];
      NothingToEnd(st, order[1..], ids, t, signer);
    }
  }

  /** After a shutdown without trouble on these chains a second one, however it goes, changes nothing. */
  lemma SecondShutdownIsIdle(st: Store, order: seq<string>, ids: string -> nat, t: Trouble, signer: PublicKey,
                             again: seq<string>, ids2: string -> nat, t2: Trouble)
    requires AllLinked(st) && forall i, j :: 0 <= i < j < |order| ==> order[i] != order[j]
    requires forall k :: k in again ==> k in order && Untroubled(t, k)
    ensures var st' := AfterAll(st, order, ids, t, signer);
            AfterAll(st', again, ids2, t2, signer) == st'
  {
    var st' := AfterAll(st, order, ids, t, signer);
    forall k | k in again ensures !Terminates(st', k) {
      ShutdownEndsChain(st, order, ids, t, signer, k);
    }
    NothingToEnd(st', again, ids2, t2, signer);
  }

  lemma ShutdownEndsChain(st: Store, order: seq<string>, ids: string -> nat, t: Trouble, signer: PublicKey, k: string)
    requires forall i, j :: 0 <= i < j < |order| ==> order[i] != order[j]
    requires k in order && Untroubled(t, k)
    ensures !Terminates(AfterAll(st, order, ids, t, signer), k)
  {
    AfterAllAt(st, order, ids, t, signer, k);
    EndsTerminal(ChainAt(st, k), Terminator(st, k, ids(k), signer));
  }

  lemma EndsTerminal(c: Chain, r: Receipt)
    requires r.terminal
    ensures (c + [r])[|c + [r]| - 1].terminal
  {
  }

  /** The call reports success exactly when no chain failed by itself: one failure does not touch the others. */
  lemma {:induction false} AllOkIff(st: Store, order: seq<string>, ids: string -> nat, t: Trouble, signer: PublicKey)
    requires forall i, j :: 0 <= i < j < |order| ==> order[i] != order[j]
    ensures AllOk(st, order, ids, t, signer) <==> forall k :: k in order ==> OneOk(st, k, t)
    decreases |order|
  {
    if order != [] {
      var st1 := AfterOne(st, order[0], ids(order[0]), t, signer);
      assert order == [order[0]] + order[1..];
      AllOkIff(st1, order[1..], ids, t, signer);
      forall k | k in order[1..] ensures OneOk(st1, k, t) == OneOk(st, k, t) {
        OneOkStable(st, order[0], ids(order[0]), t, signer, k);
      }
    }
  }

  /** In terms of what went wrong: a chain fails by its query, or, being open, by its deadline or with its slot held. */
  lemma ShutdownSucceedsIff(st: Store, order: seq<string>, ids: string -> nat, t: Trouble, signer: PublicKey)
    requires forall i, j :: 0 <= i < j < |order| ==> order[i] != order[j]
    ensures AllOk(st, order, ids, t, signer) <==>
              forall k :: k in order && ChainAt(st, k) != [] ==>
                k !in t.query &&
                (ChainAt(st, k)[|ChainAt(st, k)| - 1].terminal || (k !in t.expired && k !in t.held))
  {
    AllOkIff(st, order, ids, t, signer);
    assert forall k :: OneOk(st, k, t) <==>
      ChainAt(st, k) == [] ||
      (k !in t.query && (ChainAt(st, k)[|ChainAt(st, k)| - 1].terminal || (k !in t.expired && k !in t.held)));
  }

  lemma OneOkStable(st: Store, j: string, id: nat, t: Trouble, signer: PublicKey, k: string)
    requires j != k
    ensures OneOk(AfterOne(st, j, id, t, signer), k, t) == OneOk(st, k, t)
  {
  }

  lemma {:induction false} HeadsOfAt(st: Store, order: seq<string>, failing: set<string>, h: Head)
    requires AllLinked(st)
    ensures h in HeadsOf(st, order, failing) <==> h.chain in order && h.chain !in failing && IsHead(st, h)
    decreases |order|
  {
    if order != [] {
      assert order == [order[0]] + order[1..];
      HeadsOfAt(st, order[1..], failing, h);
      var c := ChainAt(st, order[0]);
      if c != [] {
        LinkedAt(c, order[0], |c| - 1);
      }
    }
  }

  /** The walk visits `a` at some position and `b` at a later one. */
  ghost predicate Before(order: seq<string>, a: string, b: string) {
    exists p, q :: 0 <= p < q < |order| && order[p] == a && order[q] == b
  }

  lemma BeforeLater(order: seq<string>, a: string, b: string)
    requires order != []
    ensures Before(order[1..], a, b) ==> Before(order, a, b)
    ensures a == order[0] && b in order[1..] ==> Before(order, a, b)
  {
    if Before(order[1..], a, b) {
      var p, q :| 0 <= p < q < |order[1..]| && order[1..][p] == a && order[1..][q] == b;
      assert order[p + 1] == a && order[q + 1] == b;
    }
    if a == order[0] && b in order[1..] {
      var q :| 0 <= q < |order[1..]| && order[1..][q] == b;
      assert order[0] == a && order[q + 1] == b;
    }
  }

  /** The heads stand in the order in which the walk visits their chains, each of them later than the one before. */
  ghost predicate InOrder(order: seq<string>, heads: seq<Head>) {
    forall i, j :: 0 <= i < j < |heads| ==> Before(order, heads[i].chain, heads[j].chain)
  }

  lemma OneMoreInOrder(order: seq<string>, heads: seq<Head>, rest: seq<Head>)
    requires order != [] && InOrder(order[1..], rest) && forall h :: h in rest ==> h.chain in order[1..]
    requires heads == rest || (heads != [] && heads[0].chain == order[0] && heads[1..] == rest)
    ensures InOrder(order, heads)
  {
    forall i, j | 0 <= i < j < |heads| ensures Before(order, heads[i].chain, heads[j].chain) {
      BeforeLater(order, heads[i].chain, heads[j].chain);
      if heads != rest {
        assert heads[j] == rest[j - 1] && (i > 0 ==> heads[i] == rest[i - 1]);
      }
    }
  }

  /** Each chain is flushed at most once, in the order of the walk. */
  lemma {:induction false} HeadsFollowTheWalk(st: Store, order: seq<string>, failing: set<string>)
    requires AllLinked(st)
    ensures InOrder(order, HeadsOf(st, order, failing))
    decreases |order|
  {
    if order != [] {
      var rest := HeadsOf(st, order[1..], failing);
      HeadsFollowTheWalk(st, order[1..], failing);
      forall h | h in rest ensures h.chain in order[1..] {
        HeadsOfAt(st, order[1..], failing, h);
      }
      OneMoreInOrder(order, HeadsOf(st, order, failing), rest);
    }
  }

  /** The receipts of a frame, as they are appended: a synthetic one, a live one, both or none. */
  datatype Added = Added(synthetic: bool, live: bool)

  /** What a frame did to its chain, `c` before and `c'` after; links and sequences are for AllLinked to say. */
  predicate Does(c: Chain, c': Chain, a: Added, f: Frame, dropId: nat, id: nat, signer: PublicKey) {
    var n := |c| + (if a.synthetic then 1 else 0) + (if a.live then 1 else 0);
    && c <= c' && |c'| == n
    && (a.synthetic ==> c'[|c|].kind == EventsDropped(f.id) && c'[|c|].id == dropId)
    && (a.live ==> c'[n - 1].kind == Live(f.id) && c'[n - 1].id == id)
    && (forall i :: |c| <= i < n ==>
          !c'[i].terminal && c'[i].signer == signer && (i > |c| ==> c'[i].delegation == None))
  }

  /**
   The backlink on the first receipt a frame stores: present exactly on the first receipt of an agent chain
   whose root chain has receipts, and then it names the last of these.
   */
  predicate Backlinked(st: Store, root: string, agent: string, d: Option<Delegation>) {
    var r := ChainAt(st, root);
    && (d.Some? <==> agent != "" && ChainAt(st, ChainIdFor(root, agent)) == [] && r != [])
    && (d.Some? ==> d.value.parentChain == root && r[|r| - 1].id == d.value.parentId)
  }

  lemma BacklinkDueIs(st: Store, root: string, agent: string)
    ensures Backlinked(st, root, agent, BacklinkDue(st, root, agent))
  {
  }

  lemma StoredDoes(st: Store, root: string, agent: string, kind: Kind, id: nat, signer: PublicKey)
    requires AllLinked(st)
    ensures var st' := Stored(st, root, agent, kind, id, signer);
            var k := ChainIdFor(root, agent);
            && AllLinked(st') && ChainAt(st', k) == ChainAt(st, k) + [NextReceipt(st, root, agent, kind, id, signer)]
            && (forall j :: j != k ==> ChainAt(st', j) == ChainAt(st, j))
  {
    AppendLinked(st, ChainIdFor(root, agent), NextReceipt(st, root, agent, kind, id, signer));
  }

  /** The frame added `a` to its chain, changed no other, and all chains are well linked. */
  ghost predicate Effect(st: Store, st': Store, root: string, f: Frame, a: Added, dropId: nat, id: nat,
                         signer: PublicKey) {
    var k := ChainIdFor(root, f.agent);
    && AllLinked(st') && (forall j :: j != k ==> ChainAt(st', j) == ChainAt(st, j))
    && Does(ChainAt(st, k), ChainAt(st', k), a, f, dropId, id, signer)
    && (a.synthetic || a.live ==> Backlinked(st, root, f.agent, ChainAt(st', k)[|ChainAt(st, k)|].delegation))
  }

  lemma LiveMeaning(st: Store, root: string, f: Frame, known: bool, dropId: nat, id: nat, signer: PublicKey,
                    faults: set<Op>)
    requires AllLinked(st)
    ensures var r := LiveResult(st, root, f, known, id, signer, faults);
            Effect(st, r.store, root, f, Added(false, r.ok), dropId, id, signer)
  {
    StoredDoes(st, root, f.agent, Live(f.id), id, signer);
  }

  lemma DropAloneMeaning(st: Store, root: string, f: Frame, dropId: nat, id: nat, signer: PublicKey)
    requires AllLinked(st)
    ensures var st1 := Stored(st, root, f.agent, EventsDropped(f.id), dropId, signer);
            Effect(st, st1, root, f, Added(true, false), dropId, id, signer)
  {
    StoredDoes(st, root, f.agent, EventsDropped(f.id), dropId, signer);
  }

  lemma PairDoes(c: Chain, r1: Receipt, r2: Receipt, f: Frame, dropId: nat, id: nat, signer: PublicKey)
    requires r1.kind == EventsDropped(f.id) && r1.id == dropId && !r1.terminal && r1.signer == signer
    requires r2.kind == Live(f.id) && r2.id == id && !r2.terminal && r2.signer == signer && r2.delegation == None
    ensures Does(c, c + [r1] + [r2], Added(true, true), f, dropId, id, signer)
    ensures (c + [r1] + [r2])[|c|] == r1
  {
  }

  lemma PairMeaning(st: Store, root: string, f: Frame, dropId: nat, id: nat, signer: PublicKey)
    requires AllLinked(st)
    ensures var st1 := Stored(st, root, f.agent, EventsDropped(f.id), dropId, signer);
            var st2 := Stored(st1, root, f.agent, Live(f.id), id, signer);
            Effect(st, st2, root, f, Added(true, true), dropId, id, signer)
  {
    var c := ChainAt(st, ChainIdFor(root, f.agent));
    var r1 := NextReceipt(st, root, f.agent, EventsDropped(f.id), dropId, signer);
    StoredDoes(st, root, f.agent, EventsDropped(f.id), dropId, signer);
    var st1 := Stored(st, root, f.agent, EventsDropped(f.id), dropId, signer);
    var r2 := NextReceipt(st1, root, f.agent, Live(f.id), id, signer);
    StoredDoes(st1, root, f.agent, Live(f.id), id, signer);
    PairDoes(c, r1, r2, f, dropId, id, signer);
    BacklinkDueIs(st, root, f.agent);
  }

  /** The State of an agent chain that is not installed cannot be loaded. */
  predicate NoState(f: Frame, known: bool, faults: set<Op>) {
    f.agent != "" && !known && Load in faults
  }

  /** The chain would begin with a backlink, and the attempt `op` to compute it fails. */
  predicate NoBacklink(st: Store, root: string, f: Frame, op: Op, faults: set<Op>) {
    f.agent != "" && ChainAt(st, ChainIdFor(root, f.agent)) == [] && op in faults
  }

  /** Exactly when a frame gets its synthetic receipt. */
  predicate StoresDrop(st: Store, root: string, f: Frame, known: bool, faults: set<Op>) {
    && f.dropCount > 0 && !NoState(f, known, faults) && !NoBacklink(st, root, f, DropTail, faults)
    && BuildDrop !in faults && InsertDrop !in faults
  }

  /**
   Exactly when Process returns nil: its State can be had, the backlink can be computed whenever it is asked for
   (a failed synthetic receipt asks a second time), and the live receipt can be built and inserted.
   */
  predicate StoresLive(st: Store, root: string, f: Frame, known: bool, faults: set<Op>) {
    && !NoState(f, known, faults) && BuildLive !in faults && InsertLive !in faults
    && (f.dropCount > 0 ==> !NoBacklink(st, root, f, DropTail, faults))
    && (!StoresDrop(st, root, f, known, faults) ==> !NoBacklink(st, root, f, LiveTail, faults))
  }

  lemma OkIff(st: Store, root: string, f: Frame, known: bool, dropId: nat, id: nat, signer: PublicKey, faults: set<Op>)
    ensures ProcessResult(st, root, f, known, dropId, id, signer, faults).ok == StoresLive(st, root, f, known, faults)
  {
  }

  /**
   What Process does, for every combination of faults: which receipts are added, in which order and with which
   content, and that nil is returned exactly when the live one is; no other chain changes and all stay well linked.
   */
  lemma ProcessMeaning(st: Store, root: string, f: Frame, known: bool, dropId: nat, id: nat, signer: PublicKey,
                       faults: set<Op>)
    requires AllLinked(st)
    ensures var r := ProcessResult(st, root, f, known, dropId, id, signer, faults);
            && r.ok == StoresLive(st, root, f, known, faults)
            && Effect(st, r.store, root, f, Added(StoresDrop(st, root, f, known, faults), r.ok), dropId, id, signer)
  {
    OkIff(st, root, f, known, dropId, id, signer, faults);
    if StoresDrop(st, root, f, known, faults) {
      DropAloneMeaning(st, root, f, dropId, id, signer);
      PairMeaning(st, root, f, dropId, id, signer);
    } else if f.dropCount > 0 && !Reachable(st, root, f.agent, known, Load in faults, DropTail in faults) {
      assert Effect(st, st, root, f, Added(false, false), dropId, id, signer);
    } else {
      LiveMeaning(st, root, f, known || f.dropCount > 0, dropId, id, signer, faults);
    }
  }

  /** Without faults every frame is stored, with the synthetic receipt in front exactly if it reports drops. */
  lemma FaultFreeFrame(st: Store, root: string, f: Frame, known: bool, dropId: nat, id: nat, signer: PublicKey)
    requires AllLinked(st)
    ensures var r := ProcessResult(st, root, f, known, dropId, id, signer, {});
            r.ok && Effect(st, r.store, root, f, Added(f.dropCount > 0, true), dropId, id, signer)
  {
    ProcessMeaning(st, root, f, known, dropId, id, signer, {});
  }
}
