/**
 What holds over any sequence of daemon lifetimes: starts, clean stops, and crashes at any step,
 on one store.
 */
module Lifecycle {
  import opened Receipts
  import opened ChainState
  import opened Startup
  import P = PipelineMachine
  import PI = PipelineInvariant
  import PT = PipelineTheorems
  import M = EmitterMachine
  import D = DaemonRun

  // ---------- one lifetime ----------

  /** What a run has done to chain `k` since it started on `before`. */
  ghost predicate Kept(d: D.Daemon, before: Chain, k: string) {
    var now := ChainAt(d.w.store, k);
    && before <= now
    && (d.phase.Serving? ==> forall i :: |before| <= i < |now| ==> !now[i].terminal)
    && (forall i :: |before| <= i < |now| - 1 ==> !now[i].terminal)
    && (now != before ==> Under(d.w.root, k))
  }

  ghost predicate Keeps(d: D.Daemon, st: Store) {
    && (forall k :: Kept(d, ChainAt(st, k), k))
    && (forall k :: k in d.w.installed ==> Under(d.w.root, k))
  }

  lemma WorkKeeps(d: D.Daemon, s: D.Step, st: Store)
    requires D.Inv(d) && Keeps(d, st) && D.Enabled(d, s) && s.Work?
    ensures Keeps(D.Next(d, s), st) && D.Next(d, s).w.root == d.w.root
  {
    PT.StepGrows(d.w, s.s);
    PT.StepInstalls(d.w, s.s);
    forall k ensures Kept(D.Next(d, s), ChainAt(st, k), k) {
      assert Kept(d, ChainAt(st, k), k);
      var now, next := ChainAt(d.w.store, k), ChainAt(D.Next(d, s).w.store, k);
      forall i | |ChainAt(st, k)| <= i < |next| ensures !next[i].terminal {
        if i < |now| {
          assert next[i] == now[i];
        }
      }
    }
  }

  lemma TerminateKeeps(d: D.Daemon, s: D.Step, st: Store)
    requires D.Inv(d) && Keeps(d, st) && D.Enabled(d, s) && s.Terminate?
    ensures Keeps(D.Next(d, s), st)
  {
    forall k ensures Kept(D.Next(d, s), ChainAt(st, k), k) {
      assert Kept(d, ChainAt(st, k), k);
      TerminatorKept(d, D.Next(d, s), s.chain, ChainAt(st, k), k, D.Terminator(d.w, s.chain, s.id));
    }
  }

  lemma TerminatorKept(d: D.Daemon, d': D.Daemon, chain: string, before: Chain, k: string, r: Receipt)
    requires Kept(d, before, k) && d'.phase == d.phase && d.phase.Terminating? && d'.w.root == d.w.root
    requires ChainAt(d'.w.store, k) == if k == chain then ChainAt(d.w.store, k) + [r] else ChainAt(d.w.store, k)
    requires D.Open(ChainAt(d.w.store, chain)) && Under(d.w.root, chain)
    ensures Kept(d', before, k)
  {
  }

  lemma StepKeeps(d: D.Daemon, s: D.Step, st: Store)
    requires D.Inv(d) && Keeps(d, st) && D.Enabled(d, s)
    ensures Keeps(D.Next(d, s), st) && D.Next(d, s).w.root == d.w.root
  {
    if s.Work? {
      WorkKeeps(d, s, st);
    } else if s.Terminate? {
      TerminateKeeps(d, s, st);
    } else {
      QuietStep(d, s);
      forall k ensures Kept(D.Next(d, s), ChainAt(st, k), k) {
        assert Kept(d, ChainAt(st, k), k);
      }
    }
  }

  /** The other steps leave the store and the agent map alone and never go back to serving. */
  lemma QuietStep(d: D.Daemon, s: D.Step)
    requires D.Enabled(d, s) && !s.Work? && !s.Terminate?
    ensures var d' := D.Next(d, s);
            d'.w.store == d.w.store && d'.w.root == d.w.root && d'.w.installed == d.w.installed &&
            (d'.phase.Serving? ==> d.phase.Serving?)
  {
    if s.ObserveReturned? {
      PT.GoInstalls(d.w, s.actor, P.Choice(true, 0));
    }
  }

  lemma {:induction false} RunKeeps(d: D.Daemon, steps: seq<D.Step>, d': D.Daemon, st: Store)
    requires D.Inv(d) && Keeps(d, st) && D.Runs(d, steps, d')
    ensures Keeps(d', st) && d'.w.root == d.w.root
    decreases |steps|
  {
    if steps != [] {
      D.StepInv(d, steps[0]);
      StepKeeps(d, steps[0], st);
      RunKeeps(D.Next(d, steps[0]), steps[1..], d', st);
    }
  }

  // ---------- any number of lifetimes ----------

  /**
   One start of the daemon. `steps` is everything it did before it stopped or crashed, and `end`
   the state it was in then; a start that does not get to serve has `served` false.
   */
  datatype Lifetime = Lifetime(configured: string, served: bool, root: string, signer: PublicKey,
                               cadence: nat, depth: nat, steps: seq<D.Step>, end: D.Daemon)

  ghost predicate Lived(st: Store, l: Lifetime) {
    l.served ==>
      && Resolves(st, l.configured, ADVANCE_CAP, l.root)
      && D.Reached(l.root, l.signer, st, l.cadence, l.depth, l.steps, l.end)
  }

  function StoreAfter(st: Store, l: Lifetime): Store {
    if l.served then l.end.w.store else st
  }

  ghost predicate History(st: Store, lives: seq<Lifetime>, st': Store)
    decreases |lives|
  {
    if lives == [] then st == st'
    else Lived(st, lives[0]) && History(StoreAfter(st, lives[0]), lives[1..], st')
  }

  lemma LifetimeKeeps(st: Store, l: Lifetime)
    requires Lived(st, l) && l.served
    ensures Keeps(l.end, st) && D.Inv(l.end) && l.end.w.root == l.root
    ensures !IsTerminal(ChainAt(st, l.root))
  {
    var start := D.Started(l.root, l.signer, st, l.cadence, l.depth);
    D.StartedInv(l.root, l.signer, st, l.cadence, l.depth);
    D.ReachedInv(l.root, l.signer, st, l.cadence, l.depth, l.steps, l.end);
    RunKeeps(start, l.steps, l.end, st);
    ServedIsOpen(st, l.configured, ADVANCE_CAP, l.root);
  }

  lemma LifetimeStoreOk(st: Store, l: Lifetime)
    requires PT.StoreOk(st) && Lived(st, l)
    ensures PT.StoreOk(StoreAfter(st, l))
  {
    if l.served {
      LifetimeKeeps(st, l);
      var st': Store := l.end.w.store;
      forall k | k in st' ensures Linked(st'[k], k) {
        assert PI.ChainOk(l.end.w, k);
      }
    }
  }

  /** On a linked chain the startup test is just whether the tail is terminal. */
  lemma TerminalTail(c: Chain, k: string)
    requires Linked(c, k)
    ensures IsTerminal(c) <==> c != [] && c[|c| - 1].terminal
  {
    LoadedIsTail(c, k);
  }

  /**
   One lifetime keeps "terminal is last" on a chain exactly when the chain was not terminal at the
   start, or was left alone. Startup guarantees that for the root chain; nothing does for an agent
   chain that was terminated while its root was not.
   */
  lemma LifetimeKeepsTerminalLastIff(st: Store, l: Lifetime, k: string)
    requires PT.StoreOk(st) && Lived(st, l) && TerminalLast(ChainAt(st, k))
    ensures TerminalLast(ChainAt(StoreAfter(st, l), k)) <==>
              !IsTerminal(ChainAt(st, k)) || ChainAt(StoreAfter(st, l), k) == ChainAt(st, k)
  {
    var before, now := ChainAt(st, k), ChainAt(StoreAfter(st, l), k);
    TerminalTail(before, k);
    if l.served {
      LifetimeKeeps(st, l);
      assert Kept(l.end, before, k);
      forall i | 0 <= i < |now| - 1 && !IsTerminal(before) ensures !now[i].terminal {
        if i < |before| {
          assert now[i] == before[i];
        }
      }
      if IsTerminal(before) && now != before {
        assert now[|before| - 1] == before[|before| - 1];
      }
    }
  }

  /** A lifetime only touches the chains under the root it serves. */
  lemma UnchangedElsewhere(st: Store, l: Lifetime, k: string)
    requires Lived(st, l) && (l.served ==> !Under(l.root, k))
    ensures ChainAt(StoreAfter(st, l), k) == ChainAt(st, k)
  {
    if l.served {
      LifetimeKeeps(st, l);
      assert Kept(l.end, ChainAt(st, k), k);
    }
  }

  /** Chain `k` belongs to no served root but `root`; a caller can read that off the served ids. */
  predicate OnlyUnder(lives: seq<Lifetime>, root: string, k: string) {
    forall i :: 0 <= i < |lives| && lives[i].served && Under(lives[i].root, k) ==> lives[i].root == root
  }

  /** That is so whenever the served ids contain no '/'. */
  lemma SlashFreeRootsAreApart(lives: seq<Lifetime>, root: string, k: string)
    requires '/' !in root && Under(root, k)
    requires forall i :: 0 <= i < |lives| && lives[i].served ==> '/' !in lives[i].root
    ensures OnlyUnder(lives, root, k)
  {
    forall i | 0 <= i < |lives| && lives[i].served && Under(lives[i].root, k) ensures lives[i].root == root {
      if AgentUnder(root, k) {
        AgentChainHasSlash(root, k);
        if AgentUnder(lives[i].root, k) {
          OneParent(root, lives[i].root, k);
        }
      } else if AgentUnder(lives[i].root, k) {
        AgentChainHasSlash(lives[i].root, k);
      }
    }
  }

  /** A terminated root chain is never served again, so it and every agent chain that is only its own are final. */
  lemma {:induction false} TerminatedRootIsFinal(st: Store, lives: seq<Lifetime>, st': Store, root: string, k: string)
    requires PT.StoreOk(st) && History(st, lives, st') && IsTerminal(ChainAt(st, root))
    requires OnlyUnder(lives, root, root) && OnlyUnder(lives, root, k)
    ensures ChainAt(st', k) == ChainAt(st, k)
    decreases |lives|
  {
    if lives != [] {
      var l := lives[0];
      LifetimeStoreOk(st, l);
      if l.served {
        LifetimeKeeps(st, l);
        assert Under(l.root, root) ==> l.root == root;
      }
      UnchangedElsewhere(st, l, k);
      UnchangedElsewhere(st, l, root);
      assert forall i :: 0 <= i < |lives[1..]| ==> lives[1..][i] == lives[i + 1];
      TerminatedRootIsFinal(StoreAfter(st, l), lives[1..], st', root, k);
    }
  }

  /**
   Over any sequence of starts, stops and crashes, a terminal receipt on a chain that is only ever
   served as a root chain is the last receipt of that chain; and all chains stay well linked and keep
   everything stored before.
   */
  lemma {:induction false} TerminalStaysLast(st: Store, lives: seq<Lifetime>, st': Store, root: string)
    requires PT.StoreOk(st) && History(st, lives, st')
    requires OnlyUnder(lives, root, root) && TerminalLast(ChainAt(st, root))
    ensures TerminalLast(ChainAt(st', root)) && PT.StoreOk(st')
    ensures forall k :: ChainAt(st, k) <= ChainAt(st', k)
    decreases |lives|
  {
    if lives != [] {
      var l := lives[0];
      LifetimeStoreOk(st, l);
      LifetimeKeepsTerminalLastIff(st, l, root);
      if l.served {
        LifetimeKeeps(st, l);
        forall k ensures ChainAt(st, k) <= ChainAt(StoreAfter(st, l), k) {
          assert Kept(l.end, ChainAt(st, k), k);
        }
        if IsTerminal(ChainAt(st, root)) {
          assert Under(l.root, root) ==> l.root == root;
          UnchangedElsewhere(st, l, root);
        }
      }
      assert forall i :: 0 <= i < |lives[1..]| ==> lives[1..][i] == lives[i + 1];
      TerminalStaysLast(StoreAfter(st, l), lives[1..], st', root);
    }
  }

  // ---------- the exception ----------

  /** One more step at the end of a run. */
  lemma {:induction false} RunsThen(d: D.Daemon, steps: seq<D.Step>, d1: D.Daemon, s: D.Step)
    requires D.Runs(d, steps, d1) && D.Enabled(d1, s)
    ensures D.Runs(d, steps + [s], D.Next(d1, s))
    decreases |steps|
  {
    if steps != [] {
      RunsThen(D.Next(d, steps[0]), steps[1..], d1, s);
      assert (steps + [s])[1..] == steps[1..] + [s];
    }
  }

  const REF := 1

  /** The call goes on; what it loads becomes State 1, and its receipt gets id 1. */
  function Go(a: P.Actor): D.Step {
    D.Work(P.Go(a, P.Choice(true, REF)))
  }

  /** A daemon that was started on `st`, handles one frame of chain `k` and has stored nothing yet. */
  ghost predicate Handling(d: D.Daemon, a: P.Actor, root: string, k: string, st: Store, pc: P.Pc) {
    && d.phase.Serving? && d.w.root == root && d.w.pcs == map[a := pc] && a in d.w.frames && P.KeyOf(d.w, a) == k
    && d.w.store == st && d.w.mapHolder == None && d.e == M.NewEmitter(2, 1)
  }

  ghost predicate StateIs(d: D.Daemon, view: ChainView, holder: Option<P.Actor>) {
    REF in d.w.heap && d.w.heap[REF].view == view && d.w.heap[REF].holder == holder
  }

  lemma FrameArrives(root: string, agent: AgentId, a: P.Actor, st: Store, k: string)
    requires agent != "" && k == ChainIdFor(root, agent) && P.NewName(st, a)
    ensures var start, s := D.Started(root, 0, st, 2, 1), D.Work(P.Arrive(a, P.Frame(agent, 0, true)));
            D.Enabled(start, s) && var d := D.Next(start, s);
            Handling(d, a, root, k, st, P.Lookup(P.LiveOnly)) && d.w.frames[a].agent == agent &&
            k !in d.w.installed && REF !in d.w.heap
  {
    AgentChainIsNotRoot(root, agent);
  }

  lemma ChainIsUnknown(d: D.Daemon, a: P.Actor, root: string, k: string, st: Store)
    requires Handling(d, a, root, k, st, P.Lookup(P.LiveOnly)) && d.w.frames[a].agent != ""
    requires k !in d.w.installed && REF !in d.w.heap
    ensures D.Enabled(d, Go(a)) && var d' := D.Next(d, Go(a));
            Handling(d', a, root, k, st, P.Load(P.LiveOnly)) && k !in d'.w.installed && REF !in d'.w.heap
  {
  }

  lemma StateIsLoaded(d: D.Daemon, a: P.Actor, root: string, k: string, st: Store)
    requires Handling(d, a, root, k, st, P.Load(P.LiveOnly)) && k !in d.w.installed && REF !in d.w.heap
    ensures D.Enabled(d, Go(a)) && var d' := D.Next(d, Go(a));
            Handling(d', a, root, k, st, AfterLoad(st, k)) &&
            StateIs(d', LoadedView(ChainAt(st, k)), None) && k !in d'.w.installed
  {
  }

  function AfterLoad(st: Store, k: string): P.Pc {
    if LoadedView(ChainAt(st, k)).nextSeq == 1 then P.SlowDelegation(P.LiveOnly, REF)
    else P.Install(P.LiveOnly, REF, P.NO_BACKLINK)
  }

  /** The frame arrives and its chain is loaded, with a backlink to compute if the chain is empty. */
  lemma FrameIsLoaded(root: string, agent: AgentId, a: P.Actor, st: Store, k: string)
    returns (steps: seq<D.Step>, d: D.Daemon)
    requires agent != "" && k == ChainIdFor(root, agent) && P.NewName(st, a)
    ensures D.Runs(D.Started(root, 0, st, 2, 1), steps, d) && Handling(d, a, root, k, st, AfterLoad(st, k))
    ensures StateIs(d, LoadedView(ChainAt(st, k)), None) && k !in d.w.installed
  {
    var start, arrive := D.Started(root, 0, st, 2, 1), D.Work(P.Arrive(a, P.Frame(agent, 0, true)));
    FrameArrives(root, agent, a, st, k);
    RunsThen(start, [], start, arrive);
    steps, d := [] + [arrive], D.Next(start, arrive);
    ChainIsUnknown(d, a, root, k, st);
    RunsThen(start, steps, d, Go(a));
    steps, d := steps + [Go(a)], D.Next(d, Go(a));
    StateIsLoaded(d, a, root, k, st);
    RunsThen(start, steps, d, Go(a));
    steps, d := steps + [Go(a)], D.Next(d, Go(a));
  }

  lemma BacklinkIsComputed(d: D.Daemon, a: P.Actor, root: string, k: string, st: Store, view: ChainView)
    returns (link: P.Backlink)
    requires Handling(d, a, root, k, st, P.SlowDelegation(P.LiveOnly, REF)) && StateIs(d, view, None) &&
             k !in d.w.installed
    ensures D.Enabled(d, Go(a)) && var d' := D.Next(d, Go(a));
            Handling(d', a, root, k, st, P.Install(P.LiveOnly, REF, link)) && StateIs(d', view, None) &&
              k !in d'.w.installed
  {
    link := P.BacklinkNow(d.w);
  }

  lemma StateIsInstalled(d: D.Daemon, a: P.Actor, root: string, k: string, st: Store, view: ChainView, link: P.Backlink)
    requires Handling(d, a, root, k, st, P.Install(P.LiveOnly, REF, link)) && StateIs(d, view, None) &&
             k !in d.w.installed
    ensures D.Enabled(d, Go(a)) && var d' := D.Next(d, Go(a));
            Handling(d', a, root, k, st, P.Ready(P.LiveOnly, REF, link)) && StateIs(d', view, None) &&
            k in d'.w.installed && d'.w.installed[k] == REF
  {
  }

  lemma SlotIsTaken(d: D.Daemon, a: P.Actor, root: string, k: string, st: Store, view: ChainView, link: P.Backlink)
    returns (link': P.Backlink)
    requires Handling(d, a, root, k, st, P.Ready(P.LiveOnly, REF, link)) && StateIs(d, view, None)
    ensures D.Enabled(d, Go(a)) && var d' := D.Next(d, Go(a));
            Handling(d', a, root, k, st, P.Build(P.LiveHalf(None), REF, view.nextSeq, view.prev, link')) &&
            StateIs(d', view, Some(a)) && d'.w.installed == d.w.installed
  {
    link' := if view.nextSeq == 1 then link else P.NO_BACKLINK;
  }

  lemma ReceiptIsBuilt(d: D.Daemon, a: P.Actor, root: string, k: string, st: Store, view: ChainView, link: P.Backlink)
    returns (r: Receipt)
    requires Handling(d, a, root, k, st, P.Build(P.LiveHalf(None), REF, view.nextSeq, view.prev, link)) &&
             StateIs(d, view, Some(a))
    ensures r.kind == Live(a) && r.sequence == view.nextSeq && !r.terminal
    ensures D.Enabled(d, Go(a)) && var d' := D.Next(d, Go(a));
            Handling(d', a, root, k, st, P.Insert(P.LiveHalf(None), REF, r, link)) &&
            StateIs(d', view, Some(a)) && d'.w.installed == d.w.installed
  {
    r := P.ReceiptFor(d.w, a, REF);
  }

  lemma ReceiptIsStored(d: D.Daemon, a: P.Actor, root: string, k: string, st: Store, view: ChainView, r: Receipt,
                        link: P.Backlink)
    requires Handling(d, a, root, k, st, P.Insert(P.LiveHalf(None), REF, r, link)) && StateIs(d, view, Some(a))
    ensures D.Enabled(d, Go(a)) && var d' := D.Next(d, Go(a));
            Handling(d', a, root, k, P.Append(st, k, r), P.Commit(P.LiveHalf(None), REF, r)) &&
            StateIs(d', view, Some(a)) && d'.w.installed == d.w.installed
  {
  }

  /** One frame up to the moment its receipt is stored, on an empty or a continued chain. */
  lemma OneFrame(root: string, agent: AgentId, a: P.Actor, st: Store, k: string)
    returns (steps: seq<D.Step>, d: D.Daemon, r: Receipt)
    requires agent != "" && k == ChainIdFor(root, agent) && P.NewName(st, a)
    ensures D.Runs(D.Started(root, 0, st, 2, 1), steps, d)
    ensures r.kind == Live(a) && !r.terminal && r.sequence == LoadedView(ChainAt(st, k)).nextSeq
    ensures Handling(d, a, root, k, P.Append(st, k, r), P.Commit(P.LiveHalf(None), REF, r))
    ensures StateIs(d, LoadedView(ChainAt(st, k)), Some(a)) && k in d.w.installed && d.w.installed[k] == REF
  {
    var start, view := D.Started(root, 0, st, 2, 1), LoadedView(ChainAt(st, k));
    var link := P.NO_BACKLINK;
    steps, d := FrameIsLoaded(root, agent, a, st, k);
    if view.nextSeq == 1 {
      link := BacklinkIsComputed(d, a, root, k, st, view);
      RunsThen(start, steps, d, Go(a));
      steps, d := steps + [Go(a)], D.Next(d, Go(a));
    }
    StateIsInstalled(d, a, root, k, st, view, link);
    RunsThen(start, steps, d, Go(a));
    steps, d := steps + [Go(a)], D.Next(d, Go(a));
    link := SlotIsTaken(d, a, root, k, st, view, link);
    RunsThen(start, steps, d, Go(a));
    steps, d := steps + [Go(a)], D.Next(d, Go(a));
    r := ReceiptIsBuilt(d, a, root, k, st, view, link);
    RunsThen(start, steps, d, Go(a));
    steps, d := steps + [Go(a)], D.Next(d, Go(a));
    ReceiptIsStored(d, a, root, k, st, view, r, link);
    RunsThen(start, steps, d, Go(a));
    steps, d := steps + [Go(a)], D.Next(d, Go(a));
  }

  /** The call commits, is counted by the emitter without a checkpoint, and returns. */
  lemma FrameReturns(d: D.Daemon, a: P.Actor, root: string, k: string, st: Store, view: ChainView, r: Receipt)
    returns (steps: seq<D.Step>, d': D.Daemon)
    requires Handling(d, a, root, k, st, P.Commit(P.LiveHalf(None), REF, r)) && StateIs(d, view, Some(a))
    ensures |steps| == 3 && steps == [Go(a), D.Observe(a), D.ObserveReturned(a)]
    ensures D.Enabled(d, steps[0]) && var d1 := D.Next(d, steps[0]);
            D.Enabled(d1, steps[1]) && var d2 := D.Next(d1, steps[1]);
            D.Enabled(d2, steps[2]) && d' == D.Next(d2, steps[2])
    ensures d'.phase.Serving? && D.AllDone(d'.w) && d'.w.store == st && d'.w.installed == d.w.installed &&
            d'.w.root == root
    ensures StateIs(d', Advanced(r.sequence, HashOf(r)), None)
  {
    steps := [Go(a), D.Observe(a), D.ObserveReturned(a)];
    var d1 := D.Next(d, Go(a));
    assert d1.w.pcs[a] == P.Observe(r, None);
    var d2 := D.Next(d1, D.Observe(a));
    assert d2.e.calls[a].Returned? && d2.w == d1.w;
    d' := D.Next(d2, D.ObserveReturned(a));
  }

  /** The daemon stops: the agent chain gets its terminator. */
  lemma ChainIsTerminated(d: D.Daemon, root: string, k: string, st: Store, r: Receipt)
    requires d.phase.Serving? && D.AllDone(d.w) && d.w.store == st && k in d.w.installed && d.w.installed[k] == REF
    requires StateIs(d, Advanced(r.sequence, HashOf(r)), None) && r.sequence > 0
    requires ChainAt(st, k) != [] && !ChainAt(st, k)[|ChainAt(st, k)| - 1].terminal
    ensures D.Enabled(d, D.HandlersDone) && var d1 := D.Next(d, D.HandlersDone);
            D.Enabled(d1, D.Terminate(k, 0)) &&
            D.Next(d1, D.Terminate(k, 0)).w.store == P.Append(st, k, D.Terminator(d.w, k, 0)) &&
              D.Terminator(d.w, k, 0).terminal
  {
  }

  const EMPTY: Store := map[]

  /** The first frame of a daemon on an empty store, to its end. */
  lemma FirstFrame(root: string, agent: AgentId, k: string) returns (steps: seq<D.Step>, d: D.Daemon, r: Receipt)
    requires agent != "" && k == ChainIdFor(root, agent)
    ensures D.Runs(D.Started(root, 0, EMPTY, 2, 1), steps, d)
    ensures r.kind == Live(0) && !r.terminal && r.sequence == 1 && d.w.store == map[k := [r]]
    ensures d.phase.Serving? && D.AllDone(d.w) && d.w.root == root && k in d.w.installed && d.w.installed[k] == REF
    ensures StateIs(d, Advanced(1, HashOf(r)), None)
  {
    var start := D.Started(root, 0, EMPTY, 2, 1);
    var d0;
    steps, d0, r := OneFrame(root, agent, 0, EMPTY, k);
    var more, d1 := FrameReturns(d0, 0, root, k, P.Append(EMPTY, k, r), LoadedView([]), r);
    d := d1;
    RunsThen(start, steps, d0, more[0]);
    RunsThen(start, steps + [more[0]], D.Next(d0, more[0]), more[1]);
    RunsThen(start, steps + [more[0]] + [more[1]], D.Next(D.Next(d0, more[0]), more[1]), more[2]);
    steps := steps + [more[0]] + [more[1]] + [more[2]];
    assert [] + [r] == [r];
  }

  /** A store that a daemon leaves: one agent receipt, then the terminator of that chain, and no root receipt. */
  lemma FirstLifetime(root: string, agent: AgentId, k: string) returns (l: Lifetime, r: Receipt, t: Receipt)
    requires agent != "" && k == ChainIdFor(root, agent)
    ensures Lived(EMPTY, l) && l.served && l.root == root
    ensures StoreAfter(EMPTY, l) == map[k := [r, t]] && r.kind == Live(0) && !r.terminal &&
            t.kind.ChainInterrupted? && t.terminal
  {
    var start := D.Started(root, 0, EMPTY, 2, 1);
    var steps, d;
    steps, d, r := FirstFrame(root, agent, k);
    ChainIsTerminated(d, root, k, map[k := [r]], r);
    t := D.Terminator(d.w, k, 0);
    assert [r] + [t] == [r, t];
    var d1 := D.Next(d, D.HandlersDone);
    RunsThen(start, steps, d, D.HandlersDone);
    RunsThen(start, steps + [D.HandlersDone], d1, D.Terminate(k, 0));
    OpenHere(EMPTY, root, ADVANCE_CAP, 0, root);
    l := Lifetime(root, true, root, 0, 2, 1,
                  steps + [D.HandlersDone] + [D.Terminate(k, 0)], D.Next(d1, D.Terminate(k, 0)));
  }

  /** A daemon that serves `root` can append to chain `k` after a terminator that an earlier one put there. */
  ghost predicate CanResume(root: string, k: string) {
    exists lives, st, l ::
      && History(EMPTY, lives, st) && Lived(st, l) && l.served && l.root == root
      && TerminalLast(ChainAt(st, k)) && IsTerminal(ChainAt(st, k)) && ChainAt(StoreAfter(st, l), k) != ChainAt(st, k)
  }

  /**
   Two lifetimes from an empty store: in the first an agent chain gets a receipt and, at shutdown, its
   terminator, while the root chain stays empty; the second serves the same root and appends behind it.
   */
  lemma AgentChainIsResumed(root: string, agent: AgentId) returns (first: Lifetime, second: Lifetime)
    requires agent != ""
    ensures History(EMPTY, [first, second], StoreAfter(StoreAfter(EMPTY, first), second))
    ensures first.served && first.root == root && second.served && second.root == root
    ensures var k, st := ChainIdFor(root, agent), StoreAfter(EMPTY, first);
            TerminalLast(ChainAt(st, k)) && IsTerminal(ChainAt(st, k)) &&
            !TerminalLast(ChainAt(StoreAfter(st, second), k))
  {
    var k := ChainIdFor(root, agent);
    var before, t;
    first, before, t := FirstLifetime(root, agent, k);
    var st := StoreAfter(EMPTY, first);
    AgentChainIsNotRoot(root, agent);
    LifetimeStoreOk(EMPTY, first);
    TerminalTail(st[k], k);
    OpenHere(st, root, ADVANCE_CAP, 0, root);
    var steps, d, r := OneFrame(root, agent, 1, st, k);
    second := Lifetime(root, true, root, 0, 2, 1, steps, d);
    assert ChainAt(StoreAfter(st, second), k) == [before, t] + [r];
    assert ChainAt(StoreAfter(st, second), k)[1] == t;
    TwoLives(EMPTY, first, second);
  }

  lemma TwoLives(st: Store, first: Lifetime, second: Lifetime)
    requires Lived(st, first) && Lived(StoreAfter(st, first), second)
    ensures History(st, [first, second], StoreAfter(StoreAfter(st, first), second))
    ensures History(st, [first], StoreAfter(st, first))
  {
    assert [first, second][1..] == [second] && [first][1..] == [] && [second][1..] == [];
  }

  /**
   Which terminated chains a daemon can append to after all, in the stores that daemons write: exactly the
   agent chains under the root it serves. That includes a chain that was once served as a root itself,
   under an id that another root reads as an agent chain.
   */
  lemma CanResumeIff(root: string, k: string)
    ensures CanResume(root, k) <==> AgentUnder(root, k)
  {
    if AgentUnder(root, k) {
      UnderIsChainId(root, k);
      var first, second := AgentChainIsResumed(root, k[|root| + 7..]);
      var st := StoreAfter(EMPTY, first);
      assert Lived(EMPTY, first) && Lived(st, second);
      TwoLives(EMPTY, first, second);
      assert ChainAt(StoreAfter(st, second), k) != ChainAt(st, k);
    }
    if CanResume(root, k) {
      var lives, st, l :|
        && History(EMPTY, lives, st) && Lived(st, l) && l.served && l.root == root
        && TerminalLast(ChainAt(st, k)) && IsTerminal(ChainAt(st, k))
        && ChainAt(StoreAfter(st, l), k) != ChainAt(st, k);
      LifetimeKeeps(st, l);
      if !Under(root, k) {
        UnchangedElsewhere(st, l, k);
      }
    }
  }
}
