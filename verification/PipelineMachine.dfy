/**
 daemon/internal/pipeline/build.go as an interleaving machine: any number of goroutines run
 `Process` at once, each broken into its atomic steps, and at every step the store query, the
 signer or the insert may fail.

 Blocking is a step that is not enabled: `Allocate` and `NextSeq` wait for the chain mutex, map
 accesses wait for a writer of the agent map.
 */
module PipelineMachine {
  import opened Receipts
  import opened ChainState

  type Actor = nat

  /** A decoded frame. `valid` is the verdict of decoding and frame validation. */
  datatype Frame = Frame(agent: AgentId, dropCount: nat, valid: bool)

  datatype Mode = WithDrop | LiveOnly

  /**
   The delegation a frame carries to its allocation. `seen` is history: the length the root chain
   had when the delegation was computed, or None when it was not computed.
   */
  datatype Backlink = Backlink(del: Option<Delegation>, seen: Option<nat>)

  const NO_BACKLINK := Backlink(None, None)

  /** Which receipt is in progress: the synthetic one, or the live one (after an optional synthetic one). */
  datatype Half = Synthetic | LiveHalf(synthetic: Option<Receipt>)

  /** What Process returned: nil with the stored receipt, or an error. */
  datatype Outcome = Failed(synthetic: Option<Receipt>) | Stored(live: Receipt, synthetic: Option<Receipt>)

  datatype Pc =
    // getOrCreateAgentState
    | Lookup(mode: Mode)
    | FastSeq(mode: Mode, ref: nat)
    | FastDelegation(mode: Mode, ref: nat)
    | Load(mode: Mode)
    | SlowDelegation(mode: Mode, ref: nat)
    | Install(mode: Mode, ref: nat, link: Backlink)
    | RaceSeq(mode: Mode, ref: nat, link: Backlink)
    // before Allocate / AllocatePair
    | Ready(mode: Mode, ref: nat, link: Backlink)
    // holding the chain mutex
    | Build(half: Half, ref: nat, sequence: nat, prev: Option<Hash>, link: Backlink)
    | Insert(half: Half, ref: nat, receipt: Receipt, link: Backlink)
    | Commit(half: Half, ref: nat, receipt: Receipt)
    | Abort(half: Half, ref: nat)
    // after the commit
    | Observe(live: Receipt, synthetic: Option<Receipt>)
    | Done(outcome: Outcome)

  /** A chain.State on the heap. `maker` is history: the goroutine whose load created it. */
  datatype StateObj = StateObj(chain: string, view: ChainView, holder: Option<Actor>, maker: Option<Actor>)

  datatype World = World(
    root: string,
    signer: PublicKey,
    store: Store,
    heap: map<nat, StateObj>,
    installed: map<string, nat>,
    mapHolder: Option<Actor>,
    frames: map<Actor, Frame>,
    pcs: map<Actor, Pc>,
    firstSeen: map<string, nat>)

  const ROOT_REF := 0

  /** The daemon after startup: the root state is loaded, the agent map is empty. */
  function Initial(root: string, signer: PublicKey, store: Store): World {
    World(root, signer, store,
          map[ROOT_REF := StateObj(root, LoadedView(ChainAt(store, root)), None, None)],
          map[root := ROOT_REF], None, map[], map[], map[])
  }

  /**
   The chain that actor `a`'s frame belongs to. The agent map is keyed by chain id, which is injective in
   the agent.
   */
  function KeyOf(w: World, a: Actor): string
    requires a in w.frames
  {
    ChainIdFor(w.root, w.frames[a].agent)
  }

  /** What a step draws from outside: whether the fallible call succeeds, and a fresh reference or receipt id. */
  datatype Choice = Choice(ok: bool, pick: nat)

  datatype Step = Arrive(actor: Actor, frame: Frame) | Go(actor: Actor, choice: Choice)

  function Set(w: World, a: Actor, pc: Pc): World {
    w.(pcs := w.pcs[a := pc])
  }

  function SetHolder(w: World, ref: nat, holder: Option<Actor>): World
    requires ref in w.heap
  {
    w.(heap := w.heap[ref := w.heap[ref].(holder := holder)])
  }

  /** buildDelegation: name the current tail of the root chain, if there is one. */
  function BacklinkNow(w: World): Backlink {
    var c := ChainAt(w.store, w.root);
    Backlink(if c == [] then None else Some(Delegation(w.root, c[|c| - 1].id)), Some(|c|))
  }

  /** The frame number `a` has never been used in the store: actors are named once. */
  ghost predicate NewName(st: Store, a: Actor) {
    forall k, i :: k in st && 0 <= i < |st[k]| ==> st[k][i].kind != Live(a) && st[k][i].kind != EventsDropped(a)
  }

  predicate HasRef(pc: Pc) {
    !pc.Lookup? && !pc.Load? && !pc.Observe? && !pc.Done?
  }

  /** The steps an actor may take now; the others wait. */
  predicate CanGo(w: World, a: Actor, c: Choice) {
    && a in w.pcs && a in w.frames
    && (HasRef(w.pcs[a]) ==> w.pcs[a].ref in w.heap)
    && match w.pcs[a]
       case Lookup(_) => w.frames[a].agent == "" || w.mapHolder == None
       case FastSeq(_, ref) => w.heap[ref].holder == None
       case Load(_) => c.pick !in w.heap
       case Install(_, _, _) => w.mapHolder == None
       case RaceSeq(_, ref, _) => w.heap[ref].holder == None
       case Ready(_, ref, _) => w.heap[ref].holder == None
       case Done(_) => false
       case _ => true
  }

  function LookupStep(w: World, a: Actor): World
    requires a in w.pcs && a in w.frames && w.pcs[a].Lookup?
  {
    var m := w.pcs[a].mode;
    if w.frames[a].agent == "" then Set(w, a, Ready(m, ROOT_REF, NO_BACKLINK))
    else if KeyOf(w, a) in w.installed then Set(w, a, FastSeq(m, w.installed[KeyOf(w, a)]))
    else Set(w, a, Load(m))
  }

  function FastSeqStep(w: World, a: Actor): World
    requires a in w.pcs && w.pcs[a].FastSeq? && w.pcs[a].ref in w.heap
  {
    var FastSeq(m, ref) := w.pcs[a];
    Set(w, a, if w.heap[ref].view.nextSeq != 1 then Ready(m, ref, NO_BACKLINK) else FastDelegation(m, ref))
  }

  function FastDelegationStep(w: World, a: Actor, ok: bool): World
    requires a in w.pcs && w.pcs[a].FastDelegation?
  {
    var FastDelegation(m, ref) := w.pcs[a];
    Set(w, a, if ok then Ready(m, ref, BacklinkNow(w)) else Done(Failed(None)))
  }

  /** LoadFromStore, outside the map lock, into a State object nobody else can reach yet. */
  function LoadStep(w: World, a: Actor, ok: bool, pick: nat): World
    requires a in w.pcs && a in w.frames && w.pcs[a].Load?
  {
    var m := w.pcs[a].mode;
    if !ok then Set(w, a, Done(Failed(None)))
    else
      var view := LoadedView(ChainAt(w.store, KeyOf(w, a)));
      Set(w.(heap := w.heap[pick := StateObj(KeyOf(w, a), view, None, Some(a))]), a,
          if view.nextSeq == 1 then SlowDelegation(m, pick) else Install(m, pick, NO_BACKLINK))
  }

  function SlowDelegationStep(w: World, a: Actor, ok: bool): World
    requires a in w.pcs && w.pcs[a].SlowDelegation?
  {
    var SlowDelegation(m, ref) := w.pcs[a];
    Set(w, a, if ok then Install(m, ref, BacklinkNow(w)) else Done(Failed(None)))
  }

  /** The double-checked install: the loser of a creation race keeps the map lock while it reads NextSeq. */
  function InstallStep(w: World, a: Actor): World
    requires a in w.pcs && a in w.frames && w.pcs[a].Install?
  {
    var Install(m, ref, link) := w.pcs[a];
    var k := KeyOf(w, a);
    if k in w.installed
    then Set(w.(mapHolder := Some(a)), a, RaceSeq(m, w.installed[k], link))
    else Set(w.(installed := w.installed[k := ref]), a, Ready(m, ref, link))
  }

  function RaceSeqStep(w: World, a: Actor): World
    requires a in w.pcs && w.pcs[a].RaceSeq? && w.pcs[a].ref in w.heap
  {
    var RaceSeq(m, ref, link) := w.pcs[a];
    Set(w.(mapHolder := None), a, Ready(m, ref, if w.heap[ref].view.nextSeq == 1 then link else NO_BACKLINK))
  }

  /** Allocate or AllocatePair: take the mutex and read the next slot. */
  function AllocateStep(w: World, a: Actor): World
    requires a in w.pcs && w.pcs[a].Ready? && w.pcs[a].ref in w.heap
  {
    var Ready(m, ref, link) := w.pcs[a];
    var view := w.heap[ref].view;
    Set(SetHolder(w, ref, Some(a)), a,
        Build(if m.WithDrop? then Synthetic else LiveHalf(None), ref, view.nextSeq, view.prev,
              if view.nextSeq == 1 then link else NO_BACKLINK))
  }

  function ReceiptFor(w: World, a: Actor, id: nat): Receipt
    requires a in w.pcs && a in w.frames && w.pcs[a].Build?
  {
    var Build(half, ref, sequence, prev, link) := w.pcs[a];
    Receipt(id, KeyOf(w, a), sequence, prev, if half.Synthetic? then EventsDropped(a) else Live(a),
            false, link.del, w.signer)
  }

  function BuildStep(w: World, a: Actor, ok: bool, id: nat): World
    requires a in w.pcs && a in w.frames && w.pcs[a].Build?
  {
    var Build(half, ref, sequence, prev, link) := w.pcs[a];
    Set(w, a, if ok then Insert(half, ref, ReceiptFor(w, a, id), link) else Abort(half, ref))
  }

  function Append(st: Store, k: string, r: Receipt): Store {
    st[k := ChainAt(st, k) + [r]]
  }

  function InsertStep(w: World, a: Actor, ok: bool): World
    requires a in w.pcs && a in w.frames && w.pcs[a].Insert?
  {
    var Insert(half, ref, r, link) := w.pcs[a];
    var k := KeyOf(w, a);
    if !ok then Set(w, a, Abort(half, ref))
    else
      Set(w.(store := Append(w.store, k, r),
             firstSeen := if link.seen.Some? then w.firstSeen[k := link.seen.value] else w.firstSeen),
          a, Commit(half, ref, r))
  }

  /** CommitFirst keeps the mutex; Commit releases it. */
  function CommitStep(w: World, a: Actor): World
    requires a in w.pcs && w.pcs[a].Commit? && w.pcs[a].ref in w.heap
  {
    var Commit(half, ref, r) := w.pcs[a];
    var w1 := w.(heap := w.heap[ref := w.heap[ref].(view := Advanced(r.sequence, HashOf(r)))]);
    if half.Synthetic?
    then Set(w1, a, Build(LiveHalf(Some(r)), ref, r.sequence + 1, Some(HashOf(r)), NO_BACKLINK))
    else Set(SetHolder(w1, ref, None), a, Observe(r, half.synthetic))
  }

  /** Rollback. A failed synthetic receipt falls back to processLive, which starts over. */
  function AbortStep(w: World, a: Actor): World
    requires a in w.pcs && w.pcs[a].Abort? && w.pcs[a].ref in w.heap
  {
    var Abort(half, ref) := w.pcs[a];
    Set(SetHolder(w, ref, None), a, if half.Synthetic? then Lookup(LiveOnly) else Done(Failed(half.synthetic)))
  }

  function GoNext(w: World, a: Actor, c: Choice): World
    requires CanGo(w, a, c)
  {
    match w.pcs[a]
    case Lookup(_) => LookupStep(w, a)
    case FastSeq(_, _) => FastSeqStep(w, a)
    case FastDelegation(_, _) => FastDelegationStep(w, a, c.ok)
    case Load(_) => LoadStep(w, a, c.ok, c.pick)
    case SlowDelegation(_, _) => SlowDelegationStep(w, a, c.ok)
    case Install(_, _, _) => InstallStep(w, a)
    case RaceSeq(_, _, _) => RaceSeqStep(w, a)
    case Ready(_, _, _) => AllocateStep(w, a)
    case Build(_, _, _, _, _) => BuildStep(w, a, c.ok, c.pick)
    case Insert(_, _, _, _) => InsertStep(w, a, c.ok)
    case Commit(_, _, _) => CommitStep(w, a)
    case Abort(_, _) => AbortStep(w, a)
    case Observe(live, synthetic) => Set(w, a, Done(Stored(live, synthetic)))
  }

  function ArriveNext(w: World, a: Actor, f: Frame): World {
    Set(w.(frames := w.frames[a := f]), a,
        if !f.valid then Done(Failed(None)) else Lookup(if f.dropCount > 0 then WithDrop else LiveOnly))
  }

  ghost predicate Enabled(w: World, s: Step) {
    match s
    case Arrive(a, _) => a !in w.pcs && NewName(w.store, a)
    case Go(a, c) => CanGo(w, a, c)
  }

  function Next(w: World, s: Step): World
    requires s.Go? ==> CanGo(w, s.actor, s.choice)
  {
    match s
    case Arrive(a, f) => ArriveNext(w, a, f)
    case Go(a, c) => GoNext(w, a, c)
  }

  /** `steps` is a schedule from `w` to `w'`. */
  ghost predicate Runs(w: World, steps: seq<Step>, w': World)
    decreases |steps|
  {
    if steps == [] then w == w'
    else Enabled(w, steps[0]) && Runs(Next(w, steps[0]), steps[1..], w')
  }
}
