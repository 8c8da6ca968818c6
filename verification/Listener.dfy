/**
 The shutdown protocol of daemon/internal/socket/listener.go as an interleaving machine: the accept
 loop, one goroutine per accepted connection, and any number of concurrent Close calls.

 Waiting for the connection mutex, for the close Once or for the wait group is a step that is not
 enabled. Peers may connect, send and hang up at any moment, or do nothing at all.
 */
module Listener {
  import opened Receipts

  type Conn = nat
  type Caller = nat

  /** The handler goroutine of a tracked connection, from the claimed wait-group slot to `wg.Done`. */
  datatype HandlerPc = Claimed | Reading | Handling | Leaving | Untracked | ConnClosed | Finished

  datatype ServePc =
    | Accepting
    | Accepted(conn: Conn)
    | Tracking(conn: Conn)   // trackConn, holding the mutex
    | Inserted(conn: Conn)   // past the closed check, in conns, before wg.Add
    | Spawning(conn: Conn)   // trackConn returned true, goroutine not started
    | Draining
    | ServedNil
    | ServedError

  datatype CloserPc = Entering | InOnce | Locked | Signalled | ListenerClosed | ConnsBroken | Waiting | Returned

  datatype Owner = ServeLoop | Closer(id: Caller)

  datatype OnceState = NotYet | Running(id: Caller) | Done

  datatype Listener = Listener(
    closed: bool,
    socketClosed: bool,
    once: OnceState,
    mutex: Option<Owner>,
    conns: set<Conn>,
    broken: set<Conn>,
    wg: nat,
    handlers: map<Conn, HandlerPc>,
    serve: ServePc,
    closers: map<Caller, CloserPc>)

  const Initial := Listener(false, false, NotYet, None, {}, {}, 0, map[], Accepting, map[])

  datatype Step =
    | AcceptOk(conn: Conn) | AcceptFails | PeerFails | LockForTrack | CheckClosed | ClaimSlot | Spawn | ServeWaited
    | Start(conn: Conn, cancelled: bool) | ReadFrame(conn: Conn) | ReadFails(conn: Conn) | HandlerReturns(conn: Conn)
    | Untrack(conn: Conn) | CloseConn(conn: Conn) | WgDone(conn: Conn)
    | CloseCall(id: Caller) | EnterOnce(id: Caller) | LockForClose(id: Caller) | Signal(id: Caller)
    | CloseSocket(id: Caller) | BreakConns(id: Caller) | UnlockAfterClose(id: Caller) | CloseWaited(id: Caller)

  predicate At(l: Listener, c: Conn, pc: HandlerPc) {
    c in l.handlers && l.handlers[c] == pc
  }

  predicate CloserAt(l: Listener, id: Caller, pc: CloserPc) {
    id in l.closers && l.closers[id] == pc
  }

  predicate Enabled(l: Listener, s: Step) {
    match s
    case AcceptOk(c) => l.serve.Accepting? && !l.socketClosed && c !in l.handlers && c !in l.broken
    case AcceptFails => l.serve.Accepting?
    case PeerFails => l.serve.Accepted?
    case LockForTrack => l.serve.Accepted? && l.mutex == None
    case CheckClosed => l.serve.Tracking?
    case ClaimSlot => l.serve.Inserted?
    case Spawn => l.serve.Spawning?
    case ServeWaited => l.serve.Draining? && l.wg == 0
    case Start(c, _) => At(l, c, Claimed) && l.serve != Spawning(c)
    case ReadFrame(c) => At(l, c, Reading) && c !in l.broken
    case ReadFails(c) => At(l, c, Reading)
    case HandlerReturns(c) => At(l, c, Handling)
    case Untrack(c) => At(l, c, Leaving) && l.mutex == None
    case CloseConn(c) => At(l, c, Untracked)
    case WgDone(c) => At(l, c, ConnClosed) && l.wg > 0
    case CloseCall(id) => id !in l.closers
    case EnterOnce(id) => CloserAt(l, id, Entering) && !l.once.Running?
    case LockForClose(id) => CloserAt(l, id, InOnce) && l.mutex == None
    case Signal(id) => CloserAt(l, id, Locked)
    case CloseSocket(id) => CloserAt(l, id, Signalled)
    case BreakConns(id) => CloserAt(l, id, ListenerClosed)
    case UnlockAfterClose(id) => CloserAt(l, id, ConnsBroken)
    case CloseWaited(id) => CloserAt(l, id, Waiting) && l.wg == 0
  }

  function Move(l: Listener, c: Conn, pc: HandlerPc): Listener {
    l.(handlers := l.handlers[c := pc])
  }

  function MoveCloser(l: Listener, id: Caller, pc: CloserPc): Listener {
    l.(closers := l.closers[id := pc])
  }

  /** A failed Accept ends Serve: with nil, after waiting, if the listener is closed; with the error otherwise. */
  function Next(l: Listener, s: Step): Listener
    requires Enabled(l, s)
  {
    match s
    case AcceptOk(c) => l.(serve := Accepted(c))
    case AcceptFails => l.(serve := if l.closed || l.socketClosed then Draining else ServedError)
    case PeerFails => l.(serve := Accepting, broken := l.broken + {l.serve.conn})
    case LockForTrack => l.(serve := Tracking(l.serve.conn), mutex := Some(ServeLoop))
    case CheckClosed =>
      if l.closed then l.(serve := Accepting, mutex := None, broken := l.broken + {l.serve.conn})
      else l.(serve := Inserted(l.serve.conn), conns := l.conns + {l.serve.conn})
    case ClaimSlot =>
      l.(serve := Spawning(l.serve.conn), mutex := None, wg := l.wg + 1,
         handlers := l.handlers[l.serve.conn := Claimed])
    case Spawn => l.(serve := Accepting)
    case ServeWaited => l.(serve := ServedNil)
    case Start(c, cancelled) => Move(l, c, if cancelled then Leaving else Reading)
    case ReadFrame(c) => Move(l, c, Handling)
    case ReadFails(c) => Move(l, c, Leaving)
    case HandlerReturns(c) => Move(l, c, Reading)
    case Untrack(c) => Move(l, c, Untracked).(conns := l.conns - {c})
    case CloseConn(c) => Move(l, c, ConnClosed).(broken := l.broken + {c})
    case WgDone(c) => Move(l, c, Finished).(wg := l.wg - 1)
    case CloseCall(id) => MoveCloser(l, id, Entering)
    case EnterOnce(id) =>
      if l.once.Done? then MoveCloser(l, id, Waiting) else MoveCloser(l, id, InOnce).(once := Running(id))
    case LockForClose(id) => MoveCloser(l, id, Locked).(mutex := Some(Closer(id)))
    case Signal(id) => MoveCloser(l, id, Signalled).(closed := true)
    case CloseSocket(id) => MoveCloser(l, id, ListenerClosed).(socketClosed := true)
    case BreakConns(id) => MoveCloser(l, id, ConnsBroken).(broken := l.broken + l.conns)
    case UnlockAfterClose(id) => MoveCloser(l, id, Waiting).(mutex := None, once := Done)
    case CloseWaited(id) => MoveCloser(l, id, Returned)
  }

  predicate Runs(l: Listener, steps: seq<Step>, l': Listener)
    decreases |steps|
  {
    if steps == [] then l == l'
    else Enabled(l, steps[0]) && Runs(Next(l, steps[0]), steps[1..], l')
  }

  // ---------- invariant ----------

  function Unfinished(h: map<Conn, HandlerPc>): set<Conn> {
    set c | c in h && !h[c].Finished?
  }

  /** The goroutine has not yet run its deferred untrackConn. */
  predicate Tracked(pc: HandlerPc) {
    pc.Claimed? || pc.Reading? || pc.Handling? || pc.Leaving?
  }

  predicate InLock(pc: CloserPc) {
    pc.Locked? || pc.Signalled? || pc.ListenerClosed? || pc.ConnsBroken?
  }

  ghost predicate ConnsOk(l: Listener) {
    && l.wg == |Unfinished(l.handlers)|
    && (forall c :: c in l.handlers && Tracked(l.handlers[c]) ==> c in l.conns)
    && (forall c :: c in l.conns ==> l.serve == Inserted(c) || (c in l.handlers && Tracked(l.handlers[c])))
  }

  ghost predicate ServeOk(l: Listener) {
    match l.serve
    case Accepted(c) => c !in l.handlers
    case Tracking(c) => c !in l.handlers && l.mutex == Some(ServeLoop)
    case Inserted(c) => c !in l.handlers && c in l.conns && l.mutex == Some(ServeLoop) && !l.closed
    case Spawning(c) => At(l, c, Claimed)
    case Draining => l.closed
    case ServedNil => l.closed && l.wg == 0
    case _ => true
  }

  ghost predicate CloserOk(l: Listener, id: Caller)
    requires id in l.closers
  {
    var pc := l.closers[id];
    && (pc.InOnce? || InLock(pc) <==> l.once == Running(id))
    && (InLock(pc) <==> l.mutex == Some(Closer(id)))
    && (pc.Waiting? || pc.Returned? ==> l.once.Done?)
    && (pc.Returned? ==> l.wg == 0)
    && (pc.Locked? || pc.InOnce? ==> !l.closed)
    && (pc.Signalled? || pc.ListenerClosed? || pc.ConnsBroken? ==> l.closed)
    && (pc.ListenerClosed? || pc.ConnsBroken? ==> l.socketClosed)
    && (pc.ConnsBroken? ==> l.conns <= l.broken)
  }

  ghost predicate CloseOk(l: Listener) {
    && (forall id :: id in l.closers ==> CloserOk(l, id))
    && (l.once.Running? ==> l.once.id in l.closers)
    && (match l.mutex
        case None => true
        case Some(ServeLoop) => l.serve.Tracking? || l.serve.Inserted?
        case Some(Closer(id)) => id in l.closers)
    && (l.socketClosed ==> l.closed)
    && (l.closed ==> !l.once.NotYet?)
    && (l.once.Done? ==> l.closed && l.conns <= l.broken)
  }

  ghost predicate Inv(l: Listener) {
    ConnsOk(l) && ServeOk(l) && CloseOk(l)
  }

  lemma UnfinishedMove(h: map<Conn, HandlerPc>, c: Conn, pc: HandlerPc)
    requires c in h && !h[c].Finished?
    ensures Unfinished(h[c := pc]) == if pc.Finished? then Unfinished(h) - {c} else Unfinished(h)
    ensures c in Unfinished(h)
  {
  }

  lemma HandlerStep(l: Listener, s: Step)
    requires Inv(l) && Enabled(l, s)
    requires s.Start? || s.ReadFrame? || s.ReadFails? || s.HandlerReturns? || s.Untrack? || s.CloseConn? || s.WgDone?
    ensures Inv(Next(l, s))
  {
    if s.Untrack? || s.CloseConn? || s.WgDone? {
      LeavingStep(l, s);
    } else {
      ServingStep(l, s);
    }
  }

  lemma ServingStep(l: Listener, s: Step)
    requires Inv(l) && Enabled(l, s) && (s.Start? || s.ReadFrame? || s.ReadFails? || s.HandlerReturns?)
    ensures Inv(Next(l, s))
  {
    var l' := Next(l, s);
    UnfinishedMove(l.handlers, s.conn, l'.handlers[s.conn]);
    forall id | id in l'.closers ensures CloserOk(l', id) {
      assert CloserOk(l, id);
    }
  }

  lemma LeavingStep(l: Listener, s: Step)
    requires Inv(l) && Enabled(l, s) && (s.Untrack? || s.CloseConn? || s.WgDone?)
    ensures Inv(Next(l, s))
  {
    var l' := Next(l, s);
    UnfinishedMove(l.handlers, s.conn, l'.handlers[s.conn]);
    forall id | id in l'.closers ensures CloserOk(l', id) {
      assert CloserOk(l, id);
    }
  }

  lemma ServeStep(l: Listener, s: Step)
    requires Inv(l) && Enabled(l, s)
    requires s.AcceptOk? || s.AcceptFails? || s.PeerFails? || s.LockForTrack? || s.CheckClosed? || s.ClaimSlot? ||
             s.Spawn? || s.ServeWaited?
    ensures Inv(Next(l, s))
  {
    var l' := Next(l, s);
    if s.ClaimSlot? {
      assert Unfinished(l'.handlers) == Unfinished(l.handlers) + {l.serve.conn};
    }
    forall id | id in l'.closers ensures CloserOk(l', id) {
      assert CloserOk(l, id);
    }
  }

  lemma EnterStep(l: Listener, s: Step)
    requires Inv(l) && Enabled(l, s)
    requires s.CloseCall? || s.EnterOnce? || s.LockForClose? || s.CloseWaited?
    ensures Inv(Next(l, s))
  {
    var l' := Next(l, s);
    forall id | id in l'.closers ensures CloserOk(l', id) {
      if id in l.closers {
        assert CloserOk(l, id);
      }
      if s.id in l.closers {
        assert CloserOk(l, s.id);
      }
    }
  }

  lemma CloseStep(l: Listener, s: Step)
    requires Inv(l) && Enabled(l, s)
    requires s.Signal? || s.CloseSocket? || s.BreakConns? || s.UnlockAfterClose?
    ensures Inv(Next(l, s))
  {
    var l' := Next(l, s);
    forall id | id in l'.closers ensures CloserOk(l', id) {
      if id in l.closers {
        assert CloserOk(l, id);
      }
      if s.id in l.closers {
        assert CloserOk(l, s.id);
      }
    }
  }

  lemma StepInv(l: Listener, s: Step)
    requires Inv(l) && Enabled(l, s)
    ensures Inv(Next(l, s))
  {
    if s.CloseCall? || s.EnterOnce? || s.LockForClose? || s.CloseWaited? {
      EnterStep(l, s);
    } else if s.Signal? || s.CloseSocket? || s.BreakConns? || s.UnlockAfterClose? {
      CloseStep(l, s);
    } else if s.Start? || s.ReadFrame? || s.ReadFails? || s.HandlerReturns? || s.Untrack? || s.CloseConn? || s.WgDone? {
      HandlerStep(l, s);
    } else {
      ServeStep(l, s);
    }
  }

  lemma {:induction false} RunInv(l: Listener, steps: seq<Step>, l': Listener)
    requires Inv(l) && Runs(l, steps, l')
    ensures Inv(l')
    decreases |steps|
  {
    if steps != [] {
      StepInv(l, steps[0]);
      RunInv(Next(l, steps[0]), steps[1..], l');
    }
  }

  ghost predicate Reached(steps: seq<Step>, l: Listener) {
    Runs(Initial, steps, l)
  }

  lemma ReachedInv(steps: seq<Step>, l: Listener)
    requires Reached(steps, l)
    ensures Inv(l)
  {
    assert Inv(Initial) by {
      assert Unfinished(map[]) == {};
    }
    RunInv(Initial, steps, l);
  }

  // ---------- the promises ----------

  /** The wait-group count is exactly the number of tracked handlers that have not finished. */
  lemma CountIsExact(steps: seq<Step>, l: Listener)
    requires Reached(steps, l)
    ensures l.wg == |Unfinished(l.handlers)|
    ensures forall c :: c in l.conns ==> l.serve == Inserted(c) || c in Unfinished(l.handlers)
  {
    ReachedInv(steps, l);
  }

  /** Once closed, no connection is tracked and no slot is claimed any more. */
  lemma ClosedTracksNothing(l: Listener, s: Step)
    requires Inv(l) && Enabled(l, s) && l.closed
    ensures Next(l, s).closed && Next(l, s).conns <= l.conns && Next(l, s).handlers.Keys == l.handlers.Keys &&
            Next(l, s).wg <= l.wg
    ensures Unfinished(Next(l, s).handlers) <= Unfinished(l.handlers)
  {
  }

  lemma {:induction false} ClosedRunTracksNothing(l: Listener, steps: seq<Step>, l': Listener)
    requires Inv(l) && l.closed && Runs(l, steps, l')
    ensures l'.closed && l'.conns <= l.conns && l'.handlers.Keys == l.handlers.Keys && l'.wg <= l.wg
    ensures Unfinished(l'.handlers) <= Unfinished(l.handlers)
    decreases |steps|
  {
    if steps != [] {
      StepInv(l, steps[0]);
      ClosedTracksNothing(l, steps[0]);
      ClosedRunTracksNothing(Next(l, steps[0]), steps[1..], l');
    }
  }

  /** Serve has returned nil, or some call of Close has returned. */
  ghost predicate ShutDown(l: Listener) {
    l.serve.ServedNil? || exists id :: CloserAt(l, id, Returned)
  }

  lemma ShutDownIsQuiet(l: Listener)
    requires Inv(l) && ShutDown(l)
    ensures l.closed && Unfinished(l.handlers) == {}
  {
    if !l.serve.ServedNil? {
      var id :| CloserAt(l, id, Returned);
      assert CloserOk(l, id);
    }
  }

  /** From then on, whatever happens, no handler is running or will ever start. */
  lemma NoHandlerAfterShutdown(steps: seq<Step>, l: Listener, more: seq<Step>, l': Listener, c: Conn)
    requires Reached(steps, l) && ShutDown(l) && Runs(l, more, l')
    ensures c in l'.handlers ==> l'.handlers[c].Finished?
    ensures c in l'.handlers <==> c in l.handlers
  {
    ReachedInv(steps, l);
    ShutDownIsQuiet(l);
    ClosedRunTracksNothing(l, more, l');
    assert c in l'.handlers ==> (c in Unfinished(l'.handlers) <==> !l'.handlers[c].Finished?);
  }

  // ---------- shutdown does not get stuck ----------

  /**
   A step that is bound to happen: the program can take it without a peer doing anything. Reading
   ends by itself only on a broken connection; a running handler is assumed to return.
   */
  predicate Forced(l: Listener, s: Step) {
    Enabled(l, s) && !s.AcceptOk? && !s.AcceptFails? && !s.ReadFrame? && !s.CloseCall? &&
    (s.ReadFails? ==> s.conn in l.broken)
  }

  ghost predicate ForcedRuns(l: Listener, steps: seq<Step>, l': Listener)
    decreases |steps|
  {
    if steps == [] then l == l'
    else Forced(l, steps[0]) && ForcedRuns(Next(l, steps[0]), steps[1..], l')
  }

  /** Forced steps alone lead from `l` to `l'`. */
  ghost predicate Leads(l: Listener, l': Listener) {
    exists steps :: ForcedRuns(l, steps, l')
  }

  lemma LeadsNowhere(l: Listener)
    ensures Leads(l, l)
  {
    assert ForcedRuns(l, [], l);
  }

  lemma LeadsFirst(l: Listener, s: Step, l': Listener)
    requires Forced(l, s) && Leads(Next(l, s), l')
    ensures Leads(l, l')
  {
    var steps :| ForcedRuns(Next(l, s), steps, l');
    assert ([s] + steps)[1..] == steps;
    assert ForcedRuns(l, [s] + steps, l');
  }

  lemma LeadsOn(l1: Listener, l2: Listener, l3: Listener)
    requires Leads(l1, l2) && Leads(l2, l3)
    ensures Leads(l1, l3)
  {
    var steps :| ForcedRuns(l1, steps, l2);
    LeadsAlong(l1, steps, l2, l3);
  }

  lemma {:induction false} LeadsAlong(l1: Listener, steps: seq<Step>, l2: Listener, l3: Listener)
    requires ForcedRuns(l1, steps, l2) && Leads(l2, l3)
    ensures Leads(l1, l3)
    decreases |steps|
  {
    if steps != [] {
      LeadsAlong(Next(l1, steps[0]), steps[1..], l2, l3);
      LeadsFirst(l1, steps[0], l3);
    }
  }

  // ---------- one handler runs to its end ----------

  /** The closing pass is over and nobody holds the mutex. */
  predicate Broken(l: Listener) {
    l.once.Done? && l.mutex == None
  }

  /**
   The next step of a handler on its way out; the accept loop may still have to start it. The handlers in
   `cancelled` find their context cancelled when they start, which is not the listener's choice.
   */
  function WayOut(l: Listener, c: Conn, cancelled: set<Conn>): Step
    requires c in l.handlers && !l.handlers[c].Finished?
  {
    match l.handlers[c]
    case Claimed => if l.serve == Spawning(c) then Spawn else Start(c, c in cancelled)
    case Reading => ReadFails(c)
    case Handling => HandlerReturns(c)
    case Leaving => Untrack(c)
    case Untracked => CloseConn(c)
    case _ => WgDone(c)
  }

  function StepsLeft(l: Listener, c: Conn): nat
    requires c in l.handlers
  {
    match l.handlers[c]
    case Claimed => if l.serve == Spawning(c) then 7 else 6
    case Handling => 6
    case Reading => 5
    case Leaving => 4
    case Untracked => 3
    case ConnClosed => 2
    case Finished => 0
  }

  /** It is forced: in particular a read ends, because every tracked connection has been broken. */
  lemma WayOutIsForced(l: Listener, c: Conn, cancelled: set<Conn>)
    requires Inv(l) && Broken(l) && c in l.handlers && !l.handlers[c].Finished?
    ensures Forced(l, WayOut(l, c, cancelled))
    ensures var l' := Next(l, WayOut(l, c, cancelled));
            Broken(l') && l'.closers == l.closers && c in l'.handlers && StepsLeft(l', c) < StepsLeft(l, c) &&
            l'.handlers == l.handlers[c := l'.handlers[c]]
  {
    assert c in Unfinished(l.handlers);
    assert l.wg > 0;
  }

  /** So every handler can be run to its end by forced steps alone, and no other handler has to move for it. */
  lemma {:induction false} HandlerFinishes(l: Listener, c: Conn, cancelled: set<Conn>) returns (l': Listener)
    requires Inv(l) && Broken(l) && c in l.handlers
    ensures Leads(l, l') && Inv(l') && Broken(l') && l'.closers == l.closers
    ensures l'.handlers == l.handlers[c := Finished]
    decreases StepsLeft(l, c)
  {
    if l.handlers[c].Finished? {
      l' := l;
      LeadsNowhere(l);
    } else {
      var s := WayOut(l, c, cancelled);
      WayOutIsForced(l, c, cancelled);
      StepInv(l, s);
      l' := HandlerFinishes(Next(l, s), c, cancelled);
      LeadsFirst(l, s, l');
    }
  }

  lemma {:induction false} AllHandlersFinish(l: Listener, cancelled: set<Conn>) returns (l': Listener)
    requires Inv(l) && Broken(l)
    ensures Leads(l, l') && Inv(l') && Broken(l') && l'.closers == l.closers && l'.wg == 0
    decreases |Unfinished(l.handlers)|
  {
    if Unfinished(l.handlers) == {} {
      l' := l;
      LeadsNowhere(l);
    } else {
      var c :| c in Unfinished(l.handlers);
      var l1 := HandlerFinishes(l, c, cancelled);
      assert Unfinished(l1.handlers) == Unfinished(l.handlers) - {c};
      l' := AllHandlersFinish(l1, cancelled);
      LeadsOn(l, l1, l');
    }
  }

  // ---------- while the listener is open ----------

  /** Forced steps up to here, then one more. */
  lemma LeadsLast(l: Listener, l1: Listener, s: Step)
    requires Leads(l, l1) && Forced(l1, s)
    ensures Leads(l, Next(l1, s))
  {
    LeadsNowhere(Next(l1, s));
    LeadsFirst(l1, s, Next(l1, s));
    LeadsOn(l, l1, Next(l1, s));
  }

  /**
   While the listener is open and nobody is inside its mutex, an accepted connection is tracked and its handler reads
   from it after forced steps alone; a frame it sends is handled, and then the handler reads again.
   */
  lemma AcceptedIsServed(steps: seq<Step>, l: Listener, c: Conn) returns (l': Listener)
    requires Reached(steps, l) && l.serve == Accepted(c) && c !in l.broken && !l.closed && l.mutex == None
    ensures Leads(l, l') && Inv(l') && At(l', c, Reading) && c in l'.conns && l'.serve.Accepting?
    ensures Enabled(l', ReadFrame(c)) && At(Next(l', ReadFrame(c)), c, Handling)
    ensures Forced(Next(l', ReadFrame(c)), HandlerReturns(c))
    ensures At(Next(Next(l', ReadFrame(c)), HandlerReturns(c)), c, Reading)
  {
    ReachedInv(steps, l);
    LeadsNowhere(l);
    var l1 := IsTracked(l, c);
    StepInv(l1, Spawn);
    LeadsLast(l, l1, Spawn);
    var l2 := Next(l1, Spawn);
    StepInv(l2, Start(c, false));
    LeadsLast(l, l2, Start(c, false));
    l' := Next(l2, Start(c, false));
  }

  lemma IsTracked(l: Listener, c: Conn) returns (l': Listener)
    requires Inv(l) && l.serve == Accepted(c) && c !in l.broken && !l.closed && l.mutex == None
    ensures Leads(l, l') && Inv(l') && l'.serve == Spawning(c) && At(l', c, Claimed) && c in l'.conns && c !in l'.broken
  {
    LeadsNowhere(l);
    StepInv(l, LockForTrack);
    LeadsLast(l, l, LockForTrack);
    var l1 := Next(l, LockForTrack);
    StepInv(l1, CheckClosed);
    LeadsLast(l, l1, CheckClosed);
    var l2 := Next(l1, CheckClosed);
    StepInv(l2, ClaimSlot);
    LeadsLast(l, l2, ClaimSlot);
    l' := Next(l2, ClaimSlot);
  }

  // ---------- Close runs to its end ----------

  /** The next step of whoever holds the mutex. */
  function HolderStep(l: Listener): Step
    requires l.mutex.Some? && (l.mutex.value.Closer? ==> l.mutex.value.id in l.closers)
  {
    match l.mutex.value
    case ServeLoop => if l.serve.Tracking? then CheckClosed else ClaimSlot
    case Closer(id) =>
      match l.closers[id]
      case Locked => Signal(id)
      case Signalled => CloseSocket(id)
      case ListenerClosed => BreakConns(id)
      case _ => UnlockAfterClose(id)
  }

  function HolderLeft(l: Listener): nat {
    match l.mutex
    case None => 0
    case Some(ServeLoop) => if l.serve.Tracking? then 2 else 1
    case Some(Closer(id)) =>
      if id !in l.closers then 1
      else match l.closers[id]
        case Locked => 4
        case Signalled => 3
        case ListenerClosed => 2
        case _ => 1
  }

  /** The holder goes on, and when a closer gives the mutex back the closing pass is over. */
  lemma HolderMoves(l: Listener)
    requires Inv(l) && l.mutex.Some?
    ensures l.mutex.value.Closer? ==> l.mutex.value.id in l.closers
    ensures Forced(l, HolderStep(l))
    ensures var l' := Next(l, HolderStep(l));
            && HolderLeft(l') < HolderLeft(l)
            && (l'.once == l.once || l'.once.Done?)
            && (l'.mutex == l.mutex || l'.mutex == None)
            && (l.mutex.value.Closer? && l'.mutex == None ==> l'.once.Done?)
            && (forall id :: id in l.closers ==>
                  id in l'.closers && (l'.closers[id] == l.closers[id] || InLock(l.closers[id])) &&
                  !(l'.closers[id].Returned? && !l.closers[id].Returned?))
  {
    if l.mutex.value.Closer? {
      assert CloserOk(l, l.mutex.value.id);
    }
  }

  lemma {:induction false} MutexIsFreed(l: Listener) returns (l': Listener)
    requires Inv(l)
    ensures Leads(l, l') && Inv(l') && l'.mutex == None && (l'.once == l.once || l'.once.Done?)
    ensures l.mutex.Some? && l.mutex.value.Closer? ==> l'.once.Done?
    ensures forall id :: id in l.closers ==>
            id in l'.closers && (!l.closers[id].Returned? ==> !l'.closers[id].Returned?)
    decreases HolderLeft(l)
  {
    if l.mutex == None {
      l' := l;
      LeadsNowhere(l);
    } else {
      HolderMoves(l);
      var s := HolderStep(l);
      StepInv(l, s);
      l' := MutexIsFreed(Next(l, s));
      LeadsFirst(l, s, l');
    }
  }

  /** Whoever is inside the Once, or else the call itself, closes the listener. */
  lemma ClosingPassHappens(l: Listener, id: Caller) returns (l': Listener)
    requires Inv(l) && l.mutex == None && id in l.closers && !l.closers[id].Returned?
    ensures Leads(l, l') && Inv(l') && Broken(l') && id in l'.closers && !l'.closers[id].Returned?
  {
    assert CloserOk(l, id);
    if l.once.Done? {
      l' := l;
      LeadsNowhere(l);
    } else {
      var l1, k := l, id;
      LeadsNowhere(l);
      if l.once.Running? {
        k := l.once.id;
        assert CloserOk(l, k);
      } else {
        StepInv(l, EnterOnce(id));
        l1 := Next(l, EnterOnce(id));
        LeadsNowhere(l1);
        LeadsFirst(l, EnterOnce(id), l1);
      }
      assert CloserAt(l1, k, InOnce);
      StepInv(l1, LockForClose(k));
      var l2 := Next(l1, LockForClose(k));
      l' := MutexIsFreed(l2);
      LeadsFirst(l1, LockForClose(k), l');
      LeadsOn(l, l1, l');
    }
  }

  /**
   A Close call that has not returned is never stuck, however idle the peers are and whichever contexts are
   cancelled: from every reachable state forced steps alone lead to its return, with every handler finished.
   */
  lemma CloseCanReturn(steps: seq<Step>, l: Listener, id: Caller, cancelled: set<Conn>) returns (l': Listener)
    requires Reached(steps, l) && id in l.closers
    ensures Leads(l, l') && Inv(l') && CloserAt(l', id, Returned) && Unfinished(l'.handlers) == {}
  {
    ReachedInv(steps, l);
    if l.closers[id].Returned? {
      l' := l;
      LeadsNowhere(l);
      assert CloserAt(l, id, Returned);
      ShutDownIsQuiet(l);
    } else {
      var l1 := MutexIsFreed(l);
      var l2 := ClosingPassHappens(l1, id);
      LeadsOn(l, l1, l2);
      l' := ClosedCanReturn(l2, id, cancelled);
      LeadsOn(l, l2, l');
    }
  }

  lemma ClosedCanReturn(l: Listener, id: Caller, cancelled: set<Conn>) returns (l': Listener)
    requires Inv(l) && Broken(l) && id in l.closers && !l.closers[id].Returned?
    ensures Leads(l, l') && Inv(l') && CloserAt(l', id, Returned) && Unfinished(l'.handlers) == {}
  {
    assert CloserOk(l, id);
    var l1 := l;
    LeadsNowhere(l);
    if l.closers[id].Entering? {
      StepInv(l, EnterOnce(id));
      l1 := Next(l, EnterOnce(id));
      LeadsNowhere(l1);
      LeadsFirst(l, EnterOnce(id), l1);
    }
    var l2 := AllHandlersFinish(l1, cancelled);
    LeadsOn(l, l1, l2);
    StepInv(l2, CloseWaited(id));
    l' := Next(l2, CloseWaited(id));
    LeadsNowhere(l');
    LeadsFirst(l2, CloseWaited(id), l');
    LeadsOn(l, l2, l');
  }
}
