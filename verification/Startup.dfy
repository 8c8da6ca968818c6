/**
 How `Run` in daemon/daemon.go picks the root chain to serve: load the configured chain, advance
 past terminal ones at most 32 times, and refuse if the last one tried is terminal too.
 */
module Startup {
  import opened Receipts
  import opened ChainState
  import opened ChainId

  const ADVANCE_CAP := 32

  /** The test of the loop and of the guard after it: something is stored and the tail is terminal. */
  predicate IsTerminal(c: Chain) {
    LoadedView(c).nextSeq > 1 && c != [] && c[|c| - 1].terminal
  }

  datatype Resolution = Serve(chain: string) | RefuseTerminal | StoreError

  /** The chain under the n-th id tried is terminal. */
  predicate TerminalAt(st: Store, id: string, n: nat) {
    IsTerminal(ChainAt(st, ChainId.Advanced(id, n)))
  }

  ghost predicate IsFirstOpen(st: Store, id: string, n: nat) {
    !TerminalAt(st, id, n) && forall m :: 0 <= m < n ==> TerminalAt(st, id, m)
  }

  /** Startup may serve `root`: it is the first id, within the cap, that is not terminal. */
  ghost predicate Resolves(st: Store, configured: string, cap: nat, root: string) {
    exists n: nat :: n <= cap && IsFirstOpen(st, configured, n) && root == ChainId.Advanced(configured, n)
  }

  ghost predicate AllTerminal(st: Store, id: string, cap: nat) {
    forall m :: 0 <= m <= cap ==> TerminalAt(st, id, m)
  }

  /** Startup serves at most one chain, and refuses exactly when there is none to serve. */
  lemma ResolutionIsDetermined(st: Store, configured: string, cap: nat, r1: string, r2: string)
    ensures Resolves(st, configured, cap, r1) && Resolves(st, configured, cap, r2) ==> r1 == r2
    ensures AllTerminal(st, configured, cap) ==> !Resolves(st, configured, cap, r1)
  {
  }

  /**
   The load, the capped advance loop and the guard after it. The store query number `failAt` fails,
   if the method gets that far; nothing of the store changes.
   */
  method ResolveChain(st: Store, configured: string, failAt: nat) returns (r: Resolution)
    ensures r.Serve? ==> Resolves(st, configured, ADVANCE_CAP, r.chain)
    ensures r.RefuseTerminal? ==> AllTerminal(st, configured, ADVANCE_CAP)
    ensures r.StoreError? ==> failAt <= 2 * ADVANCE_CAP + 1
    ensures failAt == 0 ==> r.StoreError?
  {
    r := ResolveWithin(st, configured, ADVANCE_CAP, failAt);
  }

  method ResolveWithin(st: Store, configured: string, cap: nat, failAt: nat) returns (r: Resolution)
    ensures r.Serve? ==> Resolves(st, configured, cap, r.chain)
    ensures r.RefuseTerminal? ==> AllTerminal(st, configured, cap)
    ensures r.StoreError? ==> failAt <= 2 * cap + 1
    ensures failAt == 0 ==> r.StoreError?
  {
    if failAt == 0 {
      return StoreError;
    }
    var ok, i, id, calls := AdvanceLoop(st, configured, cap, failAt);
    if !ok {
      return StoreError;
    }
    var read, terminal := CheckTail(st, id, calls == failAt);
    if !read {
      return StoreError;
    }
    Conclude(st, configured, cap, i, id);
    return if terminal then RefuseTerminal else Serve(id);
  }

  /** `id` is the i-th id tried, and all before it were terminal. */
  ghost predicate Tried(st: Store, configured: string, i: nat, id: string) {
    id == ChainId.Advanced(configured, i) && forall m :: 0 <= m < i ==> TerminalAt(st, configured, m)
  }

  /** The loop proper: it stops at the cap or on a chain that is not terminal. */
  method AdvanceLoop(st: Store, configured: string, cap: nat, failAt: nat)
    returns (ok: bool, i: nat, id: string, calls: nat)
    requires failAt > 0
    ensures !ok ==> failAt <= 2 * cap
    ensures i <= cap && calls <= 2 * cap + 1 && Tried(st, configured, i, id)
    ensures ok && i < cap ==> !IsTerminal(ChainAt(st, id))
  {
    ok, i, id, calls := true, 0, configured, 1;
    while i < cap
      invariant ok && 0 <= i <= cap && calls == 2 * i + 1 && Tried(st, configured, i, id)
    {
      var read, terminal := CheckTail(st, id, calls == failAt);
      if !read || (terminal && calls + 1 == failAt) {
        ok := false;
        return;
      }
      if !terminal {
        calls := calls + 1;
        return;
      }
      id := NextId(st, configured, i, id);
      calls, i := calls + 2, i + 1;
    }
  }

  method NextId(st: Store, configured: string, i: nat, id: string) returns (next: string)
    requires Tried(st, configured, i, id) && IsTerminal(ChainAt(st, id))
    ensures Tried(st, configured, i + 1, next)
  {
    next := AdvanceChainId(id);
  }

  /** The tail is only read when the loaded state says there is one. */
  method CheckTail(st: Store, id: string, fails: bool) returns (ok: bool, terminal: bool)
    ensures ok ==> terminal == IsTerminal(ChainAt(st, id))
    ensures !ok ==> fails
  {
    var c := ChainAt(st, id);
    if LoadedView(c).nextSeq <= 1 {
      return true, false;
    }
    if fails {
      return false, false;
    }
    return true, c != [] && c[|c| - 1].terminal;
  }

  /** What the loop leaves: an open chain, or the last id the cap allows. */
  lemma Conclude(st: Store, configured: string, cap: nat, i: nat, id: string)
    requires Tried(st, configured, i, id) && i <= cap && (i < cap ==> !IsTerminal(ChainAt(st, id)))
    ensures if IsTerminal(ChainAt(st, id)) then AllTerminal(st, configured, cap) else Resolves(st, configured, cap, id)
  {
    if IsTerminal(ChainAt(st, id)) {
      assert TerminalAt(st, configured, cap);
    } else {
      OpenHere(st, configured, cap, i, id);
    }
  }

  lemma OpenHere(st: Store, configured: string, cap: nat, i: nat, id: string)
    requires Tried(st, configured, i, id) && !IsTerminal(ChainAt(st, id)) && i <= cap
    ensures Resolves(st, configured, cap, id)
  {
    assert IsFirstOpen(st, configured, i);
  }

  /** The ids tried are different chains, so every one of the refused ids really holds its own terminal chain. */
  lemma RefusalMeansManyChains(st: Store, id: string, cap: nat, i: nat, j: nat)
    requires AllTerminal(st, id, cap) && i < j <= cap
    ensures ChainId.Advanced(id, i) != ChainId.Advanced(id, j)
    ensures ChainId.Advanced(id, i) in st && ChainId.Advanced(id, j) in st
  {
    NeverRepeats(id, i, j);
    assert TerminalAt(st, id, i) && TerminalAt(st, id, j);
  }

  /** In numbers: a refusal is about 33 different stored chains, each with a terminal receipt at its end. */
  lemma RefusalMeans33(st: Store, id: string) returns (ids: seq<string>)
    requires AllTerminal(st, id, ADVANCE_CAP)
    ensures |ids| == 33 && ids[0] == id
    ensures forall i, j :: 0 <= i < j < 33 ==> ids[i] != ids[j]
    ensures forall i :: 0 <= i < 32 ==> ids[i + 1] == AdvanceChainId(ids[i])
    ensures forall i :: 0 <= i < 33 ==> ids[i] in st && st[ids[i]] != [] && st[ids[i]][|st[ids[i]]| - 1].terminal
  {
    ids := seq(33, i requires 0 <= i < 33 => ChainId.Advanced(id, i));
    forall i, j | 0 <= i < j < 33 ensures ids[i] != ids[j] {
      RefusalMeansManyChains(st, id, ADVANCE_CAP, i, j);
    }
    forall i | 0 <= i < 33 ensures ids[i] in st && st[ids[i]] != [] && st[ids[i]][|st[ids[i]]| - 1].terminal {
      assert TerminalAt(st, id, i);
    }
  }

  lemma {:induction false} AdvancedHasNoSlash(id: string, n: nat)
    requires '/' !in id
    ensures '/' !in ChainId.Advanced(id, n)
    decreases n
  {
    if n > 0 {
      AdvancedHasNoSlash(id, n - 1);
      AdvanceKeepsNoSlash(ChainId.Advanced(id, n - 1));
    }
  }

  /** What startup serves is open, and contains no '/' unless the configured id does. */
  lemma ServedIsOpen(st: Store, configured: string, cap: nat, root: string)
    requires Resolves(st, configured, cap, root)
    ensures !IsTerminal(ChainAt(st, root))
    ensures '/' !in configured ==> '/' !in root
  {
    var n: nat :| n <= cap && IsFirstOpen(st, configured, n) && root == ChainId.Advanced(configured, n);
    if '/' !in configured {
      AdvancedHasNoSlash(configured, n);
    }
  }
}
