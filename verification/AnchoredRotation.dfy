/**
 Anchors and key rotation: a daemon signs its checkpoints with the key it runs under, RotateKey
 publishes another one, and the anchor check reads the whole log against the published key.
 */
module AnchoredRotation {
  import opened Receipts
  import opened AnchorReader
  import opened DaemonRun
  import opened AnchoredRun
  import Restart = AnchoredRestart
  import R = Rotate
  import Lineage

  /** After a run that ended in `d`, its key was rotated, with the receipt on chain `rotated`. */
  ghost predicate RotatedAfter(d: Daemon, before: R.Disk, after: R.Disk, rotated: string, newKey: PublicKey, id: nat) {
    && before.store == d.w.store && R.HasKey(before) && before.files[R.Priv].key == d.w.signer
    && Lineage.Rotates(before, after, rotated, newKey, id) && newKey != d.w.signer
  }

  /** What the checks of the published key make of the lines that the run had written. */
  lemma OutgoingLines(d: Daemon, before: R.Disk, after: R.Disk, rotated: string, newKey: PublicKey, id: nat, k: string)
    requires RotatedAfter(d, before, after, rotated, newKey, id)
    ensures R.Pub in after.files && after.files[R.Pub] == R.PublicPem(newKey)
    ensures LinesOk(LogLines(d.e.written, d.w.signer), k, newKey) <==>
            Collect(LogLines(d.e.written, d.w.signer), k) == []
  {
    assert R.FileAt(after, R.Pub) == Some(R.PublicPem(newKey));
    LogLinesOkIff(d.e.written, d.w.signer, k, newKey);
  }

  /** Lines that say nothing about a chain leave what the readers collect about it as it was. */
  lemma SilentMiddle(l1: seq<Line>, l2: seq<Line>, l3: seq<Line>, k: string, key: PublicKey)
    requires Collect(l2, k) == [] && LinesOk(l2, k, key)
    ensures Read(l1 + l2 + l3, k, key) == Read(l1 + l3, k, key)
  {
    LinesOkConcat(l1, l2, k, key);
    LinesOkConcat(l1 + l2, l3, k, key);
    LinesOkConcat(l1, l3, k, key);
    CollectConcat(l1, l2, k);
    CollectConcat(l1 + l2, l3, k);
    CollectConcat(l1, l3, k);
    assert Collect(l1, k) + [] == Collect(l1, k);
  }

  lemma BadMiddle(l1: seq<Line>, l2: seq<Line>, l3: seq<Line>, k: string, key: PublicKey)
    requires !LinesOk(l2, k, key)
    ensures Read(l1 + l2 + l3, k, key).Err?
  {
    LinesOkConcat(l1, l2, k, key);
    LinesOkConcat(l1 + l2, l3, k, key);
  }

  /**
   The check against the published key, for any chain whatever and whatever is anchored later: if the
   outgoing key signed a checkpoint of that chain, it fails with an error; if not, the lines of that
   run make no difference.
   */
  lemma VerdictAfterRotation(d: Daemon, before: R.Disk, after: R.Disk, rotated: string, newKey: PublicKey, id: nat,
                             earlier: seq<Line>, later: seq<Line>, k: string, c: Chain)
    requires RotatedAfter(d, before, after, rotated, newKey, id)
    ensures R.Pub in after.files && after.files[R.Pub].PublicPem?
    ensures var own, published := LogLines(d.e.written, d.w.signer), after.files[R.Pub].key;
            CheckChain(Read(earlier + own + later, k, published), c) ==
              if Collect(own, k) == [] then CheckChain(Read(earlier + later, k, published), c)
              else AnchorResult(false, false, 0)
  {
    var own := LogLines(d.e.written, d.w.signer);
    OutgoingLines(d, before, after, rotated, newKey, id, k);
    if Collect(own, k) == [] {
      SilentMiddle(earlier, own, later, k, newKey);
    } else {
      BadMiddle(earlier, own, later, k, newKey);
    }
  }

  /** The second case is every chain of a run that ended cleanly and in order: none of them passes again. */
  lemma CleanRunIsLostByRotation(root: string, signer: PublicKey, st: Store, cadence: nat, depth: nat,
                                 steps: seq<Step>, d: Daemon, earlier: seq<Line>, k: string,
                                 before: R.Disk, after: R.Disk, rotated: string, newKey: PublicKey, id: nat,
                                 later: seq<Line>, c: Chain)
    requires Restart.CleanRun(root, signer, st, cadence, depth, steps, d, earlier, k)
    requires RotatedAfter(d, before, after, rotated, newKey, id)
    ensures R.Pub in after.files && after.files[R.Pub].PublicPem?
    ensures var lines := earlier + LogLines(d.e.written, d.w.signer) + later;
            CheckChain(Read(lines, k, after.files[R.Pub].key), c) == AnchorResult(false, false, 0)
  {
    Restart.CleanRunFacts(root, signer, st, cadence, depth, steps, d, earlier, k);
    OwnLogHoldsHead(d, k);
    VerdictAfterRotation(d, before, after, rotated, newKey, id, earlier, later, k, c);
  }

  lemma GenuineThroughout(d: Daemon, before: R.Disk, after: R.Disk, rotated: string, newKey: PublicKey, id: nat,
                          st: Store, d2: Daemon, earlier: seq<Line>, k: string)
    requires RotatedAfter(d, before, after, rotated, newKey, id)
    requires Restart.Ahead(d, st) && Restart.Ahead(d2, after.store) && GenuineLines(earlier, st, k)
    ensures GenuineLines(earlier, d2.w.store, k)
  {
    Restart.KeptIsPrefix(d, st, k);
    assert ChainAt(d.w.store, k) <= ChainAt(after.store, k);
    Restart.KeptIsPrefix(d2, after.store, k);
    Restart.GenuineLater(earlier, st, d2.w.store, k);
  }

  /**
   A run, a rotation of its key, and a run under the new key: when an intact chain passes at any moment of
   the second run.
   */
  lemma RotatedLogPassesIff(root: string, signer: PublicKey, st: Store, cadence: nat, depth: nat,
                            steps: seq<Step>, d: Daemon,
                            before: R.Disk, after: R.Disk, rotated: string, newKey: PublicKey, id: nat,
                            root2: string, cadence2: nat, depth2: nat, steps2: seq<Step>, d2: Daemon,
                            earlier: seq<Line>, k: string)
    requires Reached(root, signer, st, cadence, depth, steps, d) && GenuineLines(earlier, st, k)
    requires RotatedAfter(d, before, after, rotated, newKey, id)
    requires Reached(root2, newKey, after.store, cadence2, depth2, steps2, d2) && ChainAt(d2.w.store, k) != []
    ensures R.Pub in after.files && after.files[R.Pub].PublicPem?
    ensures var own, own2 := LogLines(d.e.written, d.w.signer), LogLines(d2.e.written, d2.w.signer);
            CheckChain(Read(earlier + own + own2, k, after.files[R.Pub].key), ChainAt(d2.w.store, k)).ok <==>
              Collect(own, k) == [] && LogPasses(earlier, d2, k, newKey)
  {
    var own2 := LogLines(d2.e.written, d2.w.signer);
    VerdictAfterRotation(d, before, after, rotated, newKey, id, earlier, own2, k, ChainAt(d2.w.store, k));
    OutgoingLines(d, before, after, rotated, newKey, id, k);
    Restart.ReachedAhead(root, signer, st, cadence, depth, steps, d);
    Restart.ReachedAhead(root2, newKey, after.store, cadence2, depth2, steps2, d2);
    GenuineThroughout(d, before, after, rotated, newKey, id, st, d2, earlier, k);
    IntactPassesIff(root2, newKey, after.store, cadence2, depth2, steps2, d2, earlier, k, newKey);
  }
}
