/**
 daemon/rotate.go: offline key rotation as a sequence of writes to files, to the anchor log and to
 the store, any of which may fail and between any two of which the process may crash.

 `trace` records what a crash would leave behind: one snapshot per persistent change, including
 the half-written state of a file that is created and then filled. Replacing a file is one change,
 because it goes through a rename.
 */
module Rotate {
  import opened Receipts
  import opened ChainState

  /** Key files by role; a backup or archive is named after what it keeps. */
  datatype Path = Priv | Pub | PrivBak | PubBak | Archive(fp: Fingerprint)

  datatype Data = PrivateKey(key: PublicKey) | PublicPem(key: PublicKey) | Partial

  datatype Disk = Disk(files: map<Path, Data>, anchorLog: seq<Receipt>, store: Store)

  function FileAt(d: Disk, p: Path): Option<Data> {
    if p in d.files then Some(d.files[p]) else None
  }

  /** Everything that can go wrong; a run is given the set of operations that fail. */
  datatype Op =
    | ReadPriv | GenerateKey | OpenStore | ReadTail | SignReceipt
    | OpenAnchor | WriteAnchor | CloseAnchor
    | ReadPub | WriteArchive | RereadPriv | RereadPub | WritePrivBak | WritePubBak
    | ReplacePriv | ReplacePub | RollbackPriv | InsertReceipt | RestorePriv | RestorePub
    | RemoveArchive | RemovePrivBak | RemovePubBak

  /** `complete`: every required setting is present. `reachable`: a daemon answers on the socket. */
  datatype Config = Config(chain: string, complete: bool, reachable: bool, anchored: bool)

  datatype Stage = Usage | DaemonRunning | LoadKey | NewKey | ReadHead | Signing | Anchoring | Archiving
                 | BackingUp | SwappingPriv | SwappingPub | Inserting(restored: bool)

  datatype Outcome = Rotated(sequence: nat, oldFp: Fingerprint, newFp: Fingerprint) | Failed(stage: Stage)

  /** The rotation receipt: next in the chain, signed with the outgoing key. */
  function RotationEvent(st: Store, chain: string, oldKey: PublicKey, newKey: PublicKey, id: nat): Receipt {
    var head := LoadedView(ChainAt(st, chain));
    Receipt(id, chain, head.nextSeq, head.prev,
            KeyRotated(Rotation(true, newKey, FingerprintOf(oldKey), FingerprintOf(newKey))), false, None, oldKey)
  }

  function Appended(st: Store, r: Receipt): Store {
    st[r.chain := ChainAt(st, r.chain) + [r]]
  }

  // ---------- what a crash may leave behind ----------

  predicate KeysAre(d: Disk, key: PublicKey) {
    FileAt(d, Priv) == Some(PrivateKey(key)) && FileAt(d, Pub) == Some(PublicPem(key))
  }

  predicate KeysUnchanged(before: Disk, d: Disk) {
    FileAt(d, Priv) == FileAt(before, Priv) && FileAt(d, Pub) == FileAt(before, Pub)
  }

  /**
   Every crash point of a rotation of `oldKey` to `newKey`: each key file holds its old or its new
   content; the receipt is in the chain only while both hold the new; whenever anything has changed
   the configured anchor already has the event; the outgoing public key is archived before the
   published one changes; and no existing archive and no other file is touched.
   */
  ghost predicate CrashOk(before: Disk, d: Disk, anchored: bool, oldKey: PublicKey, newKey: PublicKey, e: Receipt) {
    && (FileAt(d, Priv) == FileAt(before, Priv) || FileAt(d, Priv) == Some(PrivateKey(newKey)))
    && (FileAt(d, Pub) == FileAt(before, Pub) || FileAt(d, Pub) == Some(PublicPem(newKey)))
    && (d.store == before.store || (d.store == Appended(before.store, e) && KeysAre(d, newKey)))
    && (d.anchorLog == before.anchorLog || (anchored && d.anchorLog == before.anchorLog + [e]))
    && (anchored && (!KeysUnchanged(before, d) || d.store != before.store) ==> d.anchorLog == before.anchorLog + [e])
    && (FileAt(d, Pub) != FileAt(before, Pub) ==> FileAt(d, Archive(FingerprintOf(oldKey))) == FileAt(before, Pub))
    && (forall fp :: Archive(fp) in before.files || fp != FingerprintOf(oldKey) ==>
          FileAt(d, Archive(fp)) == FileAt(before, Archive(fp)))
  }

  /** The files that creation must not find: left behind by an earlier crash, they block a rotation. */
  predicate Leftover(d: Disk, oldKey: PublicKey) {
    Archive(FingerprintOf(oldKey)) in d.files || PrivBak in d.files || PubBak in d.files
  }

  function Needed(anchored: bool): set<Op> {
    {ReadPriv, GenerateKey, OpenStore, ReadTail, SignReceipt, ReadPub, WriteArchive, RereadPriv, RereadPub,
     WritePrivBak, WritePubBak, ReplacePriv, ReplacePub, InsertReceipt} +
    if anchored then {OpenAnchor, WriteAnchor, CloseAnchor} else {}
  }

  predicate HasKey(d: Disk) {
    Priv in d.files && d.files[Priv].PrivateKey?
  }

  /** Exactly when a rotation goes through. */
  predicate CanRotate(before: Disk, c: Config, faults: set<Op>) {
    && c.complete && !c.reachable
    && HasKey(before) && Pub in before.files && !Leftover(before, before.files[Priv].key)
    && faults !! Needed(c.anchored)
  }

  /** The two ways a failed rotation leaves the key files changed: both are failed writes during roll-back. */
  predicate RollbackFailed(stage: Stage, faults: set<Op>) {
    (stage.SwappingPub? && RollbackPriv in faults) || stage == Inserting(false)
  }

  predicate NeverUsed(d: Disk, key: PublicKey) {
    FileAt(d, Priv) != Some(PrivateKey(key)) && FileAt(d, Pub) != Some(PublicPem(key))
  }

  /** Only `p` differs between the two disks. */
  ghost predicate OnlyFile(d: Disk, d': Disk, p: Path) {
    d'.anchorLog == d.anchorLog && d'.store == d.store && forall q :: q != p ==> FileAt(d', q) == FileAt(d, q)
  }

  /** The states a swap or its roll-back goes through: it only mixes old and new key files, and backups. */
  ghost predicate SwapOk(base: Disk, d: Disk, newKey: PublicKey) {
    && d.anchorLog == base.anchorLog && d.store == base.store
    && (FileAt(d, Priv) == FileAt(base, Priv) || FileAt(d, Priv) == Some(PrivateKey(newKey)))
    && (FileAt(d, Pub) == FileAt(base, Pub) || FileAt(d, Pub) == Some(PublicPem(newKey)))
    && (forall fp :: FileAt(d, Archive(fp)) == FileAt(base, Archive(fp)))
  }

  /** The outgoing public key is archived and the event anchored; nothing else has happened. */
  ghost predicate Prepared(before: Disk, d: Disk, anchored: bool, oldKey: PublicKey, e: Receipt) {
    && KeysUnchanged(before, d) && d.store == before.store
    && (d.anchorLog == before.anchorLog || (anchored && d.anchorLog == before.anchorLog + [e]))
    && (anchored ==> d.anchorLog == before.anchorLog + [e])
    && FileAt(d, Archive(FingerprintOf(oldKey))) == FileAt(before, Pub)
    && FileAt(d, PrivBak) == FileAt(before, PrivBak) && FileAt(d, PubBak) == FileAt(before, PubBak)
    && (forall fp :: Archive(fp) in before.files || fp != FingerprintOf(oldKey) ==>
          FileAt(d, Archive(fp)) == FileAt(before, Archive(fp)))
  }

  /** Every swap state is a good crash point once the event and the archive are in place. */
  lemma SwapIsCrashOk(before: Disk, base: Disk, d: Disk, anchored: bool, oldKey: PublicKey, newKey: PublicKey,
                      e: Receipt)
    requires Prepared(before, base, anchored, oldKey, e) && SwapOk(base, d, newKey)
    ensures CrashOk(before, d, anchored, oldKey, newKey, e)
  {
  }

  predicate CanSwap(d: Disk, faults: set<Op>) {
    && Priv in d.files && Pub in d.files && PrivBak !in d.files && PubBak !in d.files
    && faults !! {RereadPriv, RereadPub, WritePrivBak, WritePubBak, ReplacePriv, ReplacePub}
  }

  /** Touching a backup is invisible to a swap. */
  lemma BackupIsSwapOk(base: Disk, d: Disk, d': Disk, p: Path, newKey: PublicKey)
    requires SwapOk(base, d, newKey) && OnlyFile(d, d', p) && (p.PrivBak? || p.PubBak?)
    ensures SwapOk(base, d', newKey)
  {
    assert FileAt(d', Priv) == FileAt(d, Priv) && FileAt(d', Pub) == FileAt(d, Pub);
    forall fp ensures FileAt(d', Archive(fp)) == FileAt(base, Archive(fp)) {
      assert FileAt(d', Archive(fp)) == FileAt(d, Archive(fp));
    }
  }

  /** Creating the archive is a good crash point whenever the event is where it should be. */
  lemma ArchivingIsCrashOk(before: Disk, d: Disk, d': Disk, anchored: bool, oldKey: PublicKey, newKey: PublicKey,
                           e: Receipt)
    requires d.files == before.files && d.store == before.store
    requires d.anchorLog == before.anchorLog || (anchored && d.anchorLog == before.anchorLog + [e])
    requires OnlyFile(d, d', Archive(FingerprintOf(oldKey)))
    requires Archive(FingerprintOf(oldKey)) in before.files ==>
             FileAt(d', Archive(FingerprintOf(oldKey))) == FileAt(d, Archive(FingerprintOf(oldKey)))
    ensures CrashOk(before, d', anchored, oldKey, newKey, e)
  {
    assert FileAt(d', Priv) == FileAt(before, Priv) && FileAt(d', Pub) == FileAt(before, Pub);
    forall fp | Archive(fp) in before.files || fp != FingerprintOf(oldKey)
      ensures FileAt(d', Archive(fp)) == FileAt(before, Archive(fp))
    {
      assert FileAt(d', Archive(fp)) == FileAt(d, Archive(fp));
    }
  }

  /** A completed rotation: keys and chain carry the new key, and the outgoing public key is archived. */
  predicate HandedOver(before: Disk, d: Disk, oldKey: PublicKey, newKey: PublicKey, e: Receipt) {
    KeysAre(d, newKey) && d.store == Appended(before.store, e) &&
    FileAt(d, Archive(FingerprintOf(oldKey))) == FileAt(before, Pub)
  }

  /** How the outcome of RotateKey goes with the disk it leaves. */
  ghost predicate RotationOutcome(d: Disk, d': Disk, c: Config, newKey: PublicKey, id: nat, faults: set<Op>, r: Outcome)
    requires HasKey(d)
  {
    var oldKey := d.files[Priv].key;
    var e := RotationEvent(d.store, c.chain, oldKey, newKey, id);
    && (r.Rotated? <==> CanRotate(d, c, faults))
    && CrashOk(d, d', c.anchored, oldKey, newKey, e)
    && (r.Rotated? ==> HandedOver(d, d', oldKey, newKey, e))
    && (r.Failed? ==> d'.store == d.store)
    && (r.Failed? && !RollbackFailed(r.stage, faults) ==> KeysUnchanged(d, d'))
    && (r.Failed? && NeverUsed(d, newKey) ==> (KeysUnchanged(d, d') <==> !RollbackFailed(r.stage, faults)))
    && (r.Rotated? ==> RotatedFiles(d, d', oldKey, newKey, faults))
    && (r.Failed? && !RollbackFailed(r.stage, faults) ==> PutBack(d, d', oldKey, faults))
    && (r.Failed? && RollbackFailed(r.stage, faults) ==> LeftTorn(d, d', oldKey, newKey, r.stage, faults))
  }

  /**
   Every file after a successful rotation: both keys are new, the outgoing public key is in its archive, and a
   backup is only there if its removal failed.
   */
  ghost predicate RotatedFiles(before: Disk, d: Disk, oldKey: PublicKey, newKey: PublicKey, faults: set<Op>) {
    && FileAt(d, Priv) == Some(PrivateKey(newKey)) && FileAt(d, Pub) == Some(PublicPem(newKey))
    && FileAt(d, PrivBak) == (if RemovePrivBak in faults then FileAt(before, Priv) else None)
    && FileAt(d, PubBak) == (if RemovePubBak in faults then FileAt(before, Pub) else None)
    && forall fp :: FileAt(d, Archive(fp)) ==
                      if fp == FingerprintOf(oldKey) then FileAt(before, Pub) else FileAt(before, Archive(fp))
  }

  /** The backups are as they were, or could not be removed. */
  ghost predicate BackupsPutBack(before: Disk, d: Disk, faults: set<Op>) {
    && (RemovePrivBak in faults || FileAt(d, PrivBak) == FileAt(before, PrivBak))
    && (RemovePubBak in faults || FileAt(d, PubBak) == FileAt(before, PubBak))
  }

  /** Every file after a failure whose roll-back works: as it was, but for what could not be removed. */
  ghost predicate PutBack(before: Disk, d: Disk, oldKey: PublicKey, faults: set<Op>) {
    && KeysUnchanged(before, d) && BackupsPutBack(before, d, faults)
    && (forall fp :: FileAt(d, Archive(fp)) == FileAt(before, Archive(fp)) ||
                     (RemoveArchive in faults && fp == FingerprintOf(oldKey)))
  }

  /**
   Every file after a failure whose roll-back fails as well. If the public key could not be replaced, only the
   private key is new. If the insert failed, the public key is new, the private one too unless it could be put
   back, and the archive is kept.
   */
  ghost predicate LeftTorn(before: Disk, d: Disk, oldKey: PublicKey, newKey: PublicKey, stage: Stage, faults: set<Op>) {
    && BackupsPutBack(before, d, faults)
    && if stage.SwappingPub? then
         && FileAt(d, Priv) == Some(PrivateKey(newKey)) && FileAt(d, Pub) == FileAt(before, Pub)
         && (forall fp :: FileAt(d, Archive(fp)) == FileAt(before, Archive(fp)) ||
                          (RemoveArchive in faults && fp == FingerprintOf(oldKey)))
       else
         && FileAt(d, Pub) == Some(PublicPem(newKey))
         && FileAt(d, Priv) == (if RestorePriv in faults then Some(PrivateKey(newKey)) else FileAt(before, Priv))
         && (forall fp :: FileAt(d, Archive(fp)) ==
                            if fp == FingerprintOf(oldKey) then FileAt(before, Pub) else FileAt(before, Archive(fp)))
  }

  /** What is left when steps 5 to 7 of a rotation are over. */
  ghost predicate SwapOutcome(before: Disk, d: Disk, oldKey: PublicKey, newKey: PublicKey, e: Receipt, faults: set<Op>,
                              failed: Option<Stage>) {
    && (failed.None? ==> d.store == Appended(before.store, e) && RotatedFiles(before, d, oldKey, newKey, faults))
    && (failed.Some? ==>
          d.store == before.store &&
          if RollbackFailed(failed.value, faults) then LeftTorn(before, d, oldKey, newKey, failed.value, faults)
          else PutBack(before, d, oldKey, faults))
    && (failed.Some? && failed.value.Inserting? ==> failed.value.restored == (faults !! {RestorePriv, RestorePub}))
  }

  /** After a failed swap only the archive and perhaps the private key differ; then the archive goes. */
  lemma SwapFailedOutcome(before: Disk, base: Disk, d: Disk, d': Disk, anchored: bool, oldKey: PublicKey,
                          newKey: PublicKey, e: Receipt, faults: set<Op>, stage: Stage)
    requires Prepared(before, base, anchored, oldKey, e) && Archive(FingerprintOf(oldKey)) !in before.files
    requires SwapOk(base, d, newKey) && BackupsPutBack(base, d, faults) && FileAt(d, Pub) == FileAt(base, Pub)
    requires stage.BackingUp? || stage.SwappingPriv? || stage.SwappingPub?
    requires if RollbackFailed(stage, faults) then FileAt(d, Priv) == Some(PrivateKey(newKey))
             else KeysUnchanged(base, d)
    requires d'.files == if RemoveArchive in faults then d.files else d.files - {Archive(FingerprintOf(oldKey))}
    requires d'.store == before.store
    ensures SwapOutcome(before, d', oldKey, newKey, e, faults, Some(stage))
  {
    assert FileAt(d', Priv) == FileAt(d, Priv) && FileAt(d', Pub) == FileAt(d, Pub);
    assert FileAt(d', PrivBak) == FileAt(d, PrivBak) && FileAt(d', PubBak) == FileAt(d, PubBak);
    forall fp ensures FileAt(d', Archive(fp)) == FileAt(before, Archive(fp)) ||
                      (RemoveArchive in faults && fp == FingerprintOf(oldKey))
    {
      assert FileAt(d, Archive(fp)) == FileAt(base, Archive(fp));
    }
  }

  lemma PreparedCanSwap(before: Disk, d: Disk, anchored: bool, oldKey: PublicKey, e: Receipt, faults: set<Op>)
    requires Prepared(before, d, anchored, oldKey, e)
    ensures CanSwap(d, faults) <==> CanSwap(before, faults)
  {
    assert FileAt(d, Priv) == FileAt(before, Priv) && FileAt(d, Pub) == FileAt(before, Pub);
    assert FileAt(d, PrivBak) == FileAt(before, PrivBak) && FileAt(d, PubBak) == FileAt(before, PubBak);
  }

  lemma InsertedIsAnchored(before: Disk, d: Disk, anchored: bool, oldKey: PublicKey, newKey: PublicKey, e: Receipt)
    requires CrashOk(before, d, anchored, oldKey, newKey, e) && d.store == Appended(before.store, e)
    ensures anchored ==> d.anchorLog == before.anchorLog + [e]
  {
    assert |ChainAt(d.store, e.chain)| == |ChainAt(before.store, e.chain)| + 1;
  }

  /** Steps 5 to 7 go through. */
  predicate CanPerform(d: Disk, anchored: bool, oldKey: PublicKey, faults: set<Op>) {
    && (anchored ==> faults !! {OpenAnchor, WriteAnchor, CloseAnchor})
    && Archive(FingerprintOf(oldKey)) !in d.files && faults !! {ReadPub, WriteArchive}
    && CanSwap(d, faults) && InsertReceipt !in faults
  }

  lemma CanRotateIff(d: Disk, c: Config, faults: set<Op>)
    requires HasKey(d)
    ensures CanRotate(d, c, faults) <==>
            && c.complete && !c.reachable && faults !! {ReadPriv, GenerateKey, OpenStore, ReadTail, SignReceipt}
            && CanPerform(d, c.anchored, d.files[Priv].key, faults)
  {
  }

  class Host {
    var files: map<Path, Data>
    var anchorLog: seq<Receipt>
    var store: Store
    ghost var trace: seq<Disk>

    constructor (d: Disk)
      ensures Now() == d && trace == [d]
    {
      files, anchorLog, store := d.files, d.anchorLog, d.store;
      trace := [d];
    }

    function Now(): Disk
      reads this
    {
      Disk(files, anchorLog, store)
    }

    /** Every state the disk went through since position `from`. */
    ghost predicate Through(from: nat, before: Disk, anchored: bool, oldKey: PublicKey, newKey: PublicKey, e: Receipt)
      reads this
    {
      from <= |trace| && (forall i :: from <= i < |trace| ==> CrashOk(before, trace[i], anchored, oldKey, newKey, e)) &&
      CrashOk(before, Now(), anchored, oldKey, newKey, e)
    }

    // ---------- file operations ----------

    /** replaceFile: temporary file and rename. */
    method Replace(p: Path, data: Data, fails: bool) returns (ok: bool)
      modifies this
      ensures ok == !fails && anchorLog == old(anchorLog) && store == old(store)
      ensures files == if ok then old(files)[p := data] else old(files)
      ensures trace == if ok then old(trace) + [Now()] else old(trace)
    {
      ok := !fails;
      if ok {
        files := files[p := data];
        trace := trace + [Now()];
      }
    }

    method Remove(p: Path, fails: bool)
      modifies this
      ensures anchorLog == old(anchorLog) && store == old(store)
      ensures files == if fails then old(files) else old(files) - {p}
      ensures trace == old(trace) + [Now()]
    {
      if !fails {
        files := files - {p};
      }
      trace := trace + [Now()];
    }

    /** writeNewSecretFile: refuses an existing file; a failed write is removed again, best effort. */
    method WriteNew(p: Path, data: Data, fails: bool, removeFails: bool) returns (ok: bool)
      modifies this
      ensures ok == (p !in old(files) && !fails) && anchorLog == old(anchorLog) && store == old(store)
      ensures ok ==> files == old(files)[p := data]
      ensures !ok && (p in old(files) || !removeFails) ==> files == old(files)
      ensures OnlyFile(old(Now()), Now(), p)
      ensures old(trace) <= trace
      ensures forall i :: |old(trace)| <= i < |trace| ==> OnlyFile(old(Now()), trace[i], p)
      ensures p in old(files) ==> files == old(files) && trace == old(trace)
    {
      if p in files {
        return false;
      }
      ghost var was := files;
      files := files[p := Partial];
      trace := trace + [Now()];
      if fails {
        Remove(p, removeFails);
        assert !removeFails ==> files == was;
        return false;
      }
      files := files[p := data];
      trace := trace + [Now()];
      ok := true;
    }

    // ---------- the steps of RotateKey ----------

    /** anchorRotationEvent: a failed close leaves the event in the log and still aborts. */
    method AnchorEvent(anchored: bool, e: Receipt, faults: set<Op>) returns (ok: bool)
      modifies this
      ensures ok == (anchored ==> faults !! {OpenAnchor, WriteAnchor, CloseAnchor})
      ensures files == old(files) && store == old(store)
      ensures anchorLog == old(anchorLog) || (anchored && anchorLog == old(anchorLog) + [e])
      ensures ok && anchored ==> anchorLog == old(anchorLog) + [e]
      ensures old(trace) <= trace && forall i :: |old(trace)| <= i < |trace| ==> trace[i] == Now()
    {
      if !anchored {
        return true;
      }
      if OpenAnchor in faults || WriteAnchor in faults {
        return false;
      }
      anchorLog := anchorLog + [e];
      trace := trace + [Now()];
      ok := CloseAnchor !in faults;
    }

    /** All states since `from` are swap states of `base`. */
    ghost predicate Swapping(from: nat, base: Disk, newKey: PublicKey)
      reads this
    {
      && from <= |trace| && SwapOk(base, Now(), newKey)
      && forall i :: from <= i < |trace| ==> SwapOk(base, trace[i], newKey)
    }

    method RemoveBackup(p: Path, fails: bool, ghost from: nat, ghost base: Disk, ghost newKey: PublicKey)
      requires Swapping(from, base, newKey) && (p.PrivBak? || p.PubBak?)
      modifies this
      ensures Swapping(from, base, newKey) && old(trace) <= trace
      ensures files == if fails then old(files) else old(files) - {p}
    {
      ghost var d := Now();
      Remove(p, fails);
      BackupIsSwapOk(base, d, Now(), p, newKey);
    }

    method RemoveBackups(faults: set<Op>, ghost from: nat, ghost base: Disk, ghost newKey: PublicKey)
      requires Swapping(from, base, newKey)
      modifies this
      ensures Swapping(from, base, newKey) && old(trace) <= trace && KeysUnchanged(old(Now()), Now())
      ensures FileAt(Now(), PrivBak) == if RemovePrivBak in faults then FileAt(old(Now()), PrivBak) else None
      ensures FileAt(Now(), PubBak) == if RemovePubBak in faults then FileAt(old(Now()), PubBak) else None
    {
      RemoveBackup(PrivBak, RemovePrivBak in faults, from, base, newKey);
      RemoveBackup(PubBak, RemovePubBak in faults, from, base, newKey);
    }

    method BackUp(p: Path, data: Data, writeOp: Op, removeOp: Op, faults: set<Op>, ghost from: nat, ghost base: Disk,
                  ghost newKey: PublicKey)
      returns (ok: bool)
      requires Swapping(from, base, newKey) && (p.PrivBak? || p.PubBak?)
      modifies this
      ensures Swapping(from, base, newKey) && KeysUnchanged(old(Now()), Now()) && old(trace) <= trace
      ensures ok == (p !in old(files) && writeOp !in faults)
      ensures ok ==> FileAt(Now(), p) == Some(data)
      ensures !ok ==> removeOp in faults || FileAt(Now(), p) == FileAt(old(Now()), p)
      ensures forall q :: q != p ==> FileAt(Now(), q) == FileAt(old(Now()), q)
    {
      ghost var d, n := Now(), |trace|;
      ok := WriteNew(p, data, writeOp in faults, removeOp in faults);
      forall i | n <= i < |trace| ensures SwapOk(base, trace[i], newKey) {
        BackupIsSwapOk(base, d, trace[i], p, newKey);
      }
      BackupIsSwapOk(base, d, Now(), p, newKey);
    }

    method ReplaceKey(p: Path, data: Data, fails: bool, ghost from: nat, ghost base: Disk, ghost newKey: PublicKey)
      returns (ok: bool)
      requires Swapping(from, base, newKey)
      requires (p == Priv && (Some(data) == FileAt(base, Priv) || data == PrivateKey(newKey))) ||
               (p == Pub && (Some(data) == FileAt(base, Pub) || data == PublicPem(newKey)))
      modifies this
      ensures Swapping(from, base, newKey) && old(trace) <= trace && ok == !fails
      ensures files == if ok then old(files)[p := data] else old(files)
    {
      ok := Replace(p, data, fails);
    }

    /** The two backups; if the second cannot be made the first is removed again. */
    method BackUpBoth(origPriv: Data, origPub: Data, faults: set<Op>, ghost from: nat, ghost base: Disk,
                      ghost newKey: PublicKey)
      returns (ok: bool)
      requires Swapping(from, base, newKey)
      modifies this
      ensures Swapping(from, base, newKey) && KeysUnchanged(old(Now()), Now()) && old(trace) <= trace
      ensures ok == (PrivBak !in old(files) && PubBak !in old(files) && faults !! {WritePrivBak, WritePubBak})
      ensures ok ==> FileAt(Now(), PrivBak) == Some(origPriv) && FileAt(Now(), PubBak) == Some(origPub)
      ensures !ok ==> BackupsPutBack(old(Now()), Now(), faults)
    {
      ok := BackUp(PrivBak, origPriv, WritePrivBak, RemovePrivBak, faults, from, base, newKey);
      if !ok {
        return;
      }
      assert FileAt(Now(), PubBak) == FileAt(old(Now()), PubBak);
      ok := BackUp(PubBak, origPub, WritePubBak, RemovePubBak, faults, from, base, newKey);
      if !ok {
        RemoveBackup(PrivBak, RemovePrivBak in faults, from, base, newKey);
      }
    }

    /** swapKeyFiles; the originals it returns are what its restore closure captures. */
    method SwapKeyFiles(newKey: PublicKey, faults: set<Op>)
      returns (failed: Option<Stage>, origPriv: Data, origPub: Data)
      modifies this
      ensures Swapping(|old(trace)|, old(Now()), newKey) && old(trace) <= trace
      ensures failed.None? <==> CanSwap(old(Now()), faults)
      ensures failed.None? ==>
                KeysAre(Now(), newKey) && FileAt(old(Now()), Priv) == Some(origPriv) &&
                  FileAt(old(Now()), Pub) == Some(origPub)
      ensures failed.Some? ==> failed.value.BackingUp? || failed.value.SwappingPriv? || failed.value.SwappingPub?
      ensures failed.Some? ==> FileAt(Now(), Pub) == FileAt(old(Now()), Pub)
      ensures failed.Some? && !RollbackFailed(failed.value, faults) ==> KeysUnchanged(old(Now()), Now())
      ensures failed.Some? && RollbackFailed(failed.value, faults) ==> FileAt(Now(), Priv) == Some(PrivateKey(newKey))
      ensures failed.Some? ==> BackupsPutBack(old(Now()), Now(), faults)
      ensures failed.None? ==>
                && FileAt(Now(), PrivBak) == (if RemovePrivBak in faults then Some(origPriv) else None)
                && FileAt(Now(), PubBak) == (if RemovePubBak in faults then Some(origPub) else None)
    {
      ghost var base, n := Now(), |trace|;
      origPriv, origPub := Partial, Partial;
      if RereadPriv in faults || Priv !in files || RereadPub in faults || Pub !in files {
        return Some(BackingUp), origPriv, origPub;
      }
      origPriv, origPub := files[Priv], files[Pub];
      var ok := BackUpBoth(origPriv, origPub, faults, n, base, newKey);
      if !ok {
        return Some(BackingUp), origPriv, origPub;
      }
      ok := ReplaceKey(Priv, PrivateKey(newKey), ReplacePriv in faults, n, base, newKey);
      if !ok {
        RemoveBackups(faults, n, base, newKey);
        return Some(SwappingPriv), origPriv, origPub;
      }
      ok := ReplaceKey(Pub, PublicPem(newKey), ReplacePub in faults, n, base, newKey);
      if !ok {
        var rolledBack := ReplaceKey(Priv, origPriv, RollbackPriv in faults, n, base, newKey);
        RemoveBackups(faults, n, base, newKey);
        return Some(SwappingPub), origPriv, origPub;
      }
      RemoveBackups(faults, n, base, newKey);
      failed := None;
    }

    /** The restore closure of swapKeyFiles. */
    method Restore(origPriv: Data, origPub: Data, faults: set<Op>, ghost base: Disk, ghost newKey: PublicKey)
      returns (ok: bool)
      requires SwapOk(base, Now(), newKey) && KeysAre(Now(), newKey)
      requires FileAt(base, Priv) == Some(origPriv) && FileAt(base, Pub) == Some(origPub)
      modifies this
      ensures Swapping(|old(trace)|, base, newKey) && old(trace) <= trace
      ensures ok == (RestorePriv !in faults && RestorePub !in faults)
      ensures ok ==> KeysUnchanged(base, Now())
      ensures !ok ==> FileAt(Now(), Pub) == Some(PublicPem(newKey))
      ensures !ok ==> FileAt(Now(), Priv) == Some(if RestorePriv in faults then PrivateKey(newKey) else origPriv)
      ensures FileAt(Now(), PrivBak) == if ok && RemovePrivBak !in faults then None else FileAt(old(Now()), PrivBak)
      ensures FileAt(Now(), PubBak) == if ok && RemovePubBak !in faults then None else FileAt(old(Now()), PubBak)
    {
      ghost var n := |trace|;
      ok := ReplaceKey(Priv, origPriv, RestorePriv in faults, n, base, newKey);
      if !ok {
        return;
      }
      ok := ReplaceKey(Pub, origPub, RestorePub in faults, n, base, newKey);
      if !ok {
        return;
      }
      RemoveBackups(faults, n, base, newKey);
    }

    /** archiveOldPublicKey: never overwrites an archive. */
    method ArchivePublicKey(oldKey: PublicKey, faults: set<Op>) returns (ok: bool)
      modifies this
      ensures ok == (Pub in old(files) && Archive(FingerprintOf(oldKey)) !in old(files) &&
              faults !! {ReadPub, WriteArchive})
      ensures ok ==> files == old(files)[Archive(FingerprintOf(oldKey)) := old(files)[Pub]]
      ensures !ok && RemoveArchive !in faults ==> files == old(files)
      ensures OnlyFile(old(Now()), Now(), Archive(FingerprintOf(oldKey))) && old(trace) <= trace
      ensures forall i :: |old(trace)| <= i < |trace| ==> OnlyFile(old(Now()), trace[i], Archive(FingerprintOf(oldKey)))
      ensures Archive(FingerprintOf(oldKey)) in old(files) ==> files == old(files) && trace == old(trace)
    {
      if ReadPub in faults || Pub !in files {
        return false;
      }
      ok := WriteNew(Archive(FingerprintOf(oldKey)), files[Pub], WriteArchive in faults, RemoveArchive in faults);
    }

    /** Steps 5 and 6 of RotateKey: anchor the event, then archive the outgoing public key. */
    method Prepare(anchored: bool, oldKey: PublicKey, newKey: PublicKey, e: Receipt, faults: set<Op>)
      returns (failed: Option<Stage>)
      modifies this
      ensures Through(|old(trace)|, old(Now()), anchored, oldKey, newKey, e) && old(trace) <= trace
      ensures failed.None? ==>
                Prepared(old(Now()), Now(), anchored, oldKey, e) && Archive(FingerprintOf(oldKey)) !in old(files)
      ensures KeysUnchanged(old(Now()), Now()) && store == old(store)
      ensures failed.None? <==>
                (anchored ==> faults !! {OpenAnchor, WriteAnchor, CloseAnchor}) && Pub in old(files) &&
                Archive(FingerprintOf(oldKey)) !in old(files) && faults !! {ReadPub, WriteArchive}
      ensures FileAt(Now(), PrivBak) == FileAt(old(Now()), PrivBak) &&
              FileAt(Now(), PubBak) == FileAt(old(Now()), PubBak)
      ensures failed.Some? ==> failed.value.Anchoring? || failed.value.Archiving?
      ensures failed.Some? ==> PutBack(old(Now()), Now(), oldKey, faults)
    {
      ghost var before, n := Now(), |trace|;
      var ok := AnchorEvent(anchored, e, faults);
      if !ok {
        return Some(Anchoring);
      }
      ghost var d, m := Now(), |trace|;
      ok := ArchivePublicKey(oldKey, faults);
      forall i | m <= i < |trace| ensures CrashOk(before, trace[i], anchored, oldKey, newKey, e) {
        ArchivingIsCrashOk(before, d, trace[i], anchored, oldKey, newKey, e);
      }
      ArchivingIsCrashOk(before, d, Now(), anchored, oldKey, newKey, e);
      failed := if ok then None else Some(Archiving);
    }

    /** The swap states recorded since `from` are good crash points. */
    ghost method SwapTrace(from: nat, base: Disk, before: Disk, anchored: bool, oldKey: PublicKey, newKey: PublicKey,
                           e: Receipt)
      requires Swapping(from, base, newKey) && Prepared(before, base, anchored, oldKey, e)
      ensures Through(from, before, anchored, oldKey, newKey, e)
    {
      forall i | from <= i < |trace| ensures CrashOk(before, trace[i], anchored, oldKey, newKey, e) {
        SwapIsCrashOk(before, base, trace[i], anchored, oldKey, newKey, e);
      }
      SwapIsCrashOk(before, base, Now(), anchored, oldKey, newKey, e);
    }

    /** Cleaning up the new archive, when the published key is the old one again. */
    method RemoveArchived(oldKey: PublicKey, ghost newKey: PublicKey, fails: bool, ghost from: nat,
                          ghost before: Disk, ghost anchored: bool, ghost e: Receipt)
      requires Through(from, before, anchored, oldKey, newKey, e) && Archive(FingerprintOf(oldKey)) !in before.files
      requires FileAt(Now(), Pub) == FileAt(before, Pub) && store == before.store
      modifies this
      ensures Through(from, before, anchored, oldKey, newKey, e) && old(trace) <= trace && store == old(store)
      ensures files == if fails then old(files) else old(files) - {Archive(FingerprintOf(oldKey))}
    {
      ghost var d := Now();
      Remove(Archive(FingerprintOf(oldKey)), fails);
      forall fp | Archive(fp) in before.files || fp != FingerprintOf(oldKey)
        ensures FileAt(Now(), Archive(fp)) == FileAt(before, Archive(fp))
      {
        assert FileAt(Now(), Archive(fp)) == FileAt(d, Archive(fp));
      }
    }

    /**
     Step 7 and its failure paths. The key files change and the receipt is inserted, in this order;
     if a step fails everything is put back, as far as the roll-back writes succeed.
     */
    method SwapAndInsert(anchored: bool, oldKey: PublicKey, newKey: PublicKey, e: Receipt, faults: set<Op>,
                         ghost before: Disk)
      returns (failed: Option<Stage>)
      requires Prepared(before, Now(), anchored, oldKey, e) && Archive(FingerprintOf(oldKey)) !in before.files
      modifies this
      ensures Through(|old(trace)|, before, anchored, oldKey, newKey, e) && old(trace) <= trace
      ensures failed.None? <==> CanSwap(old(Now()), faults) && InsertReceipt !in faults
      ensures SwapOutcome(before, Now(), oldKey, newKey, e, faults, failed)
    {
      ghost var base, n := Now(), |trace|;
      var stage, origPriv, origPub := SwapKeyFiles(newKey, faults);
      SwapTrace(n, base, before, anchored, oldKey, newKey, e);
      if stage.Some? {
        ghost var d := Now();
        RemoveArchived(oldKey, newKey, RemoveArchive in faults, n, before, anchored, e);
        SwapFailedOutcome(before, base, d, Now(), anchored, oldKey, newKey, e, faults, stage.value);
        return stage;
      }
      if InsertReceipt in faults {
        failed := UndoSwap(origPriv, origPub, anchored, oldKey, newKey, e, faults, n, base, before);
        return;
      }
      store := Appended(store, e);
      trace := trace + [Now()];
      failed := None;
    }

    /** The insert failed: the originals are put back, and the new archive is removed if that succeeds. */
    method UndoSwap(origPriv: Data, origPub: Data, anchored: bool, oldKey: PublicKey, newKey: PublicKey, e: Receipt,
                    faults: set<Op>, ghost from: nat, ghost base: Disk, ghost before: Disk)
      returns (failed: Option<Stage>)
      requires Prepared(before, base, anchored, oldKey, e) && Archive(FingerprintOf(oldKey)) !in before.files
      requires Swapping(from, base, newKey) && KeysAre(Now(), newKey) && PrivBak !in base.files && PubBak !in base.files
      requires FileAt(base, Priv) == Some(origPriv) && FileAt(base, Pub) == Some(origPub)
      requires BackupsPutBack(base, Now(), faults)
      modifies this
      ensures Through(from, before, anchored, oldKey, newKey, e) && old(trace) <= trace
      ensures failed.Some? && failed.value.Inserting? && SwapOutcome(before, Now(), oldKey, newKey, e, faults, failed)
    {
      ghost var m := |trace|;
      SwapTrace(from, base, before, anchored, oldKey, newKey, e);
      var restored := Restore(origPriv, origPub, faults, base, newKey);
      SwapTrace(m, base, before, anchored, oldKey, newKey, e);
      if restored {
        RemoveArchived(oldKey, newKey, RemoveArchive in faults, from, before, anchored, e);
      }
      failed := Some(Inserting(restored));
    }

    /** Steps 5 to 7 of RotateKey: anchor and archive, then swap and insert. */
    method Perform(anchored: bool, oldKey: PublicKey, newKey: PublicKey, e: Receipt, faults: set<Op>)
      returns (failed: Option<Stage>)
      modifies this
      ensures Through(|old(trace)|, old(Now()), anchored, oldKey, newKey, e) && old(trace) <= trace
      ensures failed.None? <==> CanPerform(old(Now()), anchored, oldKey, faults)
      ensures SwapOutcome(old(Now()), Now(), oldKey, newKey, e, faults, failed)
      ensures failed.None? && anchored ==> anchorLog == old(anchorLog) + [e]
    {
      ghost var before := Now();
      failed := Prepare(anchored, oldKey, newKey, e, faults);
      if failed.Some? {
        return;
      }
      PreparedCanSwap(before, Now(), anchored, oldKey, e, faults);
      failed := SwapAndInsert(anchored, oldKey, newKey, e, faults, before);
      if failed.None? {
        InsertedIsAnchored(before, Now(), anchored, oldKey, newKey, e);
      }
    }

    /**
     RotateKey. Every crash point is ordered as CrashOk says; it succeeds exactly when CanRotate
     says; and on return either keys and chain both carry the new key, or the chain is as before and
     so are the key files, unless a roll-back write failed.
     */
    method RotateKey(c: Config, newKey: PublicKey, id: nat, faults: set<Op>) returns (r: Outcome)
      modifies this
      ensures old(trace) <= trace
      ensures r.Rotated? <==> CanRotate(old(Now()), c, faults)
      ensures HasKey(old(Now())) ==>
                var oldKey := old(files)[Priv].key;
                var e := RotationEvent(old(store), c.chain, oldKey, newKey, id);
                && Through(|old(trace)|, old(Now()), c.anchored, oldKey, newKey, e)
                && (r.Rotated? ==>
                      && r == Rotated(e.sequence, FingerprintOf(oldKey), FingerprintOf(newKey))
                      && HandedOver(old(Now()), Now(), oldKey, newKey, e)
                      && (c.anchored ==> anchorLog == old(anchorLog) + [e]))
      ensures !HasKey(old(Now())) ==> files == old(files) && anchorLog == old(anchorLog) && trace == old(trace)
      ensures r.Failed? ==> store == old(store)
      ensures r.Failed? && !RollbackFailed(r.stage, faults) ==> KeysUnchanged(old(Now()), Now())
      ensures r.Failed? && NeverUsed(old(Now()), newKey) ==>
              (KeysUnchanged(old(Now()), Now()) <==> !RollbackFailed(r.stage, faults))
      ensures r.Failed? && r.stage.Inserting? ==> r.stage.restored == (faults !! {RestorePriv, RestorePub})
      ensures HasKey(old(Now())) ==> RotationOutcome(old(Now()), Now(), c, newKey, id, faults, r)
    {
      if !c.complete {
        return Failed(Usage);
      }
      if c.reachable {
        return Failed(DaemonRunning);
      }
      if ReadPriv in faults || Priv !in files || !files[Priv].PrivateKey? {
        return Failed(LoadKey);
      }
      var oldKey := files[Priv].key;
      if GenerateKey in faults {
        return Failed(NewKey);
      }
      if OpenStore in faults || ReadTail in faults {
        return Failed(ReadHead);
      }
      if SignReceipt in faults {
        return Failed(Signing);
      }
      CanRotateIff(Now(), c, faults);
      var e := RotationEvent(store, c.chain, oldKey, newKey, id);
      var stage := Perform(c.anchored, oldKey, newKey, e, faults);
      if stage.Some? {
        return Failed(stage.value);
      }
      r := Rotated(e.sequence, FingerprintOf(oldKey), FingerprintOf(newKey));
    }
  }

  // ---------- consequences ----------

  /** What stops a rotation, one by one; nothing else does. */
  lemma RefusedIff(d: Disk, c: Config, faults: set<Op>)
    ensures !CanRotate(d, c, faults) <==>
              || !c.complete || c.reachable
              || Pub !in d.files || PrivBak in d.files || PubBak in d.files
              || Priv !in d.files || !d.files[Priv].PrivateKey?
              || Archive(FingerprintOf(d.files[Priv].key)) in d.files
              || ReadPriv in faults || GenerateKey in faults || OpenStore in faults || ReadTail in faults
              || SignReceipt in faults || ReadPub in faults || WriteArchive in faults || RereadPriv in faults
              || RereadPub in faults || WritePrivBak in faults || WritePubBak in faults || ReplacePriv in faults
              || ReplacePub in faults || InsertReceipt in faults
              || (c.anchored && (OpenAnchor in faults || WriteAnchor in faults || CloseAnchor in faults))
  {
    if HasKey(d) {
      CanRotateIff(d, c, faults);
    }
  }

  lemma SameFiles(d: Disk, d': Disk)
    requires forall p :: FileAt(d', p) == FileAt(d, p)
    ensures d'.files == d.files
  {
    forall p ensures p in d'.files <==> p in d.files {
      assert FileAt(d', p) == FileAt(d, p);
    }
    forall p | p in d.files ensures d'.files[p] == d.files[p] {
      assert FileAt(d', p) == FileAt(d, p);
    }
  }

  /** A rotation that can remove what it created leaves exactly the two new key files and one more archive. */
  lemma RotationLeavesNothingElse(d: Disk, d': Disk, c: Config, newKey: PublicKey, id: nat, faults: set<Op>, r: Outcome)
    requires HasKey(d) && RotationOutcome(d, d', c, newKey, id, faults, r) && r.Rotated?
    requires faults !! {RemovePrivBak, RemovePubBak}
    ensures Pub in d.files
    ensures var archive := Archive(FingerprintOf(d.files[Priv].key));
            d'.files == d.files[archive := d.files[Pub]][Priv := PrivateKey(newKey)][Pub := PublicPem(newKey)]
  {
    var archive := Archive(FingerprintOf(d.files[Priv].key));
    var files := d.files[archive := d.files[Pub]][Priv := PrivateKey(newKey)][Pub := PublicPem(newKey)];
    forall p ensures FileAt(d', p) == FileAt(Disk(files, [], d.store), p) {
      match p
      case Archive(fp) => assert FileAt(d', Archive(fp)) == FileAt(Disk(files, [], d.store), Archive(fp));
      case _ =>
    }
    SameFiles(Disk(files, [], d.store), d');
  }

  /** A failure that can put back and remove everything leaves every file as it was, and the next attempt as likely. */
  lemma FailureLeavesFiles(d: Disk, d': Disk, c: Config, newKey: PublicKey, id: nat, faults: set<Op>, r: Outcome)
    requires HasKey(d) && RotationOutcome(d, d', c, newKey, id, faults, r) && r.Failed?
    requires !RollbackFailed(r.stage, faults) && faults !! {RemoveArchive, RemovePrivBak, RemovePubBak}
    ensures d'.files == d.files && d'.store == d.store
    ensures forall c2, faults2 :: CanRotate(d', c2, faults2) <==> CanRotate(d, c2, faults2)
  {
    forall p ensures FileAt(d', p) == FileAt(d, p) {
      match p
      case Archive(fp) => assert FileAt(d', Archive(fp)) == FileAt(d, Archive(fp));
      case _ =>
    }
    SameFiles(d, d');
  }

  /**
   After a rotation the next one goes through exactly if both backups could be removed and the new key has no
   archive yet, given a complete configuration, no daemon and no fault.
   */
  lemma RotatesAgainIff(d: Disk, d': Disk, c: Config, newKey: PublicKey, id: nat, faults: set<Op>, r: Outcome,
                        c2: Config, faults2: set<Op>)
    requires HasKey(d) && RotationOutcome(d, d', c, newKey, id, faults, r) && r.Rotated?
    requires c2.complete && !c2.reachable && faults2 !! Needed(c2.anchored)
    ensures CanRotate(d', c2, faults2) <==>
              faults !! {RemovePrivBak, RemovePubBak} && Archive(FingerprintOf(newKey)) !in d'.files
  {
    assert FileAt(d', PrivBak) == if RemovePrivBak in faults then FileAt(d, Priv) else None;
    assert FileAt(d', PubBak) == if RemovePubBak in faults then FileAt(d, Pub) else None;
    assert FileAt(d', Priv).Some? && FileAt(d', Pub).Some?;
  }

  /**
   The rotation receipt continues the chain, so the chain stays well linked; but RotateKey does not
   look at the terminal flag, so "terminal is last" survives exactly when the tail was not terminal.
   */
  lemma RotationContinuesChain(st: Store, chain: string, oldKey: PublicKey, newKey: PublicKey, id: nat)
    requires Linked(ChainAt(st, chain), chain)
    ensures var c := ChainAt(st, chain);
            var e := RotationEvent(st, chain, oldKey, newKey, id);
            && ChainAt(Appended(st, e), chain) == c + [e] && Linked(c + [e], chain)
            && (TerminalLast(c) ==> (TerminalLast(c + [e]) <==> c == [] || !c[|c| - 1].terminal))
  {
    var c := ChainAt(st, chain);
    var e := RotationEvent(st, chain, oldKey, newKey, id);
    LoadedIsTail(c, chain);
    LinkedAppend(c, chain, e);
    if c != [] {
      assert (c + [e])[|c| - 1] == c[|c| - 1];
    }
  }
}
