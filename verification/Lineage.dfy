/**
 Key lineage: the signature, link and rotation checks of VerifyChain in sdk/go/receipt/chain.go,
 and genesis resolution and the rotation pin of daemon/internal/verifycli/verify.go, against the
 files that daemon/rotate.go leaves.
 */
module Lineage {
  import opened Receipts
  import opened ChainState
  import opened Rotate

  // ---------- VerifyChain ----------

  /** verifyRotationEvent against the active key. */
  predicate RotationOk(active: PublicKey, r: Rotation) {
    r.constantsOk && r.oldFp == FingerprintOf(active) && r.newFp == FingerprintOf(r.newKey)
  }

  /** The incoming key is adopted only from a rotation receipt that verified under the active key. */
  function Adopt(active: PublicKey, r: Receipt): PublicKey {
    if r.kind.KeyRotated? && RotationOk(active, r.kind.rotation) && r.signer == active then r.kind.rotation.newKey
    else active
  }

  /** The active key after traversing a chain. */
  function KeyAfter(c: Chain, genesis: PublicKey): PublicKey {
    if c == [] then genesis else Adopt(KeyAfter(c[..|c| - 1], genesis), c[|c| - 1])
  }

  /** The checks on one receipt: signature, hash link, sequence, rotation event. */
  predicate ReceiptOk(c: Chain, i: nat, active: PublicKey)
    requires i < |c|
  {
    && c[i].signer == active
    && c[i].prev == (if i == 0 then None else Some(HashOf(c[i - 1])))
    && (if i == 0 then c[i].sequence >= 1 else c[i].sequence == c[i - 1].sequence + 1)
    && (c[i].kind.KeyRotated? ==> RotationOk(active, c[i].kind.rotation))
  }

  predicate ReceiptsOk(c: Chain, genesis: PublicKey) {
    forall i :: 0 <= i < |c| ==> ReceiptOk(c, i, KeyAfter(c[..i], genesis))
  }

  predicate OneChain(c: Chain) {
    forall i :: 0 <= i < |c| ==> c[i].chain == c[0].chain
  }

  predicate Valid(c: Chain, genesis: PublicKey) {
    ReceiptsOk(c, genesis) && OneChain(c) && TerminalLast(c)
  }

  /**
   The index VerifyChain reports: the first id mismatch, or else the first bad receipt or receipt after a
   terminal one.
   */
  predicate BreaksAt(c: Chain, genesis: PublicKey, at: nat) {
    at < |c| &&
    if !OneChain(c)
    then c[at].chain != c[0].chain && forall i :: 0 <= i < at ==> c[i].chain == c[0].chain
    else
      && (!ReceiptOk(c, at, KeyAfter(c[..at], genesis)) || (at > 0 && c[at - 1].terminal))
      && (forall i :: 0 <= i < at ==> ReceiptOk(c, i, KeyAfter(c[..i], genesis)))
      && (forall i :: 0 <= i < at - 1 ==> !c[i].terminal)
  }

  ghost predicate FirstBadIs(c: Chain, genesis: PublicKey, n: nat, at: int) {
    && -1 <= at < n <= |c|
    && (forall j :: 0 <= j < n && (at == -1 || j < at) ==> ReceiptOk(c, j, KeyAfter(c[..j], genesis)))
    && (at >= 0 ==> !ReceiptOk(c, at, KeyAfter(c[..at], genesis)))
  }

  /** The main loop: signature, links, sequence, and the traversal of rotations. */
  method CheckReceipts(c: Chain, genesis: PublicKey) returns (brokenAt: int)
    ensures FirstBadIs(c, genesis, |c|, brokenAt)
  {
    var active := genesis;
    brokenAt := -1;
    for i := 0 to |c|
      invariant active == KeyAfter(c[..i], genesis) && FirstBadIs(c, genesis, i, brokenAt)
    {
      var sigValid := c[i].signer == active;
      var hashValid := c[i].prev == (if i == 0 then None else Some(HashOf(c[i - 1])));
      var seqValid := if i == 0 then c[i].sequence >= 1 else c[i].sequence == c[i - 1].sequence + 1;
      if brokenAt == -1 && (!sigValid || !hashValid || !seqValid) {
        brokenAt := i;
      }
      assert c[..i + 1][..i] == c[..i];
      if c[i].kind.KeyRotated? {
        if !RotationOk(active, c[i].kind.rotation) {
          if brokenAt == -1 {
            brokenAt := i;
          }
        } else if sigValid {
          active := c[i].kind.rotation.newKey;
        }
      }
    }
  }

  method FirstForeign(c: Chain) returns (at: int)
    ensures at == -1 <==> OneChain(c)
    ensures at != -1 ==>
            0 <= at < |c| && c[at].chain != c[0].chain && forall i :: 0 <= i < at ==> c[i].chain == c[0].chain
  {
    var i := 1;
    while i < |c|
      invariant 1 <= i && (c != [] ==> i <= |c|)
      invariant forall j :: 0 <= j < i && j < |c| ==> c[j].chain == c[0].chain
    {
      if c[i].chain != c[0].chain {
        return i;
      }
      i := i + 1;
    }
    at := -1;
  }

  method FirstAfterTerminal(c: Chain) returns (at: int)
    ensures at == -1 <==> TerminalLast(c)
    ensures at != -1 ==> 1 <= at < |c| && c[at - 1].terminal && forall i :: 0 <= i < at - 1 ==> !c[i].terminal
  {
    for i := 0 to |c|
      invariant forall j :: 0 <= j < i && j < |c| - 1 ==> !c[j].terminal
    {
      if c[i].terminal && i < |c| - 1 {
        return i + 1;
      }
    }
    at := -1;
  }

  method VerifyChain(c: Chain, genesis: PublicKey) returns (valid: bool, brokenAt: int)
    ensures valid <==> Valid(c, genesis)
    ensures valid <==> brokenAt == -1
    ensures !valid ==> brokenAt >= 0 && BreaksAt(c, genesis, brokenAt)
  {
    brokenAt := CheckReceipts(c, genesis);
    var foreign := FirstForeign(c);
    if foreign != -1 {
      return false, foreign;
    }
    var late := FirstAfterTerminal(c);
    if late != -1 {
      if brokenAt == -1 || late < brokenAt {
        brokenAt := late;
      }
      return false, brokenAt;
    }
    valid := brokenAt == -1;
  }

  /** A chain can only verify from the key that signed its first receipt. */
  lemma ValidFromSigner(c: Chain, genesis: PublicKey)
    requires Valid(c, genesis) && c != []
    ensures c[0].signer == genesis
  {
    assert ReceiptOk(c, 0, KeyAfter(c[..0], genesis));
  }

  // ---------- what a valid chain is, without the traversal ----------

  predicate NoRotation(c: Chain, from: nat, to: nat)
    requires to <= |c|
  {
    forall j :: from <= j < to ==> !c[j].kind.KeyRotated?
  }

  predicate IsLastRotation(c: Chain, i: nat, j: int)
    requires i <= |c|
  {
    0 <= j < i && c[j].kind.KeyRotated? && NoRotation(c, j + 1, i)
  }

  /** The key in force at position `i`: the one the last rotation before it hands over to, or else the genesis key. */
  ghost predicate InForce(c: Chain, i: nat, genesis: PublicKey, key: PublicKey)
    requires i <= |c|
  {
    (NoRotation(c, 0, i) && key == genesis) ||
    exists j :: IsLastRotation(c, i, j) && key == c[j].kind.rotation.newKey
  }

  /** Every receipt is signed with the key in force, and every rotation names its signer and its new key. */
  ghost predicate SignedInTurn(c: Chain, genesis: PublicKey) {
    && (forall i :: 0 <= i < |c| ==> InForce(c, i, genesis, c[i].signer))
    && (forall i :: 0 <= i < |c| && c[i].kind.KeyRotated? ==>
          var r := c[i].kind.rotation;
          r.constantsOk && r.oldFp == FingerprintOf(c[i].signer) && r.newFp == FingerprintOf(r.newKey))
  }

  /** Sequences count up by one and every previous hash is the hash of the predecessor. */
  predicate LinksOk(c: Chain) {
    forall i :: 0 <= i < |c| ==>
      && c[i].sequence == c[0].sequence + i
      && c[i].prev == if i == 0 then None else Some(HashOf(c[i - 1]))
  }

  lemma InForceNext(c: Chain, n: nat, genesis: PublicKey, key: PublicKey)
    requires n < |c| && InForce(c, n, genesis, key)
    ensures InForce(c, n + 1, genesis, if c[n].kind.KeyRotated? then c[n].kind.rotation.newKey else key)
  {
    if c[n].kind.KeyRotated? {
      assert IsLastRotation(c, n + 1, n);
    } else if !NoRotation(c, 0, n) {
      var j :| IsLastRotation(c, n, j) && key == c[j].kind.rotation.newKey;
      assert IsLastRotation(c, n + 1, j);
    }
  }

  lemma InForceIsOne(c: Chain, n: nat, genesis: PublicKey, key: PublicKey, other: PublicKey)
    requires n <= |c| && InForce(c, n, genesis, key) && InForce(c, n, genesis, other)
    ensures key == other
  {
    if !NoRotation(c, 0, n) {
      var j :| IsLastRotation(c, n, j) && key == c[j].kind.rotation.newKey;
      var k :| IsLastRotation(c, n, k) && other == c[k].kind.rotation.newKey;
      assert j == k;
    }
  }

  /** The traversal arrives at the key in force, on a chain that passes its checks and on one that is signed in turn. */
  lemma {:induction false} TraversalInForce(c: Chain, genesis: PublicKey, n: nat)
    requires n <= |c| && (ReceiptsOk(c, genesis) || SignedInTurn(c, genesis))
    ensures InForce(c, n, genesis, KeyAfter(c[..n], genesis))
  {
    if n > 0 {
      var m := n - 1;
      TraversalInForce(c, genesis, m);
      var key := KeyAfter(c[..m], genesis);
      if ReceiptsOk(c, genesis) {
        assert ReceiptOk(c, m, key);
      } else {
        InForceIsOne(c, m, genesis, key, c[m].signer);
      }
      InForceNext(c, m, genesis, key);
      assert c[..n][..m] == c[..m];
      assert KeyAfter(c[..n], genesis) == Adopt(key, c[m]);
    }
  }

  lemma {:induction false} SequencesCount(c: Chain, genesis: PublicKey, i: nat)
    requires ReceiptsOk(c, genesis) && i < |c|
    ensures c[i].sequence == c[0].sequence + i
  {
    assert ReceiptOk(c, i, KeyAfter(c[..i], genesis));
    if i > 0 {
      SequencesCount(c, genesis, i - 1);
    }
  }

  lemma ChecksMean(c: Chain, genesis: PublicKey)
    requires c != [] && ReceiptsOk(c, genesis)
    ensures c[0].sequence >= 1 && LinksOk(c) && SignedInTurn(c, genesis)
  {
    assert ReceiptOk(c, 0, KeyAfter(c[..0], genesis));
    forall i | 0 <= i < |c|
      ensures InForce(c, i, genesis, c[i].signer) && c[i].sequence == c[0].sequence + i
      ensures c[i].prev == if i == 0 then None else Some(HashOf(c[i - 1]))
      ensures c[i].kind.KeyRotated? ==> RotationOk(c[i].signer, c[i].kind.rotation)
    {
      assert ReceiptOk(c, i, KeyAfter(c[..i], genesis));
      TraversalInForce(c, genesis, i);
      SequencesCount(c, genesis, i);
    }
  }

  /** What the checks on the receipts come to: links, sequences, and signatures in turn. */
  lemma ReceiptsOkIff(c: Chain, genesis: PublicKey)
    requires c != []
    ensures ReceiptsOk(c, genesis) <==> c[0].sequence >= 1 && LinksOk(c) && SignedInTurn(c, genesis)
  {
    if ReceiptsOk(c, genesis) {
      ChecksMean(c, genesis);
    }
    if c[0].sequence >= 1 && LinksOk(c) && SignedInTurn(c, genesis) {
      forall i | 0 <= i < |c| ensures ReceiptOk(c, i, KeyAfter(c[..i], genesis)) {
        TraversalInForce(c, genesis, i);
        InForceIsOne(c, i, genesis, KeyAfter(c[..i], genesis), c[i].signer);
        assert i > 0 ==> c[i - 1].sequence == c[0].sequence + (i - 1);
      }
    }
  }

  /** The verdict of VerifyChain on a non-empty chain, told without the traversal. */
  lemma ValidIff(c: Chain, genesis: PublicKey)
    requires c != []
    ensures Valid(c, genesis) <==>
              && c[0].sequence >= 1 && LinksOk(c) && SignedInTurn(c, genesis)
              && (forall i :: 0 <= i < |c| ==> c[i].chain == c[0].chain)
              && (forall i :: 0 <= i < |c| - 1 ==> !c[i].terminal)
  {
    ReceiptsOkIff(c, genesis);
  }

  /** A valid chain that begins at sequence 1 is well linked. */
  lemma ValidIsLinked(c: Chain, genesis: PublicKey)
    requires Valid(c, genesis) && c != [] && c[0].sequence == 1
    ensures Linked(c, c[0].chain)
  {
    ValidIff(c, genesis);
    forall i | 0 <= i < |c| ensures Continues(c[..i], c[0].chain, c[i]) {
      assert c[i].sequence == c[0].sequence + i;
    }
  }

  lemma KeysOfPrefix(c: Chain, genesis: PublicKey, n: nat)
    requires n <= |c|
    ensures ReceiptsOk(c[..n], genesis) <==> forall i :: 0 <= i < n ==> ReceiptOk(c, i, KeyAfter(c[..i], genesis))
  {
    assert forall i :: 0 <= i < n ==> c[..n][..i] == c[..i];
    forall i | 0 <= i < n
      ensures ReceiptOk(c[..n], i, KeyAfter(c[..n][..i], genesis)) <==> ReceiptOk(c, i, KeyAfter(c[..i], genesis))
    {
      assert c[..n][..i] == c[..i];
    }
  }

  /** The index VerifyChain reports on a chain with one id is where the longest valid prefix ends. */
  lemma BreaksAtIff(c: Chain, genesis: PublicKey, at: nat)
    requires OneChain(c) && at < |c|
    ensures BreaksAt(c, genesis, at) <==> Valid(c[..at], genesis) && !Valid(c[..at + 1], genesis)
  {
    KeysOfPrefix(c, genesis, at);
    KeysOfPrefix(c, genesis, at + 1);
    assert forall i :: 0 <= i < at ==> c[..at][i] == c[i] && c[..at + 1][i] == c[i];
  }

  /** A chain that is valid up to a broken link, a gap or a repetition is rejected there, whatever follows. */
  lemma BrokenLinkIsReported(c: Chain, genesis: PublicKey, at: nat)
    requires OneChain(c) && at < |c| && Valid(c[..at], genesis)
    requires c[at].prev != (if at == 0 then None else Some(HashOf(c[at - 1]))) ||
             (at > 0 && c[at].sequence != c[at - 1].sequence + 1)
    ensures !Valid(c, genesis) && forall i: nat :: BreaksAt(c, genesis, i) <==> i == at
  {
    KeysOfPrefix(c, genesis, at);
    assert forall i :: 0 <= i < at ==> c[..at][i] == c[i];
    assert !ReceiptOk(c, at, KeyAfter(c[..at], genesis));
    assert BreaksAt(c, genesis, at);
  }

  // ---------- the current key of a chain ----------

  /** currentChainKeyFingerprint as a function of the chain. */
  function LastRotation(c: Chain): Option<Fingerprint> {
    if c == [] then None
    else if c[|c| - 1].kind.KeyRotated? then Some(c[|c| - 1].kind.rotation.newFp)
    else LastRotation(c[..|c| - 1])
  }

  method CurrentChainKeyFingerprint(c: Chain) returns (fp: Fingerprint, rotated: bool)
    ensures LastRotation(c) == if rotated then Some(fp) else None
  {
    fp, rotated := FingerprintOf(0), false;
    for i := 0 to |c|
      invariant LastRotation(c[..i]) == if rotated then Some(fp) else None
    {
      assert c[..i + 1][..i] == c[..i];
      if c[i].kind.KeyRotated? {
        fp, rotated := c[i].kind.rotation.newFp, true;
      }
    }
    assert c[..|c|] == c;
  }

  lemma ReceiptsOkPrefix(c: Chain, genesis: PublicKey, n: nat)
    requires ReceiptsOk(c, genesis) && n <= |c|
    ensures ReceiptsOk(c[..n], genesis)
  {
    forall i | 0 <= i < n ensures ReceiptOk(c[..n], i, KeyAfter(c[..n][..i], genesis)) {
      assert c[..n][..i] == c[..i];
      assert ReceiptOk(c, i, KeyAfter(c[..i], genesis));
    }
  }

  /** On a valid chain the field the pin reads is the fingerprint of the key the traversal ends at. */
  lemma {:induction false} LastRotationIsKeyAfter(c: Chain, genesis: PublicKey)
    requires ReceiptsOk(c, genesis)
    ensures LastRotation(c).Some? ==> LastRotation(c) == Some(FingerprintOf(KeyAfter(c, genesis)))
    ensures LastRotation(c).None? ==> KeyAfter(c, genesis) == genesis
    decreases |c|
  {
    if c != [] {
      var n := |c| - 1;
      assert ReceiptOk(c, n, KeyAfter(c[..n], genesis));
      ReceiptsOkPrefix(c, genesis, n);
      LastRotationIsKeyAfter(c[..n], genesis);
    }
  }

  // ---------- genesis resolution ----------

  /** A public-key file that was read and parsed. */
  datatype Candidate = Candidate(path: Path, key: PublicKey)

  /** The readable archives among the listed names, in listing order. */
  function Archives(d: Disk, listing: seq<Fingerprint>, unreadable: set<Fingerprint>): seq<Candidate> {
    if listing == [] then []
    else
      var rest := Archives(d, listing[1..], unreadable);
      match FileAt(d, Archive(listing[0]))
      case Some(PublicPem(k)) => if listing[0] in unreadable then rest else [Candidate(Archive(listing[0]), k)] + rest
      case _ => rest
  }

  /** The first candidate that signed the receipt, or `otherwise`. */
  function FirstSigner(candidates: seq<Candidate>, r: Receipt, otherwise: Candidate): Candidate {
    if candidates == [] then otherwise
    else if candidates[0].key == r.signer then candidates[0]
    else FirstSigner(candidates[1..], r, otherwise)
  }

  function Genesis(c: Chain, published: Candidate, archives: seq<Candidate>): Candidate {
    if c == [] then published else FirstSigner([published] + archives, c[0], published)
  }

  method ReadArchives(d: Disk, listing: seq<Fingerprint>, unreadable: set<Fingerprint>)
    returns (archives: seq<Candidate>)
    ensures archives == Archives(d, listing, unreadable)
  {
    archives := [];
    for i := 0 to |listing|
      invariant archives + Archives(d, listing[i..], unreadable) == Archives(d, listing, unreadable)
    {
      assert listing[i..][0] == listing[i] && listing[i..][1..] == listing[i + 1..];
      if listing[i] !in unreadable && Archive(listing[i]) in d.files && d.files[Archive(listing[i])].PublicPem? {
        archives := archives + [Candidate(Archive(listing[i]), d.files[Archive(listing[i])].key)];
      }
    }
  }

  method ResolveGenesisKey(c: Chain, published: Candidate, d: Disk, listing: seq<Fingerprint>,
                           unreadable: set<Fingerprint>)
    returns (g: Candidate)
    ensures g == Genesis(c, published, Archives(d, listing, unreadable))
  {
    if c == [] {
      return published;
    }
    var archives := ReadArchives(d, listing, unreadable);
    var candidates := [published] + archives;
    for i := 0 to |candidates|
      invariant FirstSigner(candidates[i..], c[0], published) == FirstSigner(candidates, c[0], published)
    {
      assert candidates[i..][0] == candidates[i] && candidates[i..][1..] == candidates[i + 1..];
      if candidates[i].key == c[0].signer {
        return candidates[i];
      }
    }
    g := published;
  }

  predicate IsKey(candidates: seq<Candidate>, key: PublicKey) {
    exists i :: 0 <= i < |candidates| && candidates[i].key == key
  }

  lemma {:induction false} FirstSignerFound(candidates: seq<Candidate>, r: Receipt, otherwise: Candidate)
    ensures var g := FirstSigner(candidates, r, otherwise);
            if IsKey(candidates, r.signer) then g in candidates && g.key == r.signer else g == otherwise
  {
    if candidates != [] && candidates[0].key != r.signer {
      FirstSignerFound(candidates[1..], r, otherwise);
      if IsKey(candidates, r.signer) {
        var i :| 0 <= i < |candidates| && candidates[i].key == r.signer;
        assert candidates[1..][i - 1] == candidates[i];
      }
    }
  }

  /** The published key wins, then any archive that signed receipt 1, then the published key again. */
  lemma GenesisIsSigner(c: Chain, published: Candidate, archives: seq<Candidate>)
    requires c != []
    ensures var g := Genesis(c, published, archives);
            if c[0].signer == published.key then g == published
            else if IsKey(archives, c[0].signer) then g in archives && g.key == c[0].signer
            else g == published
  {
    var all := [published] + archives;
    if c[0].signer != published.key {
      assert all[1..] == archives;
      FirstSignerFound(archives, c[0], published);
    }
  }

  lemma {:induction false} ArchivesAreArchived(d: Disk, listing: seq<Fingerprint>, unreadable: set<Fingerprint>,
                                               x: Candidate)
    ensures x in Archives(d, listing, unreadable) ==>
              x.path.Archive? && x.path.fp in listing && FileAt(d, x.path) == Some(PublicPem(x.key))
    ensures x.path.Archive? && x.path.fp in listing && x.path.fp !in unreadable &&
            FileAt(d, x.path) == Some(PublicPem(x.key)) ==>
              x in Archives(d, listing, unreadable)
    decreases |listing|
  {
    if listing != [] {
      assert listing == [listing[0]] + listing[1..];
      ArchivesAreArchived(d, listing[1..], unreadable, x);
    }
  }

  // ---------- the verdict ----------

  datatype Verdict = Accepted | Broken | UsageError

  /** The verdict of `Run` on chain and keys, without the anchor check. */
  method Verify(d: Disk, chain: string, listing: seq<Fingerprint>, unreadable: set<Fingerprint>) returns (v: Verdict)
    ensures v.UsageError? <==> !(Pub in d.files && d.files[Pub].PublicPem?)
    ensures Pub in d.files && d.files[Pub].PublicPem? ==>
              (v.Accepted? <==> Accepts(ChainAt(d.store, chain), d.files[Pub].key, Archives(d, listing, unreadable)))
  {
    if Pub !in d.files || !d.files[Pub].PublicPem? {
      return UsageError;
    }
    var c, published := ChainAt(d.store, chain), Candidate(Pub, d.files[Pub].key);
    var g := ResolveGenesisKey(c, published, d, listing, unreadable);
    ArchivesAreArchived(d, listing, unreadable, g);
    if c != [] {
      GenesisIsSigner(c, published, Archives(d, listing, unreadable));
    }
    var valid, brokenAt := VerifyChain(c, g.key);
    if !valid {
      return Broken;
    }
    if c != [] {
      ValidFromSigner(c, g.key);
    }
    if g.path != Pub {
      var fp, rotated := CurrentChainKeyFingerprint(c);
      LastRotationIsKeyAfter(c, g.key);
      if !rotated || fp != FingerprintOf(published.key) {
        return Broken;
      }
    }
    v := Accepted;
  }

  /**
   What acceptance means, without naming the search: the chain is empty, or it verifies from the key
   that signed its first receipt, and that key is the published one, or an archived one from which
   rotations lead to the published key.
   */
  predicate Accepts(c: Chain, published: PublicKey, archives: seq<Candidate>) {
    c == [] ||
    (Valid(c, c[0].signer) &&
     (c[0].signer == published || (IsKey(archives, c[0].signer) && KeyAfter(c, c[0].signer) == published)))
  }

  /** Two accepted chains of one id that begin at sequence 1 and agree on the head hash are the same chain. */
  lemma AcceptedHeadCommits(c: Chain, published: PublicKey, archives: seq<Candidate>,
                            d: Chain, otherPublished: PublicKey, otherArchives: seq<Candidate>)
    requires Accepts(c, published, archives) && Accepts(d, otherPublished, otherArchives) && c != [] && d != []
    requires c[0].sequence == 1 && d[0].sequence == 1 && c[0].chain == d[0].chain
    requires TailHash(c) == TailHash(d)
    ensures c == d
  {
    ValidIsLinked(c, c[0].signer);
    ValidIsLinked(d, d[0].signer);
    HeadCommits(c, d, c[0].chain);
  }

  // ---------- histories ----------

  predicate TailOpen(c: Chain) {
    c == [] || !c[|c| - 1].terminal
  }

  /** The signing key is the one the chain has handed over to, and its genesis key is published or archived. */
  ghost predicate LineageOk(d: Disk, chain: string) {
    var c := ChainAt(d.store, chain);
    && HasKey(d) && KeysAre(d, d.files[Priv].key)
    && Linked(c, chain) && TerminalLast(c)
    && (c != [] ==>
          var genesis := c[0].signer;
          ReceiptsOk(c, genesis) && KeyAfter(c, genesis) == d.files[Priv].key &&
          (genesis == d.files[Priv].key || Archived(d, genesis)))
  }

  ghost predicate Archived(d: Disk, key: PublicKey) {
    exists fp :: FileAt(d, Archive(fp)) == Some(PublicPem(key))
  }

  ghost predicate ArchivesKept(d: Disk, d': Disk) {
    forall fp :: Archive(fp) in d.files ==> FileAt(d', Archive(fp)) == FileAt(d, Archive(fp))
  }

  /** The daemon appends a receipt, signed with the key on disk. */
  ghost predicate DaemonAppends(d: Disk, d': Disk, chain: string, r: Receipt) {
    && d'.files == d.files && HasKey(d)
    && d'.store == Appended(d.store, r) && Continues(ChainAt(d.store, chain), chain, r)
    && r.signer == d.files[Priv].key && !r.kind.KeyRotated?
  }

  /** What RotateKey guarantees when it succeeds. */
  ghost predicate Rotates(d: Disk, d': Disk, chain: string, newKey: PublicKey, id: nat) {
    && HasKey(d) && Archive(FingerprintOf(d.files[Priv].key)) !in d.files
    && HandedOver(d, d', d.files[Priv].key, newKey, RotationEvent(d.store, chain, d.files[Priv].key, newKey, id))
    && ArchivesKept(d, d')
  }

  /** What it guarantees when it fails and puts the files back. */
  ghost predicate FailsAtomically(d: Disk, d': Disk) {
    KeysUnchanged(d, d') && d'.store == d.store && ArchivesKept(d, d')
  }

  datatype Event = Append(r: Receipt) | Rotation(newKey: PublicKey, id: nat) | FailedRotation

  /** One event on a chain whose tail is not terminal. */
  ghost predicate Happens(d: Disk, e: Event, d': Disk, chain: string) {
    TailOpen(ChainAt(d.store, chain)) &&
    match e
    case Append(r) => DaemonAppends(d, d', chain, r)
    case Rotation(newKey, id) => Rotates(d, d', chain, newKey, id)
    case FailedRotation => FailsAtomically(d, d')
  }

  /**
   Success is a rotation event, a failure with a working roll-back is a failed-rotation event, and with a
   new key that is really new those are the only failures that are.
   */
  lemma RotateKeyIsAnEvent(d: Disk, d': Disk, c: Config, newKey: PublicKey, id: nat, faults: set<Op>, r: Outcome)
    requires HasKey(d) && RotationOutcome(d, d', c, newKey, id, faults, r)
    ensures r.Rotated? ==> Rotates(d, d', c.chain, newKey, id)
    ensures r.Failed? && !RollbackFailed(r.stage, faults) ==> FailsAtomically(d, d')
    ensures r.Failed? && NeverUsed(d, newKey) ==> (FailsAtomically(d, d') <==> !RollbackFailed(r.stage, faults))
  {
    forall fp | Archive(fp) in d.files ensures FileAt(d', Archive(fp)) == FileAt(d, Archive(fp)) {
    }
  }

  /** `disks` are the states between the events. */
  ghost predicate History(disks: seq<Disk>, events: seq<Event>, chain: string) {
    |disks| == |events| + 1 && forall i :: 0 <= i < |events| ==> Happens(disks[i], events[i], disks[i + 1], chain)
  }

  lemma ReceiptsOkAppend(c: Chain, genesis: PublicKey, r: Receipt)
    requires ReceiptsOk(c, genesis) && ReceiptOk(c + [r], |c|, KeyAfter(c, genesis))
    ensures ReceiptsOk(c + [r], genesis) && KeyAfter(c + [r], genesis) == Adopt(KeyAfter(c, genesis), r)
  {
    var c' := c + [r];
    assert c'[..|c|] == c;
    forall i | 0 <= i < |c'| ensures ReceiptOk(c', i, KeyAfter(c'[..i], genesis)) {
      if i < |c| {
        assert c'[..i] == c[..i];
        assert ReceiptOk(c, i, KeyAfter(c[..i], genesis));
      }
    }
  }

  /** A receipt that continues the chain and is signed with its current key passes the checks on one receipt. */
  lemma ContinuationOk(c: Chain, chain: string, r: Receipt, active: PublicKey)
    requires Linked(c, chain) && Continues(c, chain, r) && r.signer == active
    requires r.kind.KeyRotated? ==> RotationOk(active, r.kind.rotation)
    ensures ReceiptOk(c + [r], |c|, active)
  {
    if c != [] {
      LinkedAt(c, chain, |c| - 1);
      assert (c + [r])[|c| - 1] == c[|c| - 1];
    }
  }

  lemma TerminalLastAppend(c: Chain, r: Receipt)
    requires TerminalLast(c) && TailOpen(c)
    ensures TerminalLast(c + [r])
  {
  }

  lemma AppendKeepsChainFacts(c: Chain, chain: string, r: Receipt, genesis: PublicKey)
    requires Linked(c, chain) && TerminalLast(c) && TailOpen(c) && Continues(c, chain, r)
    requires ReceiptsOk(c, genesis) && r.signer == KeyAfter(c, genesis)
    requires r.kind.KeyRotated? ==> RotationOk(r.signer, r.kind.rotation)
    ensures Linked(c + [r], chain) && TerminalLast(c + [r]) && ReceiptsOk(c + [r], genesis)
    ensures KeyAfter(c + [r], genesis) == if r.kind.KeyRotated? then r.kind.rotation.newKey else r.signer
  {
    LinkedAppend(c, chain, r);
    ContinuationOk(c, chain, r, r.signer);
    TerminalLastAppend(c, r);
    assert ReceiptOk(c + [r], |c|, KeyAfter(c, genesis));
    ReceiptsOkAppend(c, genesis, r);
    assert KeyAfter(c + [r], genesis) == Adopt(r.signer, r);
  }

  lemma EventKeepsLineage(d: Disk, e: Event, d': Disk, chain: string)
    requires LineageOk(d, chain) && Happens(d, e, d', chain)
    ensures LineageOk(d', chain)
  {
    var c, key := ChainAt(d.store, chain), d.files[Priv].key;
    var genesis := if c == [] then key else c[0].signer;
    match e
    case Append(r) =>
      AppendKeepsChainFacts(c, chain, r, genesis);
      assert ChainAt(d'.store, chain) == c + [r];
    case Rotation(newKey, id) =>
      var r := RotationEvent(d.store, chain, key, newKey, id);
      LoadedIsTail(c, chain);
      AppendKeepsChainFacts(c, chain, r, genesis);
      assert ChainAt(d'.store, chain) == c + [r];
      assert FileAt(d', Archive(FingerprintOf(key))) == Some(PublicPem(key));
      ArchivedStays(d, d', genesis);
    case FailedRotation =>
      ArchivedStays(d, d', genesis);
  }

  lemma ArchivedStays(d: Disk, d': Disk, key: PublicKey)
    requires ArchivesKept(d, d')
    ensures Archived(d, key) ==> Archived(d', key)
  {
    if Archived(d, key) {
      var fp :| FileAt(d, Archive(fp)) == Some(PublicPem(key));
      assert FileAt(d', Archive(fp)) == FileAt(d, Archive(fp));
    }
  }

  lemma {:induction false} HistoryKeepsLineage(disks: seq<Disk>, events: seq<Event>, chain: string, n: nat)
    requires History(disks, events, chain) && LineageOk(disks[0], chain) && n <= |events|
    ensures LineageOk(disks[n], chain)
  {
    if n > 0 {
      HistoryKeepsLineage(disks, events, chain, n - 1);
      assert Happens(disks[n - 1], events[n - 1], disks[n], chain);
      EventKeepsLineage(disks[n - 1], events[n - 1], disks[n], chain);
    }
  }

  lemma LinkedIsOneChain(c: Chain, chain: string)
    requires Linked(c, chain)
    ensures OneChain(c)
  {
    forall i | 0 <= i < |c| ensures c[i].chain == chain {
      LinkedAt(c, chain, i);
    }
  }

  /** A listing that shows every archive, all of them readable. */
  ghost predicate ShowsAll(d: Disk, listing: seq<Fingerprint>) {
    forall fp :: Archive(fp) in d.files ==> fp in listing
  }

  lemma LineageAccepts(d: Disk, chain: string, listing: seq<Fingerprint>)
    requires LineageOk(d, chain) && ShowsAll(d, listing)
    ensures Accepts(ChainAt(d.store, chain), d.files[Pub].key, Archives(d, listing, {}))
  {
    var c, key := ChainAt(d.store, chain), d.files[Priv].key;
    LinkedIsOneChain(c, chain);
    if c != [] && c[0].signer != key {
      var fp :| FileAt(d, Archive(fp)) == Some(PublicPem(c[0].signer));
      var x := Candidate(Archive(fp), c[0].signer);
      ArchivesAreArchived(d, listing, {}, x);
      assert IsKey(Archives(d, listing, {}), c[0].signer) by {
        var i :| 0 <= i < |Archives(d, listing, {})| && Archives(d, listing, {})[i] == x;
      }
    }
  }

  /**
   After any number of appends, completed rotations and cleanly failed ones on one chain whose tail
   stays open, starting from an empty chain, the verifier accepts at every point of the history, and
   the key it starts from is the one that signed receipt 1.
   */
  lemma HistoriesVerify(disks: seq<Disk>, events: seq<Event>, chain: string, listing: seq<Fingerprint>, n: nat)
    requires History(disks, events, chain) && n <= |events|
    requires HasKey(disks[0]) && KeysAre(disks[0], disks[0].files[Priv].key) && ChainAt(disks[0].store, chain) == []
    requires ShowsAll(disks[n], listing)
    ensures var c := ChainAt(disks[n].store, chain);
            var archives := Archives(disks[n], listing, {});
            && HasKey(disks[n]) && KeysAre(disks[n], disks[n].files[Priv].key)
            && Accepts(c, disks[n].files[Pub].key, archives)
            && (c != [] ==> Genesis(c, Candidate(Pub, disks[n].files[Pub].key), archives).key == c[0].signer)
            && (c != [] ==> KeyAfter(c, c[0].signer) == disks[n].files[Pub].key)
  {
    HistoryKeepsLineage(disks, events, chain, n);
    LineageAccepts(disks[n], chain, listing);
    var c := ChainAt(disks[n].store, chain);
    if c != [] {
      GenesisIsSigner(c, Candidate(Pub, disks[n].files[Pub].key), Archives(disks[n], listing, {}));
    }
  }

  /** Conversely, acceptance through an archive means the last rotation installs the published key. */
  lemma ArchiveAcceptanceIsPinned(c: Chain, published: PublicKey, archives: seq<Candidate>)
    requires c != [] && Accepts(c, published, archives) &&
             Genesis(c, Candidate(Pub, published), archives).key != published
    ensures LastRotation(c) == Some(FingerprintOf(published))
    ensures Valid(c, Genesis(c, Candidate(Pub, published), archives).key)
  {
    GenesisIsSigner(c, Candidate(Pub, published), archives);
    LastRotationIsKeyAfter(c, c[0].signer);
  }

  /**
   A crash inside a rotation, on a lineage that verified before. The verifier still accepts exactly
   when the receipt made it into the chain, or the published key had not been replaced yet, or there
   was nothing in the chain to verify.
   */
  lemma CrashVerdict(before: Disk, d: Disk, anchored: bool, chain: string, newKey: PublicKey, id: nat,
                     listing: seq<Fingerprint>)
    requires LineageOk(before, chain) && TailOpen(ChainAt(before.store, chain))
    requires var oldKey := before.files[Priv].key;
             && CrashOk(before, d, anchored, oldKey, newKey, RotationEvent(before.store, chain, oldKey, newKey, id))
             && newKey != oldKey && Archive(FingerprintOf(oldKey)) !in before.files
    requires ChainAt(before.store, chain) != [] ==> ChainAt(before.store, chain)[0].signer != newKey
    requires ShowsAll(d, listing)
    ensures Pub in d.files && d.files[Pub].PublicPem?
    ensures Accepts(ChainAt(d.store, chain), d.files[Pub].key, Archives(d, listing, {})) <==>
              d.store != before.store || FileAt(d, Pub) == FileAt(before, Pub) || ChainAt(before.store, chain) == []
  {
    var c, oldKey := ChainAt(before.store, chain), before.files[Priv].key;
    assert Pub in d.files by {
      assert FileAt(d, Pub).Some?;
    }
    assert ArchivesKept(before, d);
    if d.store != before.store {
      assert Rotates(before, d, chain, newKey, id);
      EventKeepsLineage(before, Event.Rotation(newKey, id), d, chain);
      LineageAccepts(d, chain, listing);
    } else if FileAt(d, Pub) == FileAt(before, Pub) {
      var asBefore := d.(files := d.files[Priv := PrivateKey(oldKey)]);
      assert FailsAtomically(before, asBefore) by {
        forall fp | Archive(fp) in before.files ensures FileAt(asBefore, Archive(fp)) == FileAt(before, Archive(fp)) {
          assert FileAt(d, Archive(fp)) == FileAt(before, Archive(fp));
        }
      }
      EventKeepsLineage(before, FailedRotation, asBefore, chain);
      LineageAccepts(asBefore, chain, listing);
      SameArchives(d, asBefore, listing, {});
    }
  }

  lemma {:induction false} SameArchives(d: Disk, d': Disk, listing: seq<Fingerprint>, unreadable: set<Fingerprint>)
    requires forall fp :: FileAt(d, Archive(fp)) == FileAt(d', Archive(fp))
    ensures Archives(d, listing, unreadable) == Archives(d', listing, unreadable)
    decreases |listing|
  {
    if listing != [] {
      SameArchives(d, d', listing[1..], unreadable);
    }
  }
}
