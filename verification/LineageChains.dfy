/**
 Key rotation with several chains in one store: RotateKey records the hand-over on one chain only, but
 the daemon signs all of them with the new key, and the verifier checks each against the published one.
 */
module LineageChains {
  import opened Receipts
  import opened ChainState
  import opened Rotate
  import opened Lineage

  datatype ChainEvent = On(chain: string, event: Event)

  ghost predicate Publishes(d: Disk, key: PublicKey) {
    FileAt(d, Pub) == Some(PublicPem(key))
  }

  /** The key was the published one at some moment up to `n`. */
  ghost predicate Published(disks: seq<Disk>, n: nat, key: PublicKey) {
    exists i :: 0 <= i <= n && i < |disks| && Publishes(disks[i], key)
  }

  /** Events on any chains, in any order; every rotation installs a key that was not published before. */
  ghost predicate ChainsHistory(disks: seq<Disk>, events: seq<ChainEvent>) {
    && |disks| == |events| + 1
    && (forall i :: 0 <= i < |events| ==> Happens(disks[i], events[i].event, disks[i + 1], events[i].chain))
    && (forall i :: 0 <= i < |events| && events[i].event.Rotation? ==> !Published(disks, i, events[i].event.newKey))
  }

  /** The disk before the first receipt of any chain. */
  ghost predicate Fresh(d: Disk) {
    HasKey(d) && KeysAre(d, d.files[Priv].key) && forall k :: ChainAt(d.store, k) == []
  }

  /** The event rotates the key on another chain although `k` has receipts already. */
  ghost predicate PassesOver(d: Disk, e: ChainEvent, k: string) {
    e.event.Rotation? && e.chain != k && ChainAt(d.store, k) != []
  }

  ghost predicate LeftBehind(disks: seq<Disk>, events: seq<ChainEvent>, k: string, n: nat) {
    exists i :: 0 <= i < n && i < |events| && i < |disks| && PassesOver(disks[i], events[i], k)
  }

  /** The chain does not lead to the published key, from wherever one starts. */
  ghost predicate Lost(d: Disk, k: string) {
    var c := ChainAt(d.store, k);
    && HasKey(d) && KeysAre(d, d.files[Priv].key)
    && c != [] && !Publishes(d, c[0].signer)
    && (ReceiptsOk(c, c[0].signer) ==> !Publishes(d, KeyAfter(c, c[0].signer)))
  }

  /** The keys that the chain names were published once. */
  ghost predicate KeysKnown(disks: seq<Disk>, n: nat, k: string)
    requires n < |disks|
  {
    var c := ChainAt(disks[n].store, k);
    c != [] ==> Published(disks, n, c[0].signer) && Published(disks, n, KeyAfter(c, c[0].signer))
  }

  lemma KeyAfterAppend(c: Chain, r: Receipt, genesis: PublicKey)
    ensures KeyAfter(c + [r], genesis) == Adopt(KeyAfter(c, genesis), r)
  {
    assert (c + [r])[..|c|] == c;
  }

  /** What an event appends to its own chain, signed with the key on disk, and leaves of the others. */
  function AppendedBy(d: Disk, e: ChainEvent): Option<Receipt>
    requires HasKey(d)
  {
    match e.event
    case Append(r) => Some(r)
    case Rotation(newKey, id) => Some(RotationEvent(d.store, e.chain, d.files[Priv].key, newKey, id))
    case FailedRotation => None
  }

  function KeyAfterEvent(d: Disk, e: ChainEvent): PublicKey
    requires HasKey(d)
  {
    if e.event.Rotation? then e.event.newKey else d.files[Priv].key
  }

  lemma EventEffect(d: Disk, e: ChainEvent, d': Disk, k: string)
    requires HasKey(d) && KeysAre(d, d.files[Priv].key) && Happens(d, e.event, d', e.chain)
    ensures HasKey(d') && KeysAre(d', KeyAfterEvent(d, e))
    ensures var r := AppendedBy(d, e);
            && ChainAt(d'.store, k) == (if r.Some? && k == e.chain then ChainAt(d.store, k) + [r.value]
                                        else ChainAt(d.store, k))
            && (r.Some? ==> r.value.signer == d.files[Priv].key)
            && (r.Some? && r.value.kind.KeyRotated? ==> r.value.kind.rotation.newKey == KeyAfterEvent(d, e))
  {
  }

  lemma KnownGrows(disks: seq<Disk>, n: nat, key: PublicKey)
    requires Published(disks, n, key)
    ensures Published(disks, n + 1, key)
  {
    var i :| 0 <= i <= n && i < |disks| && Publishes(disks[i], key);
    assert i <= n + 1;
  }

  /** An event brings no key into a chain but the one on disk before it and the one after it. */
  lemma KeysOfAppended(c: Chain, r: Receipt)
    ensures var c' := c + [r];
            && c'[0].signer == (if c == [] then r.signer else c[0].signer)
            && var before := if c == [] then r.signer else KeyAfter(c, c[0].signer);
               KeyAfter(c', c'[0].signer) == before ||
                 (r.kind.KeyRotated? && KeyAfter(c', c'[0].signer) == r.kind.rotation.newKey)
  {
    KeyAfterAppend(c, r, (c + [r])[0].signer);
  }

  lemma EventKeepsKnown(disks: seq<Disk>, events: seq<ChainEvent>, k: string, n: nat)
    requires ChainsHistory(disks, events) && n < |events| && KeysKnown(disks, n, k)
    requires HasKey(disks[n]) && KeysAre(disks[n], disks[n].files[Priv].key)
    ensures KeysKnown(disks, n + 1, k)
  {
    assert Happens(disks[n], events[n].event, disks[n + 1], events[n].chain);
    EventEffect(disks[n], events[n], disks[n + 1], k);
    var c, key, r := ChainAt(disks[n].store, k), disks[n].files[Priv].key, AppendedBy(disks[n], events[n]);
    assert Publishes(disks[n], key) && Publishes(disks[n + 1], KeyAfterEvent(disks[n], events[n]));
    KnownSoFar(disks, n, key);
    KnownSoFar(disks, n + 1, KeyAfterEvent(disks[n], events[n]));
    if c != [] {
      KnownGrows(disks, n, c[0].signer);
      KnownGrows(disks, n, KeyAfter(c, c[0].signer));
    }
    if r.Some? && k == events[n].chain {
      KeysOfAppended(c, r.value);
    }
  }

  lemma KnownSoFar(disks: seq<Disk>, n: nat, key: PublicKey)
    requires n < |disks| && Publishes(disks[n], key)
    ensures Published(disks, n, key) && Published(disks, n + 1, key)
  {
    assert n <= n + 1;
  }

  /** A chain that the rotation passes over is lost: its keys were published before the new one. */
  lemma PassedOverIsLost(disks: seq<Disk>, events: seq<ChainEvent>, k: string, n: nat)
    requires ChainsHistory(disks, events) && n < |events| && KeysKnown(disks, n, k)
    requires HasKey(disks[n]) && KeysAre(disks[n], disks[n].files[Priv].key) && PassesOver(disks[n], events[n], k)
    ensures Lost(disks[n + 1], k)
  {
    assert Happens(disks[n], events[n].event, disks[n + 1], events[n].chain);
    EventEffect(disks[n], events[n], disks[n + 1], k);
  }

  lemma BrokenStaysBroken(c: Chain, r: Receipt, genesis: PublicKey)
    ensures ReceiptsOk(c + [r], genesis) ==> ReceiptsOk(c, genesis)
  {
    assert (c + [r])[..|c|] == c;
    if ReceiptsOk(c + [r], genesis) {
      ReceiptsOkPrefix(c + [r], genesis, |c|);
    }
  }

  lemma WrongSignerBreaks(c: Chain, r: Receipt, genesis: PublicKey)
    requires r.signer != KeyAfter(c, genesis)
    ensures !ReceiptsOk(c + [r], genesis)
  {
    assert (c + [r])[..|c|] == c;
    assert !ReceiptOk(c + [r], |c|, KeyAfter((c + [r])[..|c|], genesis));
  }

  /** And nothing that happens later brings it back. */
  lemma LostStaysLost(disks: seq<Disk>, events: seq<ChainEvent>, k: string, n: nat)
    requires ChainsHistory(disks, events) && n < |events| && KeysKnown(disks, n, k) && Lost(disks[n], k)
    ensures Lost(disks[n + 1], k)
  {
    var d, d', e := disks[n], disks[n + 1], events[n];
    assert Happens(d, e.event, d', e.chain);
    EventEffect(d, e, d', k);
    var c, r := ChainAt(d.store, k), AppendedBy(d, e);
    if r.Some? && k == e.chain {
      if ReceiptsOk(c, c[0].signer) {
        WrongSignerBreaks(c, r.value, c[0].signer);
      } else {
        BrokenStaysBroken(c, r.value, c[0].signer);
      }
    }
  }

  /** A chain with a good lineage keeps it through every event that does not pass over it. */
  lemma LineageGoesOn(d: Disk, e: ChainEvent, d': Disk, k: string)
    requires LineageOk(d, k) && Happens(d, e.event, d', e.chain) && !PassesOver(d, e, k)
    ensures LineageOk(d', k)
  {
    if e.chain == k {
      EventKeepsLineage(d, e.event, d', k);
    } else {
      EventEffect(d, e, d', k);
      if ChainAt(d.store, k) != [] {
        assert ArchivesKept(d, d');
        ArchivedStays(d, d', ChainAt(d.store, k)[0].signer);
      }
    }
  }

  ghost predicate State(disks: seq<Disk>, events: seq<ChainEvent>, k: string, n: nat)
    requires n < |disks|
  {
    && HasKey(disks[n]) && KeysAre(disks[n], disks[n].files[Priv].key) && KeysKnown(disks, n, k)
    && if LeftBehind(disks, events, k, n) then Lost(disks[n], k) else LineageOk(disks[n], k)
  }

  lemma LeftBehindNext(disks: seq<Disk>, events: seq<ChainEvent>, k: string, n: nat)
    requires |disks| == |events| + 1 && n < |events|
    ensures LeftBehind(disks, events, k, n + 1) <==>
            LeftBehind(disks, events, k, n) || PassesOver(disks[n], events[n], k)
  {
    if LeftBehind(disks, events, k, n) {
      var i :| 0 <= i < n && i < |events| && i < |disks| && PassesOver(disks[i], events[i], k);
      assert i < n + 1;
    }
  }

  lemma {:induction false} HistoryKeepsState(disks: seq<Disk>, events: seq<ChainEvent>, k: string, n: nat)
    requires ChainsHistory(disks, events) && Fresh(disks[0]) && n <= |events|
    ensures State(disks, events, k, n)
  {
    if n > 0 {
      var m := n - 1;
      HistoryKeepsState(disks, events, k, m);
      assert Happens(disks[m], events[m].event, disks[n], events[m].chain);
      EventEffect(disks[m], events[m], disks[n], k);
      EventKeepsKnown(disks, events, k, m);
      LeftBehindNext(disks, events, k, m);
      if LeftBehind(disks, events, k, m) {
        LostStaysLost(disks, events, k, m);
      } else if PassesOver(disks[m], events[m], k) {
        PassedOverIsLost(disks, events, k, m);
      } else {
        LineageGoesOn(disks[m], events[m], disks[n], k);
      }
    }
  }

  /**
   With any number of chains in the store, at any point of any history: the verifier accepts a chain
   exactly if no rotation was recorded on another chain since this one got its first receipt.
   */
  lemma AcceptedIffNotLeftBehind(disks: seq<Disk>, events: seq<ChainEvent>, k: string, n: nat,
                                 listing: seq<Fingerprint>)
    requires ChainsHistory(disks, events) && Fresh(disks[0]) && n <= |events| && ShowsAll(disks[n], listing)
    ensures Pub in disks[n].files && disks[n].files[Pub].PublicPem?
    ensures Accepts(ChainAt(disks[n].store, k), disks[n].files[Pub].key, Archives(disks[n], listing, {})) <==>
              !LeftBehind(disks, events, k, n)
  {
    HistoryKeepsState(disks, events, k, n);
    if !LeftBehind(disks, events, k, n) {
      LineageAccepts(disks[n], k, listing);
    }
  }
}
