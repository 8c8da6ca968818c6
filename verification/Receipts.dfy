/**
 The vocabulary every other module shares: receipts, symbolic hashes, keys and
 fingerprints, and what it means for a stored chain to be well linked.

 Hashing is ideal: the hash of a receipt is a term that wraps the receipt, so two
 receipts with equal hashes are equal and no receipt can contain its own hash.
 Signing is ideal: a receipt names the key that signed it.
 */
module Receipts {

  datatype Option<+T> = None | Some(value: T)

  type PublicKey = nat

  datatype Fingerprint = FingerprintOf(key: PublicKey)

  datatype Hash = HashOf(receipt: Receipt)

  /** The backlink from an agent chain's first receipt to a receipt of the root chain. */
  datatype Delegation = Delegation(parentChain: string, parentId: nat)

  /** credentialSubject.keyRotation; `constantsOk` stands for event_type, signed_with and the two algorithm names. */
  datatype Rotation = Rotation(constantsOk: bool, newKey: PublicKey, oldFp: Fingerprint, newFp: Fingerprint)

  /** What a receipt records. Frames are numbered by the goroutine that handles them. */
  datatype Kind =
    | Live(frame: nat)
    | EventsDropped(frame: nat)
    | ChainInterrupted
    | KeyRotated(rotation: Rotation)
    | Earlier

  datatype Receipt = Receipt(
    id: nat,
    chain: string,
    sequence: nat,
    prev: Option<Hash>,
    kind: Kind,
    terminal: bool,
    delegation: Option<Delegation>,
    signer: PublicKey)

  type Chain = seq<Receipt>

  /** The chains of a receipt store, by chain id. */
  type Store = map<string, Chain>

  function ChainAt(st: Store, id: string): Chain {
    if id in st then st[id] else []
  }

  function TailHash(c: Chain): Option<Hash> {
    if c == [] then None else Some(HashOf(c[|c| - 1]))
  }

  /** Receipt `r` continues chain `c`: next sequence number, hash of the current tail. */
  predicate Continues(c: Chain, id: string, r: Receipt) {
    r.chain == id && r.sequence == |c| + 1 && r.prev == TailHash(c)
  }

  /** Sequence numbers are exactly 1..n and every previous-hash is the predecessor's hash. */
  ghost predicate Linked(c: Chain, id: string) {
    forall i :: 0 <= i < |c| ==> Continues(c[..i], id, c[i])
  }

  /** A terminal receipt can only be the last one. */
  predicate TerminalLast(c: Chain) {
    forall i :: 0 <= i < |c| - 1 ==> !c[i].terminal
  }

  ghost predicate AllLinked(st: Store) {
    forall id :: id in st ==> Linked(st[id], id)
  }

  lemma LinkedAppend(c: Chain, id: string, r: Receipt)
    requires Linked(c, id) && Continues(c, id, r)
    ensures Linked(c + [r], id)
  {
    forall i | 0 <= i < |c + [r]| ensures Continues((c + [r])[..i], id, (c + [r])[i]) {
      assert (c + [r])[..i] == c[..i];
      if i == |c| {
        assert c[..i] == c;
      }
    }
  }

  lemma LinkedPrefix(c: Chain, id: string, n: nat)
    requires Linked(c, id) && n <= |c|
    ensures Linked(c[..n], id)
  {
    forall i | 0 <= i < n ensures Continues(c[..n][..i], id, c[..n][i]) {
      assert c[..n][..i] == c[..i];
    }
  }

  /** The positional reading of Linked that most proofs use. */
  lemma LinkedAt(c: Chain, id: string, i: nat)
    requires Linked(c, id) && i < |c|
    ensures c[i].chain == id && c[i].sequence == i + 1
    ensures c[i].prev == if i == 0 then None else Some(HashOf(c[i - 1]))
  {
    assert Continues(c[..i], id, c[i]);
  }

  /**
   Two linked chains that agree on the hash of one receipt agree on everything before it:
   the head hash commits to the whole history.
   */
  lemma {:induction false} HeadCommits(c: Chain, d: Chain, id: string)
    requires Linked(c, id) && Linked(d, id)
    requires TailHash(c) == TailHash(d)
    ensures c == d
    decreases |c|
  {
    if c != [] {
      var n := |c| - 1;
      LinkedAt(c, id, n);
      LinkedAt(d, id, |d| - 1);
      assert |d| == |c|;
      LinkedPrefix(c, id, n);
      LinkedPrefix(d, id, n);
      assert TailHash(c[..n]) == TailHash(d[..n]) by {
        assert Continues(c[..n], id, c[n]);
        assert Continues(d[..n], id, d[n]);
      }
      HeadCommits(c[..n], d[..n], id);
      assert c == c[..n] + [c[n]] && d == d[..n] + [d[n]];
    }
  }

  /** What frame validation lets through as an agent id; the empty one stands for the root chain. */
  predicate IsAgentId(s: string) {
    '/' !in s && '\0' !in s
  }

  type AgentId = s: string | IsAgentId(s) witness ""

  const AGENT_PART := "/agent/"

  /** The id of the chain a frame goes to: the root chain, or one chain per agent under it. */
  function ChainIdFor(root: string, agent: string): string {
    if agent == "" then root else root + AGENT_PART + agent
  }

  /** The chain of some agent under `root`. */
  predicate AgentUnder(root: string, id: string) {
    && |id| > |root| + 7 && id[..|root|] == root && id[|root|..|root| + 7] == AGENT_PART
    && IsAgentId(id[|root| + 7..])
  }

  /** The root chain itself and every chain of an agent under it. */
  predicate Under(root: string, id: string) {
    id == root || AgentUnder(root, id)
  }

  lemma ChainIdParts(root: string, agent: string)
    requires agent != ""
    ensures var id := ChainIdFor(root, agent);
            |id| == |root| + 7 + |agent| && id[..|root|] == root && id[|root|..|root| + 7] == AGENT_PART &&
              id[|root| + 7..] == agent
  {
  }

  lemma ChainIdIsUnder(root: string, agent: AgentId)
    ensures Under(root, ChainIdFor(root, agent)) && (agent != "" ==> AgentUnder(root, ChainIdFor(root, agent)))
  {
    if agent != "" {
      ChainIdParts(root, agent);
    }
  }

  /** And every chain under a root is the chain of an agent that frame validation admits. */
  lemma UnderIsChainId(root: string, id: string)
    requires AgentUnder(root, id)
    ensures var agent := id[|root| + 7..]; agent != "" && IsAgentId(agent) && id == ChainIdFor(root, agent)
  {
    assert id == id[..|root|] + id[|root|..|root| + 7] + id[|root| + 7..];
  }

  lemma AgentChainIsNotRoot(root: string, agent: string)
    requires agent != ""
    ensures ChainIdFor(root, agent) != root
  {
    assert |ChainIdFor(root, agent)| > |root|;
  }

  /** In the id of an agent chain the last '/' stands right before the agent. */
  lemma LastSlash(root: string, id: string)
    requires AgentUnder(root, id)
    ensures id[|root| + 6] == '/' && forall i :: |root| + 7 <= i < |id| ==> id[i] != '/'
  {
    assert id[|root| + 6] == id[|root|..|root| + 7][6];
    forall i | |root| + 7 <= i < |id| ensures id[i] != '/' {
      assert id[i] == id[|root| + 7..][i - |root| - 7];
    }
  }

  /** So a chain is an agent chain of at most one root, whatever the roots are called. */
  lemma OneParent(r1: string, r2: string, id: string)
    requires AgentUnder(r1, id) && AgentUnder(r2, id)
    ensures r1 == r2
  {
    LastSlash(r1, id);
    LastSlash(r2, id);
    assert |r1| == |r2|;
  }

  /** Root ids without '/' are never agent chains, so the question does not arise for them. */
  lemma AgentChainHasSlash(root: string, id: string)
    requires AgentUnder(root, id)
    ensures '/' in id
  {
    LastSlash(root, id);
    assert id[|root| + 6] in id;
  }
  /**
   The chain id determines root and agent, for any roots once it is known whether there is an agent,
   and for roots without '/' in any case.
   */
  lemma ChainIdInjective(r1: string, a1: AgentId, r2: string, a2: AgentId)
    requires ChainIdFor(r1, a1) == ChainIdFor(r2, a2)
    requires (a1 == "" <==> a2 == "") || ('/' !in r1 && '/' !in r2)
    ensures r1 == r2 && a1 == a2
  {
    ChainIdIsUnder(r1, a1);
    ChainIdIsUnder(r2, a2);
    if a1 != "" {
      AgentChainHasSlash(r1, ChainIdFor(r1, a1));
    }
    if a2 != "" {
      AgentChainHasSlash(r2, ChainIdFor(r2, a2));
    }
    if a1 != "" && a2 != "" {
      OneParent(r1, r2, ChainIdFor(r1, a1));
      ChainIdParts(r1, a1);
      ChainIdParts(r2, a2);
    }
  }
}
