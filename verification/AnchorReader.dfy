/**
 daemon/internal/checkpoint/reader.go and daemon/internal/verifycli/anchor.go: reading an anchor
 log back and holding the head of a receipt chain against it.
 */
module AnchorReader {
  import opened Receipts

  datatype Checkpoint = Checkpoint(chain: string, sequence: nat, hash: Hash)

  /**
   One line of the log after JSON decoding. `evaluable` is false when the signature could not even
   be evaluated; an evaluable signature is valid exactly for the key that made it.
   */
  datatype Line =
    | Blank
    | NotARecord
    | OtherEvent
    | BadPayload
    | SignedHead(cp: Checkpoint, signer: PublicKey, evaluable: bool)

  datatype Reason = Undecodable | BadSignature | NotIncreasing

  datatype Result<+T> = Ok(value: T) | Err(line: nat, reason: Reason)

  // ---------- what a log means ----------

  /** A line that does not stop a reader looking for `chain`. */
  predicate LineOk(l: Line, chain: string, key: PublicKey) {
    match l
    case Blank => true
    case NotARecord => false
    case OtherEvent => true
    case BadPayload => false
    case SignedHead(cp, signer, evaluable) => cp.chain != chain || (evaluable && signer == key)
  }

  ghost predicate LinesOk(lines: seq<Line>, chain: string, key: PublicKey) {
    forall i :: 0 <= i < |lines| ==> LineOk(lines[i], chain, key)
  }

  function Pick(l: Line, chain: string): seq<Checkpoint> {
    if l.SignedHead? && l.cp.chain == chain then [l.cp] else []
  }

  /** The checkpoints of one chain, in file order. */
  function Collect(lines: seq<Line>, chain: string): seq<Checkpoint> {
    if lines == [] then [] else Collect(lines[..|lines| - 1], chain) + Pick(lines[|lines| - 1], chain)
  }

  ghost predicate StrictlyIncreasing(s: seq<Checkpoint>) {
    forall i, j :: 0 <= i < j < |s| ==> s[i].sequence < s[j].sequence
  }

  /** What the single-pass reader accepts. */
  ghost predicate Accepts(lines: seq<Line>, chain: string, key: PublicKey) {
    LinesOk(lines, chain, key) && StrictlyIncreasing(Collect(lines, chain))
  }

  function LastOf(s: seq<Checkpoint>): Option<Checkpoint> {
    if s == [] then None else Some(s[|s| - 1])
  }

  lemma CollectNext(lines: seq<Line>, chain: string, n: nat)
    requires n < |lines|
    ensures Collect(lines[..n + 1], chain) == Collect(lines[..n], chain) + Pick(lines[n], chain)
  {
    assert lines[..n + 1][..n] == lines[..n];
  }

  ghost predicate HasHead(lines: seq<Line>, cp: Checkpoint) {
    exists i :: 0 <= i < |lines| && lines[i].SignedHead? && lines[i].cp == cp
  }

  lemma LinesOkConcat(l1: seq<Line>, l2: seq<Line>, chain: string, key: PublicKey)
    ensures LinesOk(l1 + l2, chain, key) <==> LinesOk(l1, chain, key) && LinesOk(l2, chain, key)
  {
    assert forall i :: 0 <= i < |l2| ==> l2[i] == (l1 + l2)[|l1| + i];
    assert forall i :: 0 <= i < |l1| ==> l1[i] == (l1 + l2)[i];
  }

  lemma LinesOkNext(lines: seq<Line>, chain: string, key: PublicKey)
    requires lines != []
    ensures LinesOk(lines, chain, key) <==>
            LinesOk(lines[..|lines| - 1], chain, key) && LineOk(lines[|lines| - 1], chain, key)
  {
  }

  lemma HasHeadLast(lines: seq<Line>, cp: Checkpoint)
    requires lines != []
    ensures var n := |lines| - 1;
            HasHead(lines, cp) <==> HasHead(lines[..n], cp) || (lines[n].SignedHead? && lines[n].cp == cp)
  {
    var n := |lines| - 1;
    if HasHead(lines, cp) {
      var i :| 0 <= i < |lines| && lines[i].SignedHead? && lines[i].cp == cp;
      if i < n {
        assert lines[..n][i].cp == cp;
      }
    }
    if HasHead(lines[..n], cp) {
      var i :| 0 <= i < n && lines[..n][i].SignedHead? && lines[..n][i].cp == cp;
      assert lines[i].cp == cp;
    }
  }

  /** The collected checkpoints are exactly the signed heads of the chain that are in the log. */
  lemma {:induction false} CollectMembers(lines: seq<Line>, chain: string, cp: Checkpoint)
    ensures cp in Collect(lines, chain) <==> cp.chain == chain && HasHead(lines, cp)
  {
    if lines != [] {
      CollectMembers(lines[..|lines| - 1], chain, cp);
      HasHeadLast(lines, cp);
    }
  }

  // ---------- the two readers ----------

  /** A bad line ends acceptance for good. */
  lemma BadLine(lines: seq<Line>, chain: string, key: PublicKey, n: nat)
    requires n < |lines| && !LineOk(lines[n], chain, key)
    ensures !LinesOk(lines[..n + 1], chain, key) && !LinesOk(lines, chain, key) && !Accepts(lines, chain, key)
  {
    assert lines[..n + 1][n] == lines[n];
  }

  /** A good line that holds nothing about the chain, or one more checkpoint of it. */
  lemma NextLine(lines: seq<Line>, chain: string, key: PublicKey, n: nat)
    requires n < |lines| && LinesOk(lines[..n], chain, key) && LineOk(lines[n], chain, key)
    ensures LinesOk(lines[..n + 1], chain, key)
    ensures Collect(lines[..n + 1], chain) == Collect(lines[..n], chain) + Pick(lines[n], chain)
  {
    GoodLines(lines, chain, key, n);
    CollectNext(lines, chain, n);
  }

  /** Accumulates every verified checkpoint of `chain`; the first bad line is a hard error. */
  method ReadVerifiedCheckpoints(lines: seq<Line>, chain: string, key: PublicKey) returns (r: Result<seq<Checkpoint>>)
    ensures r.Ok? <==> LinesOk(lines, chain, key)
    ensures r.Ok? ==> r.value == Collect(lines, chain)
    ensures r.Err? ==>
              1 <= r.line <= |lines| && !LineOk(lines[r.line - 1], chain, key) &&
              LinesOk(lines[..r.line - 1], chain, key)
  {
    var out: seq<Checkpoint> := [];
    var lineNo := 0;
    while lineNo < |lines|
      invariant lineNo <= |lines|
      invariant LinesOk(lines[..lineNo], chain, key) && out == Collect(lines[..lineNo], chain)
    {
      ghost var n := lineNo;
      var l := lines[lineNo];
      lineNo := lineNo + 1;
      if l.NotARecord? || l.BadPayload? {
        BadLine(lines, chain, key, n);
        return Err(lineNo, Undecodable);
      }
      if !l.SignedHead? || l.cp.chain != chain {
        NextLine(lines, chain, key, n);
        continue;
      }
      if !l.evaluable || l.signer != key {
        BadLine(lines, chain, key, n);
        return Err(lineNo, BadSignature);
      }
      NextLine(lines, chain, key, n);
      out := out + [l.cp];
    }
    assert lines[..lineNo] == lines;
    return Ok(out);
  }

  /** So does a checkpoint that does not lie beyond the latest one. */
  lemma BadOrder(lines: seq<Line>, chain: string, key: PublicKey, n: nat)
    requires n < |lines| && Accepts(lines[..n], chain, key) && LineOk(lines[n], chain, key)
    requires lines[n].SignedHead? && lines[n].cp.chain == chain && LastOf(Collect(lines[..n], chain)).Some?
    requires lines[n].cp.sequence <= LastOf(Collect(lines[..n], chain)).value.sequence
    ensures LinesOk(lines[..n + 1], chain, key) && !Accepts(lines[..n + 1], chain, key) && !Accepts(lines, chain, key)
  {
    GoodLines(lines, chain, key, n);
    CollectNext(lines, chain, n);
    NotIncreasingEnd(Collect(lines[..n + 1], chain));
    CollectPrefix(lines, chain, n + 1);
  }

  lemma GoodLines(lines: seq<Line>, chain: string, key: PublicKey, n: nat)
    requires n < |lines| && LinesOk(lines[..n], chain, key) && LineOk(lines[n], chain, key)
    ensures LinesOk(lines[..n + 1], chain, key)
  {
    assert lines[..n + 1] == lines[..n] + [lines[n]];
  }

  lemma GoodOrder(lines: seq<Line>, chain: string, key: PublicKey, n: nat)
    requires n < |lines| && Accepts(lines[..n], chain, key) && LineOk(lines[n], chain, key)
    requires var last := LastOf(Collect(lines[..n], chain));
             lines[n].SignedHead? && lines[n].cp.chain == chain && last.Some? ==>
               lines[n].cp.sequence > last.value.sequence
    ensures Accepts(lines[..n + 1], chain, key)
    ensures LastOf(Collect(lines[..n + 1], chain)) ==
              if lines[n].SignedHead? && lines[n].cp.chain == chain then Some(lines[n].cp)
              else LastOf(Collect(lines[..n], chain))
  {
    GoodLines(lines, chain, key, n);
    CollectNext(lines, chain, n);
  }

  /** A single pass that keeps only the latest checkpoint, and rejects a log that ever fails to increase. */
  method ReadLatestVerifiedCheckpoint(lines: seq<Line>, chain: string, key: PublicKey)
    returns (r: Result<Option<Checkpoint>>)
    ensures r.Ok? <==> Accepts(lines, chain, key)
    ensures r.Ok? ==> r.value == LastOf(Collect(lines, chain))
    ensures r.Err? ==>
              1 <= r.line <= |lines| && Accepts(lines[..r.line - 1], chain, key) &&
              !Accepts(lines[..r.line], chain, key)
    ensures r.Err? ==> (r.reason.NotIncreasing? <==> LinesOk(lines[..r.line], chain, key))
  {
    var latest: Option<Checkpoint> := None;
    var lineNo := 0;
    while lineNo < |lines|
      invariant lineNo <= |lines|
      invariant Accepts(lines[..lineNo], chain, key) && latest == LastOf(Collect(lines[..lineNo], chain))
    {
      ghost var n := lineNo;
      var l := lines[lineNo];
      lineNo := lineNo + 1;
      if l.NotARecord? || l.BadPayload? {
        BadLine(lines, chain, key, n);
        return Err(lineNo, Undecodable);
      }
      if !l.SignedHead? || l.cp.chain != chain {
        GoodOrder(lines, chain, key, n);
        continue;
      }
      if !l.evaluable || l.signer != key {
        BadLine(lines, chain, key, n);
        return Err(lineNo, BadSignature);
      }
      if latest.Some? && l.cp.sequence <= latest.value.sequence {
        BadOrder(lines, chain, key, n);
        return Err(lineNo, NotIncreasing);
      }
      GoodOrder(lines, chain, key, n);
      latest := Some(l.cp);
    }
    assert lines[..lineNo] == lines;
    return Ok(latest);
  }

  lemma NotIncreasingEnd(s: seq<Checkpoint>)
    requires |s| >= 2 && s[|s| - 1].sequence <= s[|s| - 2].sequence
    ensures !StrictlyIncreasing(s)
  {
  }

  lemma {:induction false} CollectPrefix(lines: seq<Line>, chain: string, n: nat)
    requires n <= |lines|
    ensures Collect(lines[..n], chain) <= Collect(lines, chain)
    decreases |lines| - n
  {
    if n < |lines| {
      CollectNext(lines, chain, n);
      CollectPrefix(lines, chain, n + 1);
    } else {
      assert lines[..n] == lines;
    }
  }

  /** The latest checkpoint of an accepted log is its maximum, so a single pass loses nothing. */
  lemma LatestIsMaximum(lines: seq<Line>, chain: string, cp: Checkpoint)
    requires StrictlyIncreasing(Collect(lines, chain)) && cp in Collect(lines, chain)
    ensures LastOf(Collect(lines, chain)).Some? && cp.sequence <= LastOf(Collect(lines, chain)).value.sequence
  {
  }

  lemma Regroup(a: seq<Checkpoint>, b: seq<Checkpoint>, c: seq<Checkpoint>)
    ensures a + b + c == a + (b + c)
  {
  }

  /** The checkpoints of two logs in a row are those of the first, then those of the second. */
  lemma {:induction false} CollectConcat(l1: seq<Line>, l2: seq<Line>, chain: string)
    ensures Collect(l1 + l2, chain) == Collect(l1, chain) + Collect(l2, chain)
  {
    if l2 == [] {
      assert l1 + l2 == l1;
    } else {
      var n := |l2| - 1;
      CollectConcat(l1, l2[..n], chain);
      assert (l1 + l2)[..|l1 + l2| - 1] == l1 + l2[..n];
      assert (l1 + l2)[|l1 + l2| - 1] == l2[n];
      Regroup(Collect(l1, chain), Collect(l2[..n], chain), Pick(l2[n], chain));
    }
  }

  lemma IncreasingParts(a: seq<Checkpoint>, b: seq<Checkpoint>)
    requires StrictlyIncreasing(a + b)
    ensures StrictlyIncreasing(a) && StrictlyIncreasing(b)
    ensures a != [] && b != [] ==> a[|a| - 1].sequence < b[0].sequence
  {
    assert forall i :: 0 <= i < |a| ==> (a + b)[i] == a[i];
    assert forall i :: 0 <= i < |b| ==> (a + b)[|a| + i] == b[i];
  }

  lemma IncreasingJoin(a: seq<Checkpoint>, b: seq<Checkpoint>)
    requires StrictlyIncreasing(a) && StrictlyIncreasing(b)
    requires a != [] && b != [] ==> a[|a| - 1].sequence < b[0].sequence
    ensures StrictlyIncreasing(a + b)
  {
    forall i, j | 0 <= i < j < |a + b| ensures (a + b)[i].sequence < (a + b)[j].sequence {
      if i < |a| <= j {
        assert a[i].sequence <= a[|a| - 1].sequence && b[0].sequence <= b[j - |a|].sequence;
      }
    }
  }

  /** Two logs in a row are in order exactly when each is and the second begins beyond the end of the first. */
  lemma ConcatIncreasesIff(l1: seq<Line>, l2: seq<Line>, chain: string)
    ensures StrictlyIncreasing(Collect(l1 + l2, chain)) <==>
              StrictlyIncreasing(Collect(l1, chain)) && StrictlyIncreasing(Collect(l2, chain)) &&
              (Collect(l1, chain) != [] && Collect(l2, chain) != [] ==>
                 LastOf(Collect(l1, chain)).value.sequence < Collect(l2, chain)[0].sequence)
  {
    CollectConcat(l1, l2, chain);
    var a, b := Collect(l1, chain), Collect(l2, chain);
    if StrictlyIncreasing(a + b) {
      IncreasingParts(a, b);
    } else if StrictlyIncreasing(a) && StrictlyIncreasing(b) &&
              (a != [] && b != [] ==> a[|a| - 1].sequence < b[0].sequence) {
      IncreasingJoin(a, b);
    }
  }

  // ---------- what the readers accept, line by line ----------

  predicate HeadAt(lines: seq<Line>, i: int, chain: string) {
    0 <= i < |lines| && lines[i].SignedHead? && lines[i].cp.chain == chain
  }

  /** Every line can be decoded, and every checkpoint of the chain is verified by the key. */
  ghost predicate Readable(lines: seq<Line>, chain: string, key: PublicKey) {
    && (forall i :: 0 <= i < |lines| ==> !lines[i].NotARecord? && !lines[i].BadPayload?)
    && (forall i :: HeadAt(lines, i, chain) ==> lines[i].evaluable && lines[i].signer == key)
  }

  /** Its checkpoints go up, line by line. */
  ghost predicate GoesUp(lines: seq<Line>, chain: string) {
    forall i, j :: HeadAt(lines, i, chain) && HeadAt(lines, j, chain) && i < j ==>
                     lines[i].cp.sequence < lines[j].cp.sequence
  }

  lemma IncreasingSnoc(a: seq<Checkpoint>, x: Checkpoint)
    ensures StrictlyIncreasing(a + [x]) <==> StrictlyIncreasing(a) && forall y :: y in a ==> y.sequence < x.sequence
  {
    var b := a + [x];
    assert forall i :: 0 <= i < |a| ==> b[i] == a[i] && b[i] in a;
    if StrictlyIncreasing(b) {
      forall y | y in a ensures y.sequence < x.sequence {
        var i :| 0 <= i < |a| && a[i] == y;
        assert b[i].sequence < b[|a|].sequence;
      }
    }
  }

  lemma {:induction false} IncreasingIff(lines: seq<Line>, chain: string)
    ensures StrictlyIncreasing(Collect(lines, chain)) <==> GoesUp(lines, chain)
    decreases |lines|
  {
    if lines != [] {
      var n := |lines| - 1;
      IncreasingIff(lines[..n], chain);
      UpSnoc(lines, chain);
      if HeadAt(lines, n, chain) {
        IncreasingSnoc(Collect(lines[..n], chain), lines[n].cp);
        HeadsBelow(lines[..n], chain, lines[n].cp.sequence);
      } else {
        assert Collect(lines, chain) == Collect(lines[..n], chain);
      }
    }
  }

  lemma HeadsBelow(lines: seq<Line>, chain: string, n: nat)
    ensures (forall y :: y in Collect(lines, chain) ==> y.sequence < n) <==>
              forall i :: HeadAt(lines, i, chain) ==> lines[i].cp.sequence < n
  {
    forall y ensures y in Collect(lines, chain) <==> exists i :: HeadAt(lines, i, chain) && lines[i].cp == y {
      CollectMembers(lines, chain, y);
      if HasHead(lines, y) && y.chain == chain {
        var i :| 0 <= i < |lines| && lines[i].SignedHead? && lines[i].cp == y;
        assert HeadAt(lines, i, chain);
      }
    }
    if forall y :: y in Collect(lines, chain) ==> y.sequence < n {
      forall i | HeadAt(lines, i, chain) ensures lines[i].cp.sequence < n {
        assert lines[i].cp in Collect(lines, chain);
      }
    }
  }

  lemma UpSnoc(lines: seq<Line>, chain: string)
    requires lines != []
    ensures var n := |lines| - 1;
            GoesUp(lines, chain) <==>
              GoesUp(lines[..n], chain) &&
              (HeadAt(lines, n, chain) ==>
                 forall i :: HeadAt(lines[..n], i, chain) ==> lines[..n][i].cp.sequence < lines[n].cp.sequence)
  {
    var n := |lines| - 1;
    assert forall i :: HeadAt(lines[..n], i, chain) <==> HeadAt(lines, i, chain) && i < n;
  }

  /** What each reader accepts, told line by line. */
  lemma AcceptedIff(lines: seq<Line>, chain: string, key: PublicKey)
    ensures LinesOk(lines, chain, key) <==> Readable(lines, chain, key)
    ensures Accepts(lines, chain, key) <==> Readable(lines, chain, key) && GoesUp(lines, chain)
  {
    IncreasingIff(lines, chain);
    assert forall i :: 0 <= i < |lines| ==>
      (LineOk(lines[i], chain, key) <==>
         !lines[i].NotARecord? && !lines[i].BadPayload? &&
         (HeadAt(lines, i, chain) ==> lines[i].evaluable && lines[i].signer == key));
  }

  /** Line `i` is the last one with a checkpoint of the chain. */
  ghost predicate LastHeadAt(lines: seq<Line>, i: int, chain: string) {
    HeadAt(lines, i, chain) && forall j :: j > i ==> !HeadAt(lines, j, chain)
  }

  lemma HeadAtFront(lines: seq<Line>, n: nat, chain: string)
    requires n + 1 == |lines|
    ensures forall i :: HeadAt(lines[..n], i, chain) <==> HeadAt(lines, i, chain) && i < n
    ensures !HeadAt(lines, n, chain) ==> forall i :: LastHeadAt(lines[..n], i, chain) ==> LastHeadAt(lines, i, chain)
    ensures HeadAt(lines, n, chain) ==> LastHeadAt(lines, n, chain)
  {
    assert forall i :: HeadAt(lines[..n], i, chain) <==> HeadAt(lines, i, chain) && i < n;
  }

  /** The latest checkpoint is the last one in the log, and there is none only if no line is about the chain. */
  lemma {:induction false} LatestIs(lines: seq<Line>, chain: string)
    ensures match LastOf(Collect(lines, chain))
            case None => forall i :: !HeadAt(lines, i, chain)
            case Some(cp) => exists i :: LastHeadAt(lines, i, chain) && lines[i].cp == cp
    decreases |lines|
  {
    if lines != [] {
      var n := |lines| - 1;
      LatestIs(lines[..n], chain);
      HeadAtFront(lines, n, chain);
      if HeadAt(lines, n, chain) {
        assert LastOf(Collect(lines, chain)) == Some(lines[n].cp);
      } else {
        assert Collect(lines, chain) == Collect(lines[..n], chain);
        if cp :| LastOf(Collect(lines, chain)) == Some(cp) {
          var i :| LastHeadAt(lines[..n], i, chain) && lines[..n][i].cp == cp;
          assert LastHeadAt(lines, i, chain) && lines[i].cp == cp;
        }
      }
    }
  }

  // ---------- the anchor check ----------

  datatype AnchorResult = AnchorResult(ok: bool, truncated: bool, checked: nat)

  /** verifyAgainstAnchor, given what the reader returned and the head the caller loaded. */
  function VerifyAgainstAnchor(r: Result<Option<Checkpoint>>, headSeq: nat, headHash: Option<Hash>,
                               headFound: bool): AnchorResult {
    if r.Err? then AnchorResult(false, false, 0)
    else if r.value == None then AnchorResult(false, false, 0)
    else
      var latest := r.value.value;
      if !headFound then AnchorResult(false, true, 1)
      else if latest.sequence > headSeq then AnchorResult(false, true, 1)
      else if latest.sequence < headSeq then AnchorResult(false, false, 1)
      else if Some(latest.hash) != headHash then AnchorResult(false, false, 1)
      else AnchorResult(true, false, 1)
  }

  /** The check as the verify command runs it on a stored chain: GetChainTail supplies the head. */
  function CheckChain(r: Result<Option<Checkpoint>>, c: Chain): AnchorResult {
    if c == [] then VerifyAgainstAnchor(r, 0, None, false)
    else VerifyAgainstAnchor(r, c[|c| - 1].sequence, TailHash(c), true)
  }

  /** What the single-pass reader returns for these lines. */
  ghost function Read(lines: seq<Line>, k: string, key: PublicKey): Result<Option<Checkpoint>> {
    if Accepts(lines, k, key) then Ok(LastOf(Collect(lines, k))) else Err(0, Undecodable)
  }

  /** The log's latest checkpoint of the chain is the head of `c`. */
  ghost predicate Anchors(r: Result<Option<Checkpoint>>, c: Chain) {
    c != [] && r.Ok? && r.value.Some? && r.value.value.sequence == |c| && Some(r.value.value.hash) == TailHash(c)
  }

  /**
   The verdict on a linked chain, from the latest checkpoint alone. Truncation is reported exactly if the checkpoint
   is beyond the end of the chain, or nothing is left of it, whatever the hashes; success exactly if it is the head.
   */
  lemma VerdictIs(r: Result<Option<Checkpoint>>, c: Chain, id: string)
    requires Linked(c, id)
    ensures var v := CheckChain(r, c);
            match r
            case Ok(Some(cp)) =>
              && v.checked == 1 && (v.truncated <==> c == [] || cp.sequence > |c|)
              && (v.ok <==> c != [] && cp.sequence == |c| && cp.hash == HashOf(c[|c| - 1]))
            case _ => v == AnchorResult(false, false, 0)
  {
    if c != [] {
      LinkedAt(c, id, |c| - 1);
    }
  }

  /**
   Once the head of `c` is anchored: the intact chain passes, and removing any number of receipts
   from its end is reported as a truncation.
   */
  lemma TruncationIsReported(r: Result<Option<Checkpoint>>, c: Chain, id: string, k: nat)
    requires Linked(c, id) && Anchors(r, c) && k <= |c|
    ensures CheckChain(r, c[..|c| - k]).ok <==> k == 0
    ensures CheckChain(r, c[..|c| - k]).truncated <==> k > 0
  {
    var d := c[..|c| - k];
    if d != [] {
      LinkedAt(c, id, |d| - 1);
    }
    if k == 0 {
      assert d == c;
    }
  }

  /**
   Because the head hash commits to everything before it, the only well-linked chain that passes
   is the anchored one: no receipt was removed, added, reordered or replaced anywhere.
   */
  lemma OnlyTheAnchoredChainPasses(r: Result<Option<Checkpoint>>, c: Chain, id: string, d: Chain)
    requires Linked(c, id) && Anchors(r, c) && Linked(d, id)
    ensures CheckChain(r, d).ok <==> d == c
  {
    if d != [] {
      LinkedAt(d, id, |d| - 1);
    }
    if CheckChain(r, d).ok {
      HeadCommits(d, c, id);
    }
  }

  /**
   An anchor that is merely behind never accuses an untouched store: if the latest checkpoint is
   the head the chain had at some earlier time, the result is neither truncated nor a mismatch.
   */
  lemma StaleAnchorAccusesNobody(r: Result<Option<Checkpoint>>, c: Chain, id: string, n: nat)
    requires Linked(c, id) && n <= |c| && Anchors(r, c[..n])
    ensures !CheckChain(r, c).truncated
    ensures CheckChain(r, c).ok <==> n == |c|
  {
    LinkedAt(c, id, |c| - 1);
    if n == |c| {
      assert c[..n] == c;
    }
  }

  /**
   The check verifies every checkpoint of the chain against the published key alone. After a key
   rotation a log that still holds a checkpoint signed by an earlier key therefore makes it fail on
   every chain, the intact one included.
   */
  lemma OutgoingKeyCheckpointRejects(lines: seq<Line>, chain: string, key: PublicKey, i: nat, c: Chain)
    requires i < |lines| && lines[i].SignedHead? && lines[i].cp.chain == chain && lines[i].signer != key
    ensures CheckChain(Read(lines, chain, key), c) == AnchorResult(false, false, 0)
  {
    assert !LineOk(lines[i], chain, key);
  }
}
