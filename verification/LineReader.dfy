/**
 The bounded line reader and the transcript scan of hook/cmd/obsigna-hook/claude_transcript.go over
 a buffered reader of any size, against "split on newline, skip every line longer than the limit,
 stop at the first line that matches".
 */
module LineReader {
  import opened Receipts

  newtype byte = x: int | 0 <= x < 256

  type Text = seq<byte>

  const NEWLINE: byte := 10

  /** How the underlying reader ends, and stays. */
  datatype End = AtEof | IoError

  // ---------- lines ----------

  /** Position of the first newline at or after `i`, or the length of the text. */
  function NewlineFrom(s: Text, i: nat): (n: nat)
    requires i <= |s|
    ensures i <= n <= |s|
    decreases |s| - i
  {
    if i == |s| || s[i] == NEWLINE then i else NewlineFrom(s, i + 1)
  }

  /** Whether the line that starts at `i` has its newline. */
  predicate Terminated(s: Text, i: nat)
    requires i <= |s|
  {
    NewlineFrom(s, i) < |s|
  }

  /** Where the line that starts at `i` ends: after its newline if it has one. */
  function LineEnd(s: Text, i: nat): (n: nat)
    requires i <= |s|
    ensures i <= n <= |s| && (i < |s| ==> i < n)
  {
    if Terminated(s, i) then NewlineFrom(s, i) + 1 else |s|
  }

  function LineAt(s: Text, i: nat): Text
    requires i <= |s|
  {
    s[i..LineEnd(s, i)]
  }

  function Lines(s: Text, i: nat): seq<Text>
    requires i <= |s|
    decreases |s| - i
  {
    if i == |s| then [] else [LineAt(s, i)] + Lines(s, LineEnd(s, i))
  }

  function Concat(lines: seq<Text>): Text {
    if lines == [] then [] else lines[0] + Concat(lines[1..])
  }

  lemma {:induction false} NewlineIsFirst(s: Text, i: nat)
    requires i <= |s|
    ensures forall j :: i <= j < NewlineFrom(s, i) ==> s[j] != NEWLINE
    ensures Terminated(s, i) ==> s[NewlineFrom(s, i)] == NEWLINE
    decreases |s| - i
  {
    if i < |s| && s[i] != NEWLINE {
      NewlineIsFirst(s, i + 1);
    }
  }

  lemma {:induction false} NewlineFromLater(s: Text, i: nat, j: nat)
    requires i <= j <= |s| && j <= NewlineFrom(s, i)
    ensures NewlineFrom(s, j) == NewlineFrom(s, i)
    decreases j - i
  {
    if i < j {
      NewlineFromLater(s, i + 1, j);
    }
  }

  lemma Join(s: Text, a: nat, b: nat, c: nat)
    requires a <= b <= c <= |s|
    ensures s[a..b] + s[b..c] == s[a..c]
  {
  }

  /** A line ends at its first newline; only the last one may lack it. */
  predicate IsLine(l: Text, last: bool) {
    l != [] && (forall i :: 0 <= i < |l| - 1 ==> l[i] != 10) && (!last ==> l[|l| - 1] == 10)
  }

  lemma LineAtIsLine(s: Text, i: nat)
    requires i < |s|
    ensures IsLine(LineAt(s, i), LineEnd(s, i) == |s|)
  {
    NewlineIsFirst(s, i);
  }

  /** Nothing is lost or added by splitting. */
  lemma {:induction false} LinesAreTheText(s: Text, i: nat)
    requires i <= |s|
    ensures Concat(Lines(s, i)) == s[i..]
    decreases |s| - i
  {
    if i < |s| {
      LinesAreTheText(s, LineEnd(s, i));
      Join(s, i, LineEnd(s, i), |s|);
      assert Lines(s, i)[1..] == Lines(s, LineEnd(s, i));
    }
  }

  lemma {:induction false} LinesAreLines(s: Text, i: nat, k: nat)
    requires i <= |s| && k < |Lines(s, i)|
    ensures IsLine(Lines(s, i)[k], k == |Lines(s, i)| - 1)
    decreases k
  {
    LineAtIsLine(s, i);
    if k > 0 {
      LinesAreLines(s, LineEnd(s, i), k - 1);
    }
  }

  // ---------- the scan, as a specification ----------

  datatype Found<T> = Match(value: T) | NoMatch(end: End)

  /** The first short line that matches, or how the text ends. */
  function FirstMatch<T>(lines: seq<Text>, max: nat, end: End, matches: Text -> Option<T>): Found<T> {
    if lines == [] then NoMatch(end)
    else if |lines[0]| <= max && matches(lines[0]).Some? then Match(matches(lines[0]).value)
    else FirstMatch(lines[1..], max, end, matches)
  }

  ghost predicate Passed<T(!new)>(lines: seq<Text>, k: nat, max: nat, matches: Text -> Option<T>) {
    forall j :: 0 <= j < k && j < |lines| ==> |lines[j]| > max || matches(lines[j]) == None
  }

  /** A match means every earlier line is too long or does not match; no match means no short line matches. */
  lemma {:induction false} FirstMatchIsFirst<T(!new)>(lines: seq<Text>, max: nat, end: End, matches: Text -> Option<T>)
    ensures match FirstMatch(lines, max, end, matches)
            case Match(v) =>
              (exists k :: 0 <= k < |lines| && |lines[k]| <= max && matches(lines[k]) == Some(v) &&
                Passed(lines, k, max, matches))
            case NoMatch(e) => e == end && Passed(lines, |lines|, max, matches)
  {
    if lines != [] && !(|lines[0]| <= max && matches(lines[0]).Some?) {
      var rest := lines[1..];
      FirstMatchIsFirst(rest, max, end, matches);
      assert forall j :: 0 < j < |lines| ==> lines[j] == rest[j - 1];
      match FirstMatch(lines, max, end, matches)
      case Match(v) =>
        var k :| 0 <= k < |rest| && |rest[k]| <= max && matches(rest[k]) == Some(v) && Passed(rest, k, max, matches);
        assert lines[k + 1] == rest[k] && Passed(lines, k + 1, max, matches);
      case NoMatch(_) =>
    }
  }

  // ---------- the buffered reader ----------

  datatype Status = Delimited | BufferFull | TooLong | Ended(end: End)

  /** bufio.Reader as far as ReadSlice is used: a buffer of `size` bytes over a stream. */
  class BufReader {
    const size: nat
    const stream: Text
    const end: End
    var pos: nat

    constructor (stream: Text, size: nat, end: End)
      requires size > 0
      ensures pos == 0 && this.stream == stream && this.size == size && this.end == end
    {
      this.stream, this.size, this.end, pos := stream, size, end, 0;
    }

    predicate Valid()
      reads this
    {
      pos <= |stream| && size > 0
    }

    /** Through the newline, or a full buffer, or all that is left. */
    method ReadSlice() returns (chunk: Text, status: Status)
      requires Valid()
      modifies this
      ensures Valid() && old(pos) <= pos && chunk == stream[old(pos)..pos] && !status.TooLong?
      ensures pos <= old(pos) + size
      ensures status.Delimited? ==> Terminated(stream, old(pos)) && pos == LineEnd(stream, old(pos))
      ensures status.BufferFull? ==> pos == old(pos) + size && pos <= NewlineFrom(stream, old(pos))
      ensures status.Ended? ==> pos == |stream| < old(pos) + size && !Terminated(stream, old(pos)) && status.end == end
    {
      var start, n := pos, NewlineFrom(stream, pos);
      if n < |stream| && n < start + size {
        pos, status := n + 1, Delimited;
      } else if |stream| >= start + size {
        pos, status := start + size, BufferFull;
      } else {
        pos, status := |stream|, Ended(end);
      }
      chunk := stream[start..pos];
    }
  }

  /** discardRestOfLine: resynchronises at the next line; the end of the file is no error. */
  method DiscardRestOfLine(r: BufReader) returns (ok: bool)
    requires r.Valid()
    modifies r
    ensures r.Valid() && r.pos == LineEnd(r.stream, old(r.pos))
    ensures ok == (Terminated(r.stream, old(r.pos)) || r.end.AtEof?)
  {
    while true
      invariant r.Valid() && old(r.pos) <= r.pos <= NewlineFrom(r.stream, old(r.pos))
      decreases |r.stream| - r.pos
    {
      NewlineFromLater(r.stream, old(r.pos), r.pos);
      var chunk, status := r.ReadSlice();
      if status.Delimited? {
        return true;
      }
      if status.Ended? {
        return status.end.AtEof?;
      }
    }
  }

  /** How much of a line that is too long is held in memory when it is given up: the full buffers that fit. */
  function Held(size: nat, max: nat): (n: nat)
    requires size > 0
    ensures n <= max < n + size
    decreases max
  {
    if max < size then 0 else size + Held(size, max - size)
  }

  /** A last line so long that giving it up runs into the I/O error of the underlying reader. */
  predicate CutOff(length: nat, terminated: bool, size: nat, max: nat, end: End)
    requires size > 0
  {
    end.IoError? && !terminated && length > max && length >= Held(size, max) + size
  }

  /** What readBoundedLine has accumulated, and how it ends, as a function of stream, buffer size and limit. */
  predicate LineRead(s: Text, i: nat, size: nat, max: nat, end: End, line: Text, status: Status)
    requires size > 0 && i <= |s|
  {
    var length := LineEnd(s, i) - i;
    if length <= max then line == LineAt(s, i) && status == (if Terminated(s, i) then Delimited else Ended(end))
    else
      line == s[i..i + Held(size, max)] &&
      status == (if CutOff(length, Terminated(s, i), size, max, end) then Ended(IoError) else TooLong)
  }

  /**
   readBoundedLine. A short line comes back whole; of a long one never more than the limit is held,
   and the reader is left at the start of the next line.
   */
  method ReadBoundedLine(r: BufReader, max: nat) returns (line: Text, status: Status)
    requires r.Valid()
    modifies r
    ensures r.Valid() && |line| <= max && r.pos == LineEnd(r.stream, old(r.pos))
    ensures LineRead(r.stream, old(r.pos), r.size, max, r.end, line, status)
  {
    ghost var start := r.pos;
    line := [];
    while true
      invariant r.Valid() && Accumulated(r.stream, start, r.pos, r.size, max, line)
      decreases |r.stream| - r.pos
    {
      NewlineFromLater(r.stream, start, r.pos);
      ghost var at := r.pos;
      var chunk;
      chunk, status := r.ReadSlice();
      if |line| + |chunk| > max {
        ghost var full := status.BufferFull?;
        status := GiveUp(r, status, start, at);
        LongLine(r.stream, start, at, |chunk|, full, r.size, max, r.end, status);
        return;
      }
      Join(r.stream, start, at, r.pos);
      line := line + chunk;
      if !status.BufferFull? {
        ShortLine(r.stream, start, r.pos, r.size, max, r.end, status);
        return;
      }
    }
  }

  /** Full buffers only, all of the line, and no newline in them. */
  predicate Accumulated(s: Text, start: nat, pos: nat, size: nat, max: nat, line: Text) {
    && size > 0 && start <= pos <= |s| && pos <= NewlineFrom(s, start)
    && line == s[start..pos] && |line| <= max && Held(size, max) == |line| + Held(size, max - |line|)
  }

  lemma ShortLine(s: Text, start: nat, pos: nat, size: nat, max: nat, end: End, status: Status)
    requires size > 0 && start <= pos <= |s| && pos == LineEnd(s, start) && pos - start <= max
    requires status == if Terminated(s, start) then Delimited else Ended(end)
    ensures LineRead(s, start, size, max, end, s[start..pos], status)
  {
  }

  /** When the next chunk does not fit, the full buffers read so far are all that fit. */
  lemma LongLine(s: Text, start: nat, at: nat, chunk: nat, full: bool, size: nat, max: nat, end: End, status: Status)
    requires size > 0 && start <= at && start <= |s| && at + chunk <= LineEnd(s, start)
    requires at - start <= max && Held(size, max) == at - start + Held(size, max - (at - start))
    requires at - start + chunk > max && chunk <= size
    requires if full then chunk == size else at + chunk == LineEnd(s, start)
    requires !full && !Terminated(s, start) ==> chunk < size
    requires status == if full && !Terminated(s, start) && end.IoError? then Ended(IoError) else TooLong
    ensures LineRead(s, start, size, max, end, s[start..at], status)
  {
  }

  /** The branch that abandons a line, after the chunk that did not fit has been read from `at` on. */
  method GiveUp(r: BufReader, was: Status, ghost start: nat, ghost at: nat) returns (status: Status)
    requires r.Valid() && start <= at <= r.pos && at <= NewlineFrom(r.stream, start)
    requires was.BufferFull? ==> r.pos <= NewlineFrom(r.stream, start)
    requires !was.BufferFull? ==> r.pos == LineEnd(r.stream, start)
    modifies r
    ensures r.Valid() && r.pos == LineEnd(r.stream, start)
    ensures status ==
            if was.BufferFull? && !Terminated(r.stream, start) && r.end.IoError? then Ended(IoError) else TooLong
  {
    if was.BufferFull? {
      NewlineFromLater(r.stream, start, r.pos);
      var ok := DiscardRestOfLine(r);
      if !ok {
        return Ended(r.end);
      }
    }
    status := TooLong;
  }

  // ---------- the scan over the reader ----------

  /** The held front of a cut-off last line is looked at, although the line is too long. */
  predicate CutMatches<T>(l: Text, size: nat, max: nat, end: End, matches: Text -> Option<T>)
    requires size > 0
  {
    CutOff(|l|, l != [] && l[|l| - 1] == NEWLINE, size, max, end) && matches(l[..Held(size, max)]).Some?
  }

  /** What lookupTranscriptUsage returns. */
  function Scan<T>(lines: seq<Text>, size: nat, max: nat, end: End, matches: Text -> Option<T>): Found<T>
    requires size > 0
  {
    if lines == [] then NoMatch(end)
    else if |lines[0]| <= max && matches(lines[0]).Some? then Match(matches(lines[0]).value)
    else if CutMatches(lines[0], size, max, end, matches) then Match(matches(lines[0][..Held(size, max)]).value)
    else Scan(lines[1..], size, max, end, matches)
  }

  ghost predicate SomeCutMatches<T>(lines: seq<Text>, size: nat, max: nat, end: End, matches: Text -> Option<T>)
    requires size > 0
  {
    exists k :: 0 <= k < |lines| && CutMatches(lines[k], size, max, end, matches)
  }

  /** Only the last line can be cut off: it has no newline, and then nothing comes after it. */
  lemma CutIsLast<T>(s: Text, i: nat, size: nat, max: nat, end: End, matches: Text -> Option<T>)
    requires size > 0 && i < |s| && CutMatches(LineAt(s, i), size, max, end, matches)
    ensures LineEnd(s, i) == |s| && Lines(s, i) == [LineAt(s, i)]
  {
    NewlineIsFirst(s, i);
    assert Lines(s, |s|) == [];
  }

  lemma SomeCutStep<T>(l: Text, rest: seq<Text>, size: nat, max: nat, end: End, matches: Text -> Option<T>)
    requires size > 0
    ensures SomeCutMatches([l] + rest, size, max, end, matches) <==>
              CutMatches(l, size, max, end, matches) || SomeCutMatches(rest, size, max, end, matches)
  {
    var lines := [l] + rest;
    assert lines[0] == l && forall k :: 0 < k < |lines| ==> lines[k] == rest[k - 1];
    if SomeCutMatches(rest, size, max, end, matches) {
      var k :| 0 <= k < |rest| && CutMatches(rest[k], size, max, end, matches);
      assert lines[k + 1] == rest[k];
    }
  }

  /**
   On the lines of any stream the scan returns the first match among the short lines, exactly unless
   none matches and the stream breaks off with an I/O error inside a line that is too long and whose
   held front matches.
   */
  lemma {:induction false} ScanIsFirstMatchIff<T>(s: Text, i: nat, size: nat, max: nat, end: End,
                                                  matches: Text -> Option<T>)
    requires size > 0 && i <= |s|
    ensures Scan(Lines(s, i), size, max, end, matches) == FirstMatch(Lines(s, i), max, end, matches) <==>
              !(SomeCutMatches(Lines(s, i), size, max, end, matches) &&
                FirstMatch(Lines(s, i), max, end, matches).NoMatch?)
    decreases |s| - i
  {
    if i < |s| {
      var l, rest := LineAt(s, i), Lines(s, LineEnd(s, i));
      assert Lines(s, i) == [l] + rest && ([l] + rest)[1..] == rest;
      SomeCutStep(l, rest, size, max, end, matches);
      if CutMatches(l, size, max, end, matches) {
        CutIsLast(s, i, size, max, end, matches);
        assert FirstMatch([l], max, end, matches) == NoMatch(end);
      } else {
        ScanIsFirstMatchIff(s, LineEnd(s, i), size, max, end, matches);
      }
    }
  }

  /** In particular a file that can be read to its end is scanned exactly, for every buffer size. */
  lemma ReadableFilesScanExactly<T>(s: Text, size: nat, max: nat, matches: Text -> Option<T>)
    requires size > 0
    ensures Scan(Lines(s, 0), size, max, AtEof, matches) == FirstMatch(Lines(s, 0), max, AtEof, matches)
  {
    ScanIsFirstMatchIff(s, 0, size, max, AtEof, matches);
  }

  /** The exception is real: of the two bytes of a broken-off line the first one is still matched. */
  lemma CutLineIsMatched(s: Text, matches: Text -> Option<nat>)
    requires s == [1, 1] && matches([1]) == Some(7)
    ensures Scan(Lines(s, 0), 1, 1, IoError, matches) == Match(7)
    ensures FirstMatch(Lines(s, 0), 1, IoError, matches) == NoMatch(IoError)
  {
    assert NewlineFrom(s, 2) == 2 && NewlineFrom(s, 1) == 2 && NewlineFrom(s, 0) == 2;
    assert LineAt(s, 0) == s && Lines(s, 2) == [] && Lines(s, 0) == [s];
    assert Held(1, 1) == 1 && s[..1] == [1];
    assert [s][1..] == [];
  }

  /** The loop of lookupTranscriptUsage. It terminates, whatever the buffer size. */
  method Lookup<T>(r: BufReader, max: nat, matches: Text -> Option<T>) returns (found: Found<T>)
    requires r.Valid() && matches([]) == None
    modifies r
    ensures found == Scan(Lines(r.stream, old(r.pos)), r.size, max, r.end, matches)
  {
    while true
      invariant r.Valid()
      invariant Scan(Lines(r.stream, r.pos), r.size, max, r.end, matches) ==
                Scan(Lines(r.stream, old(r.pos)), r.size, max, r.end, matches)
      decreases |r.stream| - r.pos
    {
      ghost var at := r.pos;
      var line, status := ReadBoundedLine(r, max);
      ScanEnd(r.stream, at, r.size, max, r.end, matches);
      if at < |r.stream| {
        ScanStep(r.stream, at, r.size, max, r.end, matches);
      }
      if status.TooLong? {
        continue;
      }
      if |line| > 0 && matches(line).Some? {
        return Match(matches(line).value);
      }
      if status.Ended? {
        return NoMatch(status.end);
      }
    }
  }

  /** In terms of positions in the stream: a line is unterminated exactly if it does not end in a newline. */
  lemma CutMatchesAt<T>(s: Text, i: nat, size: nat, max: nat, end: End, matches: Text -> Option<T>)
    requires size > 0 && i < |s|
    ensures CutMatches(LineAt(s, i), size, max, end, matches) <==>
              CutOff(LineEnd(s, i) - i, Terminated(s, i), size, max, end) && matches(s[i..i + Held(size, max)]).Some?
    ensures LineEnd(s, i) - i > max ==> LineAt(s, i)[..Held(size, max)] == s[i..i + Held(size, max)]
  {
    NewlineIsFirst(s, i);
    var l := LineAt(s, i);
    assert LineEnd(s, i) > i && |l| == LineEnd(s, i) - i;
    assert l[|l| - 1] == s[i + (|l| - 1)];
    if LineEnd(s, i) - i > max {
      assert l[..Held(size, max)] == s[i..i + Held(size, max)];
    }
  }

  /** What the scan does with the line at `i`. */
  lemma ScanStep<T>(s: Text, i: nat, size: nat, max: nat, end: End, matches: Text -> Option<T>)
    requires size > 0 && i < |s|
    ensures var l := LineAt(s, i);
            Scan(Lines(s, i), size, max, end, matches) ==
              if |l| <= max && matches(l).Some? then Match(matches(l).value)
              else if CutOff(|l|, Terminated(s, i), size, max, end) && matches(s[i..i + Held(size, max)]).Some?
              then Match(matches(s[i..i + Held(size, max)]).value)
              else Scan(Lines(s, LineEnd(s, i)), size, max, end, matches)
  {
    CutMatchesAt(s, i, size, max, end, matches);
    assert Lines(s, i) == [LineAt(s, i)] + Lines(s, LineEnd(s, i));
    assert Lines(s, i)[1..] == Lines(s, LineEnd(s, i));
  }

  /** At the end of the stream there is nothing more. */
  lemma ScanEnd<T>(s: Text, i: nat, size: nat, max: nat, end: End, matches: Text -> Option<T>)
    requires size > 0 && i <= |s|
    ensures Scan(Lines(s, |s|), size, max, end, matches) == NoMatch(end)
    ensures i == |s| ==> !Terminated(s, i) && LineAt(s, i) == []
    ensures !Terminated(s, i) ==> LineEnd(s, i) == |s|
  {
  }
}
