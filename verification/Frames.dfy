/**
 The wire format of daemon/internal/socket/listener.go: four bytes of big-endian length, then the
 payload, written through a writer that may take any part of what it is given, and read through a
 reader that may deliver any part of what is asked for.
 */
module Frames {
  newtype byte = x: int | 0 <= x < 256

  const MAX_FRAME_SIZE: nat := 0x10_0000

  // ---------- the format ----------

  /** The low `width` bytes of a number, most significant first. */
  function BigEndian(n: nat, width: nat): (s: seq<byte>)
    ensures |s| == width
  {
    if width == 0 then [] else BigEndian(n / 0x100, width - 1) + [(n % 0x100) as byte]
  }

  function FromBigEndian(s: seq<byte>): nat {
    if s == [] then 0 else 0x100 * FromBigEndian(s[..|s| - 1]) + s[|s| - 1] as nat
  }

  function Limit(width: nat): nat {
    if width == 0 then 1 else 0x100 * Limit(width - 1)
  }

  lemma {:induction false} BigEndianRoundTrip(n: nat, width: nat)
    requires n < Limit(width)
    ensures FromBigEndian(BigEndian(n, width)) == n
    decreases width
  {
    if width > 0 {
      var s := BigEndian(n, width);
      assert s[..width - 1] == BigEndian(n / 0x100, width - 1);
      BigEndianRoundTrip(n / 0x100, width - 1);
    }
  }

  const HEADER: nat := 4

  /** binary.BigEndian.PutUint32 and its inverse; a payload length always fits. */
  function Header(n: nat): (s: seq<byte>)
    ensures |s| == HEADER
  {
    BigEndian(n, HEADER)
  }

  lemma HeaderRoundTrip(n: nat)
    requires n <= MAX_FRAME_SIZE
    ensures FromBigEndian(Header(n)) == n
  {
    assert Limit(1) == 0x100 && Limit(2) == 0x1_0000 && Limit(3) == 0x100_0000;
    assert n < Limit(HEADER);
    BigEndianRoundTrip(n, HEADER);
  }

  /** The weights of the four header bytes: network order. */
  lemma FourBytes(s: seq<byte>)
    requires |s| == 4
    ensures FromBigEndian(s) == s[0] as nat * 0x100_0000 + s[1] as nat * 0x1_0000 + s[2] as nat * 0x100 + s[3] as nat
  {
    assert s[..3][..2] == s[..2] && s[..2][..1] == s[..1] && s[..1][..0] == [];
    assert FromBigEndian(s[..1]) == s[0] as nat;
    assert FromBigEndian(s[..2]) == 0x100 * s[0] as nat + s[1] as nat;
    assert FromBigEndian(s[..3]) == 0x100 * FromBigEndian(s[..2]) + s[2] as nat;
  }

  /** So the header of every payload length is that length in network order. */
  lemma HeaderIsNetworkOrder(n: nat)
    requires n <= MAX_FRAME_SIZE
    ensures var h := Header(n);
            h[0] as nat * 0x100_0000 + h[1] as nat * 0x1_0000 + h[2] as nat * 0x100 + h[3] as nat == n
  {
    HeaderRoundTrip(n);
    FourBytes(Header(n));
  }

  type Payload = seq<byte>

  predicate Allowed(p: Payload) {
    1 <= |p| <= MAX_FRAME_SIZE
  }

  function Encoded(p: Payload): seq<byte>
    requires Allowed(p)
  {
    Header(|p|) + p
  }

  predicate AllAllowed(ps: seq<Payload>) {
    forall i :: 0 <= i < |ps| ==> Allowed(ps[i])
  }

  function Stream(ps: seq<Payload>): seq<byte>
    requires AllAllowed(ps)
  {
    if ps == [] then [] else Encoded(ps[0]) + Stream(ps[1..])
  }

  // ---------- writing ----------

  /** What the writer does with one call: it takes at most `n` bytes and may report an error. */
  datatype Answer = Answer(n: nat, ok: bool)

  class Writer {
    var out: seq<byte>
    var answers: seq<Answer>

    constructor (answers: seq<Answer>)
      ensures out == [] && this.answers == answers
    {
      out := [];
      this.answers := answers;
    }

    /** Every answer yet to come takes something. When they run out the writer takes everything. */
    predicate Willing()
      reads this
    {
      forall i :: 0 <= i < |answers| ==> answers[i].ok && answers[i].n > 0
    }

    method Write(buf: seq<byte>) returns (n: nat, ok: bool)
      modifies this
      ensures n <= |buf| && out == old(out) + buf[..n]
      ensures old(Willing()) ==> Willing() && ok && (buf != [] ==> n > 0)
    {
      if answers == [] {
        n, ok := |buf|, true;
      } else {
        n, ok := if answers[0].n < |buf| then answers[0].n else |buf|, answers[0].ok;
        answers := answers[1..];
      }
      out := out + buf[..n];
    }
  }

  /** writeAll: whatever was taken is a prefix of the buffer, and all of it exactly on success. */
  method WriteAll(w: Writer, buf: seq<byte>) returns (ok: bool)
    modifies w
    ensures old(w.out) <= w.out <= old(w.out) + buf
    ensures ok ==> w.out == old(w.out) + buf
    ensures old(w.Willing()) ==> ok && w.Willing()
  {
    var rest := buf;
    while |rest| > 0
      invariant w.out + rest == old(w.out) + buf && |rest| <= |buf| && old(w.out) <= w.out
      invariant old(w.Willing()) ==> w.Willing()
    {
      var n, written := w.Write(rest);
      rest := rest[n..];
      if !written || n == 0 {
        return false;
      }
    }
    ok := true;
  }

  method WriteFrame(w: Writer, payload: Payload) returns (ok: bool)
    modifies w
    ensures !Allowed(payload) ==> !ok && w.out == old(w.out)
    ensures Allowed(payload) ==> old(w.out) <= w.out <= old(w.out) + Encoded(payload)
    ensures ok ==> w.out == old(w.out) + Encoded(payload)
    ensures old(w.Willing()) ==> w.Willing() && ok == Allowed(payload)
  {
    if |payload| == 0 || |payload| > MAX_FRAME_SIZE {
      return false;
    }
    ok := WriteAll(w, Header(|payload|));
    if !ok {
      return;
    }
    assert w.out == old(w.out) + Header(|payload|);
    ok := WriteAll(w, payload);
    assert old(w.out) + Header(|payload|) + payload == old(w.out) + Encoded(payload);
  }

  // ---------- reading ----------

  /**
   Why reading stopped. A stream may end between two frames, inside a header, right after one, or
   inside a body: io.ReadFull reports io.EOF for the first and third, io.ErrUnexpectedEOF otherwise.
   */
  datatype End = EndOfStream | CutHeader | NoBody | CutBody | ZeroLength | TooLarge

  /** errors.Is(err, io.EOF), which sees through the wrapping of a body error: serveConn then stops without a word. */
  predicate Silent(end: End) {
    end.EndOfStream? || end.NoBody?
  }

  datatype Parsed = Frame(payload: Payload, rest: seq<byte>) | Stop(end: End)

  /** One frame at the front of a stream. */
  function Parse(s: seq<byte>): Parsed {
    if s == [] then Stop(EndOfStream)
    else if |s| < 4 then Stop(CutHeader)
    else
      var n := FromBigEndian(s[..4]);
      if n == 0 then Stop(ZeroLength)
      else if n > MAX_FRAME_SIZE then Stop(TooLarge)
      else if |s| == 4 then Stop(NoBody)
      else if |s| < 4 + n then Stop(CutBody)
      else Frame(s[4..4 + n], s[4 + n..])
  }

  /** What the header decides: a length of 0 and one beyond 2^20 are refused, whatever follows. */
  lemma HeaderDecides(s: seq<byte>)
    requires |s| >= 4
    ensures var n := s[0] as nat * 0x100_0000 + s[1] as nat * 0x1_0000 + s[2] as nat * 0x100 + s[3] as nat;
            && (Parse(s) == Stop(ZeroLength) <==> n == 0)
            && (Parse(s) == Stop(TooLarge) <==> n > 1048576)
            && (Parse(s).Frame? <==> 1 <= n <= 1048576 && |s| >= 4 + n)
            && (Parse(s).Frame? ==> |Parse(s).payload| == n && s == s[..4] + Parse(s).payload + Parse(s).rest)
  {
    FourBytes(s[..4]);
  }

  /** All frames of a stream, up to the first one that cannot be read. */
  function ParseAll(s: seq<byte>): (seq<Payload>, End)
    decreases |s|
  {
    match Parse(s)
    case Stop(end) => ([], end)
    case Frame(p, rest) => var (ps, end) := ParseAll(rest); ([p] + ps, end)
  }

  class Reader {
    var pending: seq<byte>
    var chunks: seq<nat>

    constructor (stream: seq<byte>, chunks: seq<nat>)
      ensures pending == stream && this.chunks == chunks
    {
      pending, this.chunks := stream, chunks;
    }

    /** Delivers at least one byte, or nothing at the end of the stream. */
    method Read(max: nat) returns (got: seq<byte>)
      requires max > 0
      modifies this
      ensures |got| <= max && got + pending == old(pending)
      ensures got == [] <==> old(pending) == []
    {
      var k := if chunks == [] || chunks[0] == 0 then max else chunks[0];
      chunks := if chunks == [] then [] else chunks[1..];
      k := if k < max then k else max;
      k := if k < |pending| then k else |pending|;
      got, pending := pending[..k], pending[k..];
    }
  }

  /** io.ReadFull: the whole of `n` bytes, or what there was. */
  method ReadFull(r: Reader, n: nat) returns (got: seq<byte>)
    modifies r
    ensures got == if |old(r.pending)| < n then old(r.pending) else old(r.pending)[..n]
    ensures r.pending == if |old(r.pending)| < n then [] else old(r.pending)[n..]
  {
    got := [];
    while |got| < n
      invariant |got| <= n && got + r.pending == old(r.pending)
    {
      var more := r.Read(n - |got|);
      if more == [] {
        return;
      }
      got := got + more;
    }
  }

  method ReadFrame(r: Reader) returns (p: Parsed)
    modifies r
    ensures p == Parse(old(r.pending))
    ensures p.Frame? ==> r.pending == p.rest
  {
    var hdr := ReadFull(r, 4);
    if hdr == [] {
      return Stop(EndOfStream);
    }
    if |hdr| < 4 {
      return Stop(CutHeader);
    }
    var n := FromBigEndian(hdr);
    if n == 0 {
      return Stop(ZeroLength);
    }
    if n > MAX_FRAME_SIZE {
      return Stop(TooLarge);
    }
    var buf := ReadFull(r, n);
    if |buf| < n {
      return Stop(if buf == [] then NoBody else CutBody);
    }
    p := Frame(buf, r.pending);
  }

  /** The frames that are still to come once `p` has been read. */
  ghost function From(p: Parsed): seq<Payload> {
    if p.Frame? then [p.payload] + ParseAll(p.rest).0 else []
  }

  ghost function EndFrom(p: Parsed): End {
    if p.Frame? then ParseAll(p.rest).1 else p.end
  }

  /** `ps` has been handed on and `p` was read next. */
  ghost predicate ReadSoFar(start: seq<byte>, ps: seq<Payload>, p: Parsed) {
    ParseAll(start).0 == ps + From(p) && ParseAll(start).1 == EndFrom(p)
  }

  lemma FirstFrame(start: seq<byte>)
    ensures ParseAll(start).0 == From(Parse(start)) && ParseAll(start).1 == EndFrom(Parse(start))
  {
  }

  lemma Regroup(a: seq<Payload>, x: Payload, b: seq<Payload>)
    ensures a + ([x] + b) == a + [x] + b
  {
  }

  lemma NextFrame(start: seq<byte>, ps: seq<Payload>, p: Parsed, next: Parsed)
    requires ReadSoFar(start, ps, p) && p.Frame? && next == Parse(p.rest)
    ensures ReadSoFar(start, ps + [p.payload], next)
    ensures next.Frame? ==> |next.rest| < |p.rest|
  {
    FirstFrame(p.rest);
    Regroup(ps, p.payload, From(next));
  }

  /** The read loop of serveConn: frames are handed on until one cannot be read, and that may be logged. */
  method ReadFrames(r: Reader) returns (ps: seq<Payload>, end: End, logged: bool)
    modifies r
    ensures ps == ParseAll(old(r.pending)).0 && end == ParseAll(old(r.pending)).1
    ensures logged == !Silent(end)
  {
    ghost var start := r.pending;
    FirstFrame(start);
    ps := [];
    var p := ReadFrame(r);
    while p.Frame?
      invariant p.Frame? ==> r.pending == p.rest
      invariant ReadSoFar(start, ps, p)
      decreases if p.Frame? then |p.rest| + 1 else 0
    {
      var next := ReadFrame(r);
      NextFrame(start, ps, p, next);
      ps, p := ps + [p.payload], next;
    }
    end, logged := p.end, !p.end.EndOfStream? && !p.end.NoBody?;
  }

  // ---------- what was written is what is read ----------

  lemma ParseEncoded(p: Payload, rest: seq<byte>)
    requires Allowed(p)
    ensures Parse(Encoded(p) + rest) == Frame(p, rest)
  {
    var s := Encoded(p) + rest;
    HeaderRoundTrip(|p|);
    assert s[..4] == Header(|p|);
    assert s[4..4 + |p|] == p && s[4 + |p|..] == rest;
  }

  /** Any list of allowed payloads is read back exactly, with a clean end. */
  lemma {:induction false} RoundTrip(ps: seq<Payload>)
    requires AllAllowed(ps)
    ensures ParseAll(Stream(ps)).0 == ps && ParseAll(Stream(ps)).1 == EndOfStream
  {
    if ps != [] {
      ParseEncoded(ps[0], Stream(ps[1..]));
      RoundTrip(ps[1..]);
      FirstFrame(Stream(ps));
      assert ps == [ps[0]] + ps[1..];
    }
  }

  /** Cutting the first frame short yields no frame. */
  lemma ParseCut(p: Payload, s: seq<byte>)
    requires Allowed(p) && s <= Encoded(p) && |s| < |Encoded(p)|
    ensures Parse(s) == Stop(if s == [] then EndOfStream else if |s| < 4 then CutHeader
                             else if |s| == 4 then NoBody else CutBody)
  {
    if |s| >= 4 {
      HeaderRoundTrip(|p|);
      assert s[..4] == Encoded(p)[..4] == Header(|p|);
    }
  }

  /** The first `n` bytes end between two frames. */
  ghost predicate AtBoundary(ps: seq<Payload>, n: nat)
    requires AllAllowed(ps)
  {
    exists k :: 0 <= k <= |ps| && n == |Stream(ps[..k])|
  }

  /** They end right after a header. */
  ghost predicate AfterHeader(ps: seq<Payload>, n: nat)
    requires AllAllowed(ps)
  {
    n >= HEADER && AtBoundary(ps, n - HEADER)
  }

  lemma BoundaryInFirst(ps: seq<Payload>, n: nat)
    requires AllAllowed(ps) && ps != [] && n < |Encoded(ps[0])|
    ensures AtBoundary(ps, n) <==> n == 0
  {
    assert |Stream(ps[..0])| == 0;
  }

  lemma BoundaryShift(ps: seq<Payload>, n: nat)
    requires AllAllowed(ps) && ps != [] && n >= |Encoded(ps[0])|
    ensures AtBoundary(ps, n) <==> AtBoundary(ps[1..], n - |Encoded(ps[0])|)
  {
    if AtBoundary(ps, n) {
      var k :| 0 <= k <= |ps| && n == |Stream(ps[..k])|;
      assert ps[..k][1..] == ps[1..][..k - 1];
    }
    if AtBoundary(ps[1..], n - |Encoded(ps[0])|) {
      var k :| 0 <= k <= |ps[1..]| && n - |Encoded(ps[0])| == |Stream(ps[1..][..k])|;
      assert ps[..k + 1][1..] == ps[1..][..k];
      assert n == |Stream(ps[..k + 1])|;
    }
  }

  /**
   However the stream is cut, only frames that were written come out, in order from the first. The
   reader sees the end of the stream exactly when the cut is between two frames, and a missing body
   exactly when it is right after a header; anywhere else it sees a frame cut in two.
   */
  lemma {:induction false} Truncation(ps: seq<Payload>, n: nat)
    requires AllAllowed(ps) && n <= |Stream(ps)|
    ensures var (got, end) := ParseAll(Stream(ps)[..n]);
            && got <= ps
            && (end == EndOfStream <==> AtBoundary(ps, n))
            && (end == NoBody <==> AfterHeader(ps, n))
            && !end.ZeroLength? && !end.TooLarge?
  {
    if ps == [] {
      assert n == |Stream(ps[..0])|;
    } else {
      var first, rest := Encoded(ps[0]), Stream(ps[1..]);
      if n < |first| {
        CutInFirst(ps, n);
      } else {
        assert Stream(ps)[..n] == first + rest[..n - |first|];
        ParseEncoded(ps[0], rest[..n - |first|]);
        Truncation(ps[1..], n - |first|);
        AfterHeaderShift(ps, n);
        BoundaryShift(ps, n);
        FirstFrame(Stream(ps)[..n]);
        assert ps == [ps[0]] + ps[1..];
      }
    }
  }

  lemma CutInFirst(ps: seq<Payload>, n: nat)
    requires AllAllowed(ps) && ps != [] && n < |Encoded(ps[0])|
    ensures n <= |Stream(ps)|
    ensures var (got, end) := ParseAll(Stream(ps)[..n]);
            && got == [] && (end == EndOfStream <==> AtBoundary(ps, n)) && (end == NoBody <==> AfterHeader(ps, n))
            && !end.ZeroLength? && !end.TooLarge?
  {
    var first := Encoded(ps[0]);
    assert Stream(ps)[..n] == first[..n];
    ParseCut(ps[0], first[..n]);
    BoundaryInFirst(ps, n);
    if n >= HEADER {
      BoundaryInFirst(ps, n - HEADER);
    }
  }

  lemma AfterHeaderShift(ps: seq<Payload>, n: nat)
    requires AllAllowed(ps) && ps != [] && n >= |Encoded(ps[0])|
    ensures AfterHeader(ps, n) <==> AfterHeader(ps[1..], n - |Encoded(ps[0])|)
  {
    if n - HEADER < |Encoded(ps[0])| {
      BoundaryInFirst(ps, n - HEADER);
    } else {
      BoundaryShift(ps, n - HEADER);
    }
  }

  /** So serveConn ends without a word exactly at a frame boundary or right after a header. */
  lemma SilentIff(ps: seq<Payload>, n: nat)
    requires AllAllowed(ps) && n <= |Stream(ps)|
    ensures Silent(ParseAll(Stream(ps)[..n]).1) <==> AtBoundary(ps, n) || AfterHeader(ps, n)
  {
    Truncation(ps, n);
  }

  /** The second case is real: a stream that breaks off after its first header has lost a frame silently. */
  lemma HeaderOnlyIsSilent(p: Payload)
    requires Allowed(p)
    ensures ParseAll(Stream([p])[..HEADER]).0 == [] && Silent(ParseAll(Stream([p])[..HEADER]).1)
    ensures !AtBoundary([p], HEADER)
  {
    assert Stream([p]) == Encoded(p) + [];
    assert Stream([p])[..HEADER] == Encoded(p)[..HEADER];
    ParseCut(p, Encoded(p)[..HEADER]);
    BoundaryInFirst([p], HEADER);
  }

  /** Both sides together, for any behaviour of writer and reader that makes progress. */
  method Transfer(ps: seq<Payload>, answers: seq<Answer>, chunks: seq<nat>) returns (got: seq<Payload>, end: End)
    requires AllAllowed(ps)
    requires forall i :: 0 <= i < |answers| ==> answers[i].ok && answers[i].n > 0
    ensures got == ps && end == EndOfStream
  {
    var w := new Writer(answers);
    for i := 0 to |ps|
      invariant w.Willing() && w.out == Stream(ps[..i])
    {
      StreamSnoc(ps, i);
      var ok := WriteFrame(w, ps[i]);
    }
    assert ps[..|ps|] == ps;
    RoundTrip(ps);
    var r := new Reader(w.out, chunks);
    var logged;
    got, end, logged := ReadFrames(r);
  }

  lemma {:induction false} StreamSnoc(ps: seq<Payload>, i: nat)
    requires AllAllowed(ps) && i < |ps|
    ensures Stream(ps[..i + 1]) == Stream(ps[..i]) + Encoded(ps[i])
    decreases |ps|
  {
    if i == 0 {
      assert ps[..1][1..] == [];
    } else {
      StreamSnoc(ps[1..], i - 1);
      assert ps[1..][..i] == ps[..i + 1][1..] && ps[1..][..i - 1] == ps[..i][1..];
    }
  }
}
