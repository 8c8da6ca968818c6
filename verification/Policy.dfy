/**
 daemon/internal/pipeline/disclosure_policy.go: parsing, rendering and deciding disclosure policies.

 Strings are sequences of Unicode characters. Of lower-casing only what can produce an ASCII
 character matters, because its result is only ever compared with ASCII keywords.
 */
module Policy {
  datatype Policy = Off | All | High | Allowlist(types: set<string>)

  datatype ParseError = EmptyType | Reserved(token: string)

  datatype Result = Parsed(policy: Policy) | Rejected(error: ParseError)

  datatype Risk = Low | Medium | HighRisk | Critical

  // ---------- library functions on strings ----------

  /** unicode.IsSpace. */
  predicate IsSpace(c: char) {
    var n := c as int;
    (9 <= n <= 13) || n == 0x20 || n == 0x85 || n == 0xA0 || n == 0x1680 || (0x2000 <= n <= 0x200A) ||
    n == 0x2028 || n == 0x2029 || n == 0x202F || n == 0x205F || n == 0x3000
  }

  function TrimLeft(s: string): string {
    if s != "" && IsSpace(s[0]) then TrimLeft(s[1..]) else s
  }

  function TrimRight(s: string): string {
    if s != "" && IsSpace(s[|s| - 1]) then TrimRight(s[..|s| - 1]) else s
  }

  function Trim(s: string): string {
    TrimRight(TrimLeft(s))
  }

  /** unicode.ToLower where it matters: ASCII letters, and the two other characters with ASCII lower case. */
  function LowerChar(c: char): char {
    if 'A' <= c <= 'Z' then (c as int + 32) as char
    else if c as int == 0x130 then 'i'
    else if c as int == 0x212A then 'k'
    else c
  }

  function Lower(s: string): string {
    if s == "" then "" else [LowerChar(s[0])] + Lower(s[1..])
  }

  /** `d` is the lower-case form of `c`. */
  predicate LowersTo(c: char, d: char) {
    if 'A' <= c <= 'Z' then d as int - 'a' as int == c as int - 'A' as int
    else if c as int == 0x130 then d == 'i'
    else if c as int == 0x212A then d == 'k'
    else d == c
  }

  /** `s` is a spelling of `word`, position by position. */
  predicate Spells(s: string, word: string) {
    |s| == |word| && forall i :: 0 <= i < |s| ==> LowersTo(s[i], word[i])
  }

  /** Lower-casing undoes every spelling, and nothing else has that result; no ASCII capital is left. */
  lemma {:induction false} LowerIff(s: string, word: string)
    ensures Lower(s) == word <==> Spells(s, word)
    ensures forall c :: c in Lower(s) ==> !('A' <= c <= 'Z')
  {
    if s != "" {
      LowerIff(s[1..], if word == "" then "" else word[1..]);
      if word != "" {
        assert Spells(s, word) <==> LowersTo(s[0], word[0]) && Spells(s[1..], word[1..]) by {
          assert forall i :: 1 <= i < |s| ==> s[i] == s[1..][i - 1];
          assert forall i :: 1 <= i < |word| ==> word[i] == word[1..][i - 1];
        }
        assert word == [word[0]] + word[1..];
      }
    }
  }

  /** In particular `s` may have any ASCII letters of a lower-case word as capitals. */
  predicate DiffersInCase(s: string, word: string) {
    |s| == |word| && forall i :: 0 <= i < |s| ==>
      s[i] == word[i] || ('a' <= word[i] <= 'z' && s[i] as int == word[i] as int - 32)
  }

  predicate IsLowerCase(word: string) {
    forall i :: 0 <= i < |word| ==> ' ' <= word[i] <= '~' && !('A' <= word[i] <= 'Z')
  }

  lemma CaseIsASpelling(s: string, word: string)
    requires IsLowerCase(word) && DiffersInCase(s, word)
    ensures Spells(s, word) && Lower(s) == word
  {
    forall i | 0 <= i < |s| ensures LowersTo(s[i], word[i]) {
      assert ' ' <= word[i] <= '~';
    }
    LowerIff(s, word);
  }

  /** strings.Split(s, ","). */
  function Split(s: string): (ts: seq<string>)
    ensures ts != []
  {
    if s == "" then [""]
    else
      var rest := Split(s[1..]);
      if s[0] == ',' then [""] + rest else [[s[0]] + rest[0]] + rest[1..]
  }

  /** strings.Join(ts, ","). */
  function Join(ts: seq<string>): string {
    if ts == [] then "" else if |ts| == 1 then ts[0] else ts[0] + "," + Join(ts[1..])
  }

  // ---------- parsing ----------

  const OFF_WORDS := {"", "false", "off", "0"}
  const ALL_WORDS := {"true", "all", "1"}
  const RESERVED := {"true", "false", "all", "off", "high", "0", "1"}

  /** What one entry of the list must be, once trimmed. */
  predicate GoodToken(t: string) {
    t != "" && Lower(t) !in RESERVED
  }

  /** The first entry that is refused, or the set of all entries. */
  function ParseList(ts: seq<string>): Result {
    if ts == [] then Parsed(Allowlist({}))
    else
      var t := Trim(ts[0]);
      if t == "" then Rejected(EmptyType)
      else if Lower(t) in RESERVED then Rejected(Reserved(t))
      else match ParseList(ts[1..])
        case Parsed(Allowlist(types)) => Parsed(Allowlist({t} + types))
        case r => r
  }

  function Parse(s: string): Result {
    var word := Lower(Trim(s));
    if word in OFF_WORDS then Parsed(Off)
    else if word in ALL_WORDS then Parsed(All)
    else if word == "high" then Parsed(High)
    else ParseList(Split(s))
  }

  method ParseDisclosurePolicy(s: string) returns (r: Result)
    ensures r == Parse(s)
  {
    var word := Lower(Trim(s));
    if word in OFF_WORDS {
      return Parsed(Off);
    }
    if word in ALL_WORDS {
      return Parsed(All);
    }
    if word == "high" {
      return Parsed(High);
    }
    var ts, allow := Split(s), {};
    for i := 0 to |ts|
      invariant ParseList(ts) == With(allow, ParseList(ts[i..]))
    {
      assert ts[i..][0] == ts[i] && ts[i..][1..] == ts[i + 1..];
      var t := Trim(ts[i]);
      if t == "" {
        return Rejected(EmptyType);
      }
      if Lower(t) in RESERVED {
        return Rejected(Reserved(t));
      }
      assert With(allow, ParseList(ts[i..])) == With(allow + {t}, ParseList(ts[i + 1..])) by {
        ListStep(allow, t, ParseList(ts[i + 1..]));
      }
      allow := allow + {t};
    }
    SomethingParsed(ts);
    assert ts[|ts|..] == [];
    r := Parsed(Allowlist(allow));
  }

  /** The result of the whole list, given what has been collected already. */
  ghost function With(allow: set<string>, r: Result): Result {
    match r
    case Parsed(Allowlist(types)) => Parsed(Allowlist(allow + types))
    case _ => r
  }

  lemma ListStep(allow: set<string>, t: string, r: Result)
    ensures With(allow, With({t}, r)) == With(allow + {t}, r)
  {
    if r.Parsed? && r.policy.Allowlist? {
      assert allow + ({t} + r.policy.types) == allow + {t} + r.policy.types;
    }
  }

  /** So the check for an empty allowlist after the loop never fires. */
  lemma SomethingParsed(ts: seq<string>)
    requires ts != [] && ParseList(ts).Parsed?
    ensures ParseList(ts).policy.Allowlist? && ParseList(ts).policy.types != {}
  {
    assert Trim(ts[0]) in ParseList(ts).policy.types;
  }

  // ---------- deciding ----------

  function ShouldDisclose(p: Policy, action: string, risk: Risk): bool {
    match p
    case Off => false
    case All => true
    case High => risk.HighRisk? || risk.Critical?
    case Allowlist(types) => action in types
  }

  predicate Enabled(p: Policy) {
    !p.Off?
  }

  // ---------- rendering ----------

  /** Byte order of UTF-8 is code point order. */
  predicate Less(a: string, b: string) {
    b != "" && (a == "" || a[0] < b[0] || (a[0] == b[0] && Less(a[1..], b[1..])))
  }

  predicate Sorted(ts: seq<string>) {
    forall i, j :: 0 <= i < j < |ts| ==> Less(ts[i], ts[j])
  }

  function Elements(ts: seq<string>): set<string> {
    set t | t in ts
  }

  /** The first difference decides, and a proper prefix comes first. */
  lemma {:induction false} LessIff(a: string, b: string)
    ensures Less(a, b) <==> exists i :: DecidesAt(a, b, i)
    decreases |b|
  {
    if b != "" && a != "" && a[0] == b[0] {
      LessIff(a[1..], b[1..]);
      if i :| DecidesAt(a[1..], b[1..], i) {
        assert a[..i + 1] == [a[0]] + a[1..][..i] && b[..i + 1] == [b[0]] + b[1..][..i];
        assert DecidesAt(a, b, i + 1);
      }
      if i :| DecidesAt(a, b, i) {
        assert i > 0 && a[1..][..i - 1] == a[..i][1..] && b[1..][..i - 1] == b[..i][1..];
        assert DecidesAt(a[1..], b[1..], i - 1);
      }
    } else {
      forall i | DecidesAt(a, b, i) ensures Less(a, b) {
        DecidesFirst(a, b, i);
      }
      var first := 0;
      assert Less(a, b) ==> DecidesAt(a, b, first);
    }
  }

  lemma DecidesFirst(a: string, b: string, i: int)
    requires DecidesAt(a, b, i)
    ensures a == "" || a[0] < b[0] || (i > 0 && a[0] == b[0])
  {
    if i > 0 {
      assert a[0] == a[..i][0] && b[0] == b[..i][0];
    }
  }

  predicate DecidesAt(a: string, b: string, i: int) {
    0 <= i < |b| && i <= |a| && a[..i] == b[..i] && (i == |a| || a[i] < b[i])
  }

  lemma {:induction false} LessIsTotal(a: string, b: string)
    ensures Less(a, b) || a == b || Less(b, a)
    ensures !(Less(a, b) && Less(b, a)) && !Less(a, a)
  {
    if a != "" && b != "" && a[0] == b[0] {
      LessIsTotal(a[1..], b[1..]);
      assert a == [a[0]] + a[1..] && b == [b[0]] + b[1..];
    }
    if a != "" {
      LessIsTotal(a[1..], a[1..]);
    }
  }

  lemma {:induction false} LessIsTransitive(a: string, b: string, c: string)
    requires Less(a, b) && Less(b, c)
    ensures Less(a, c)
  {
    if a != "" && a[0] == b[0] && b[0] == c[0] {
      LessIsTransitive(a[1..], b[1..], c[1..]);
    }
  }

  /** Inserting into a sorted list, at the place where it belongs. */
  method Insert(ts: seq<string>, t: string) returns (r: seq<string>)
    requires Sorted(ts) && t !in ts
    ensures Sorted(r) && Elements(r) == Elements(ts) + {t}
  {
    var i := 0;
    while i < |ts| && Less(ts[i], t)
      invariant 0 <= i <= |ts| && forall j :: 0 <= j < i ==> Less(ts[j], t)
    {
      i := i + 1;
    }
    r := ts[..i] + [t] + ts[i..];
    if i < |ts| {
      LessIsTotal(ts[i], t);
      assert ts[i] in ts;
    }
    forall j | i <= j < |ts| ensures Less(t, ts[j]) {
      if i < j {
        LessIsTransitive(t, ts[i], ts[j]);
      }
    }
    assert Elements(r) == Elements(ts) + {t} by {
      InsertElements(ts, i, t);
    }
  }

  lemma InsertElements(ts: seq<string>, i: nat, t: string)
    requires i <= |ts|
    ensures Elements(ts[..i] + [t] + ts[i..]) == Elements(ts) + {t}
  {
    var r := ts[..i] + [t] + ts[i..];
    forall x ensures x in r <==> x in ts || x == t {
      if x in ts {
        var j :| 0 <= j < |ts| && ts[j] == x;
        assert r[if j < i then j else j + 1] == x;
      }
      assert r[i] == t;
    }
  }

  /** What String renders: keywords, or the sorted types with commas between them. */
  ghost predicate Renders(p: Policy, s: string) {
    match p
    case Off => s == "off"
    case All => s == "all"
    case High => s == "high"
    case Allowlist(types) => exists ts :: Sorted(ts) && Elements(ts) == types && s == Join(ts)
  }

  method String(p: Policy) returns (s: string)
    ensures Renders(p, s)
  {
    match p
    case Off => s := "off";
    case All => s := "all";
    case High => s := "high";
    case Allowlist(types) =>
      var ts, rest := [], types;
      while rest != {}
        invariant Sorted(ts) && rest !! Elements(ts) && Elements(ts) + rest == types
        decreases |rest|
      {
        var t :| t in rest;
        ts := Insert(ts, t);
        rest := rest - {t};
      }
      s := Join(ts);
  }

  /** The rendering does not depend on the order in which the map is walked. */
  lemma RenderingIsStable(p: Policy, s1: string, s2: string)
    requires Renders(p, s1) && Renders(p, s2)
    ensures s1 == s2
  {
    if p.Allowlist? {
      var t1 :| Sorted(t1) && Elements(t1) == p.types && s1 == Join(t1);
      var t2 :| Sorted(t2) && Elements(t2) == p.types && s2 == Join(t2);
      SortedIsUnique(t1, t2);
    }
  }

  lemma {:induction false} SortedIsUnique(a: seq<string>, b: seq<string>)
    requires Sorted(a) && Sorted(b) && Elements(a) == Elements(b)
    ensures a == b
    decreases |a|
  {
    assert a != [] ==> a[0] in Elements(a);
    assert b != [] ==> b[0] in Elements(b);
    if a != [] && b != [] {
      assert a[0] in b && b[0] in a;
      LessIsTotal(a[0], b[0]);
      assert a[0] == b[0];
      TailElements(a);
      TailElements(b);
      SortedIsUnique(a[1..], b[1..]);
    }
  }

  lemma TailElements(a: seq<string>)
    requires Sorted(a) && a != []
    ensures Elements(a[1..]) == Elements(a) - {a[0]} && Sorted(a[1..])
  {
    LessIsTotal(a[0], a[0]);
    assert a == [a[0]] + a[1..];
  }

  // ---------- the round trip ----------

  predicate NoComma(t: string) {
    ',' !in t
  }

  predicate Trimmed(t: string) {
    t != "" ==> !IsSpace(t[0]) && !IsSpace(t[|t| - 1])
  }

  /** The entries that parsing produces. */
  predicate Entry(t: string) {
    GoodToken(t) && NoComma(t) && Trimmed(t)
  }

  lemma {:induction false} TrimRightFacts(s: string)
    ensures TrimRight(s) <= s && (TrimRight(s) != "" ==> !IsSpace(TrimRight(s)[|TrimRight(s)| - 1]))
    ensures forall c :: c in s && !IsSpace(c) ==> c in TrimRight(s)
    decreases |s|
  {
    if s != "" && IsSpace(s[|s| - 1]) {
      TrimRightFacts(s[..|s| - 1]);
      assert s == s[..|s| - 1] + [s[|s| - 1]];
    }
  }

  lemma {:induction false} TrimLeftFacts(s: string)
    ensures (forall c :: c in TrimLeft(s) ==> c in s) && (TrimLeft(s) != "" ==> !IsSpace(TrimLeft(s)[0]))
    ensures forall c :: c in s && !IsSpace(c) ==> c in TrimLeft(s)
    decreases |s|
  {
    if s != "" && IsSpace(s[0]) {
      TrimLeftFacts(s[1..]);
      assert s == [s[0]] + s[1..];
    }
  }

  lemma TrimFacts(s: string)
    ensures Trimmed(Trim(s)) && (NoComma(s) ==> NoComma(Trim(s)))
    ensures forall c :: c in s && !IsSpace(c) ==> c in Trim(s)
    ensures Trimmed(s) ==> Trim(s) == s
  {
    TrimLeftFacts(s);
    TrimRightFacts(TrimLeft(s));
  }

  lemma {:induction false} SplitHasNoCommas(s: string)
    ensures forall i :: 0 <= i < |Split(s)| ==> NoComma(Split(s)[i])
  {
    if s != "" {
      SplitHasNoCommas(s[1..]);
    }
  }

  lemma {:induction false} SplitFront(t: string, rest: string)
    requires NoComma(t)
    ensures Split(t) == [t]
    ensures Split(t + ("," + rest)) == [t] + Split(rest)
  {
    if t == "" {
      assert ("," + rest)[1..] == rest && t + ("," + rest) == "," + rest;
    } else {
      var u := t[1..];
      SplitFront(u, rest);
      assert t == [t[0]] + u && (t + ("," + rest))[1..] == u + ("," + rest);
      assert t[0] in t;
    }
  }

  lemma {:induction false} SplitJoin(ts: seq<string>)
    requires ts != [] && forall i :: 0 <= i < |ts| ==> NoComma(ts[i])
    ensures Split(Join(ts)) == ts
  {
    if |ts| == 1 {
      SplitFront(ts[0], "");
    } else {
      SplitJoin(ts[1..]);
      SplitFront(ts[0], Join(ts[1..]));
      assert ts[0] + "," + Join(ts[1..]) == ts[0] + ("," + Join(ts[1..]));
    }
  }

  lemma {:induction false} ParseListFacts(ts: seq<string>)
    requires forall i :: 0 <= i < |ts| ==> NoComma(ts[i])
    ensures ParseList(ts).Parsed? ==>
            ParseList(ts).policy.Allowlist? && forall t :: t in ParseList(ts).policy.types ==> Entry(t)
  {
    if ts != [] {
      ParseListFacts(ts[1..]);
      TrimFacts(ts[0]);
    }
  }

  lemma {:induction false} ParseEntries(ts: seq<string>)
    requires forall i :: 0 <= i < |ts| ==> Entry(ts[i])
    ensures ParseList(ts) == Parsed(Allowlist(Elements(ts)))
  {
    if ts == [] {
      assert Elements(ts) == {};
    } else {
      ParseEntries(ts[1..]);
      assert Entry(ts[0]);
      TrimFacts(ts[0]);
      ConsElements(ts);
    }
  }

  lemma ConsElements(ts: seq<string>)
    requires ts != []
    ensures Elements(ts) == {ts[0]} + Elements(ts[1..])
  {
    assert ts == [ts[0]] + ts[1..];
  }

  lemma {:induction false} LowerKeepsCommas(s: string)
    ensures ',' in s ==> ',' in Lower(s)
  {
    if s != "" {
      LowerKeepsCommas(s[1..]);
      assert s == [s[0]] + s[1..];
    }
  }

  lemma {:induction false} LowerLength(s: string)
    ensures |Lower(s)| == |s|
    ensures (forall c :: c in s ==> LowerChar(c) == c) ==> Lower(s) == s
  {
    if s != "" {
      LowerLength(s[1..]);
      assert s == [s[0]] + s[1..];
    }
  }

  /** The words the parser recognises are the reserved ones and the empty one. */
  lemma WordsAreReserved(w: string)
    ensures w in OFF_WORDS || w in ALL_WORDS || w == "high" <==> w == "" || w in RESERVED
    ensures w in RESERVED ==> ',' !in w
  {
  }

  /** A list of entries, joined, is not taken for a keyword. */
  lemma JoinedIsNoKeyword(ts: seq<string>)
    requires ts != [] && forall i :: 0 <= i < |ts| ==> Entry(ts[i])
    ensures Lower(Trim(Join(ts))) != "" && Lower(Trim(Join(ts))) !in RESERVED
  {
    var s := Join(ts);
    TrimFacts(s);
    LowerLength(Trim(s));
    assert Entry(ts[0]);
    if |ts| > 1 {
      CommaInJoin(ts);
      LowerKeepsCommas(Trim(s));
      WordsAreReserved(Lower(Trim(s)));
    }
  }

  lemma CommaInJoin(ts: seq<string>)
    requires |ts| > 1
    ensures ',' in Join(ts) && ',' in Trim(Join(ts))
  {
    assert Join(ts)[|ts[0]|] == ',';
    assert !IsSpace(',');
    TrimFacts(Join(ts));
  }

  // ---------- what is parsed to what ----------

  predicate Blank(s: string) {
    forall i :: 0 <= i < |s| ==> IsSpace(s[i])
  }

  /** Trimming removes white space at both ends, all of it and nothing else. */
  lemma TrimIs(s: string) returns (front: string, back: string)
    ensures Blank(front) && Blank(back) && s == front + Trim(s) + back && Trimmed(Trim(s))
  {
    front := TrimLeftIs(s);
    back := TrimRightIs(TrimLeft(s));
    TrimFacts(s);
  }

  lemma {:induction false} TrimLeftIs(s: string) returns (front: string)
    ensures Blank(front) && s == front + TrimLeft(s)
  {
    front := "";
    if s != "" && IsSpace(s[0]) {
      var rest := TrimLeftIs(s[1..]);
      front := [s[0]] + rest;
      assert s == [s[0]] + s[1..];
    }
  }

  lemma {:induction false} TrimRightIs(s: string) returns (back: string)
    ensures Blank(back) && s == TrimRight(s) + back
    decreases |s|
  {
    back := "";
    if s != "" && IsSpace(s[|s| - 1]) {
      var rest := TrimRightIs(s[..|s| - 1]);
      back := rest + [s[|s| - 1]];
      assert s == s[..|s| - 1] + [s[|s| - 1]];
    }
  }

  /** The words for the three policies without a list. */
  function KeywordsOf(p: Policy): set<string> {
    match p
    case Off => {"", "false", "off", "0"}
    case All => {"true", "all", "1"}
    case High => {"high"}
    case Allowlist(_) => {}
  }

  ghost predicate SpellsKeyword(s: string, p: Policy) {
    exists w :: w in KeywordsOf(p) && Spells(Trim(s), w)
  }

  /** A text means one of these policies exactly if it is one of its words, in any spelling, with white space around. */
  lemma KeywordIff(s: string, p: Policy)
    requires !p.Allowlist?
    ensures Parse(s) == Parsed(p) <==> SpellsKeyword(s, p)
  {
    LowerIff(Trim(s), Lower(Trim(s)));
    forall w ensures Spells(Trim(s), w) <==> Lower(Trim(s)) == w {
      LowerIff(Trim(s), w);
    }
    if Parse(s) == Parsed(p) {
      NoKeywordFromList(Split(s));
      assert Lower(Trim(s)) in KeywordsOf(p);
    }
  }

  lemma NoKeywordFromList(ts: seq<string>)
    ensures ParseList(ts).Parsed? ==> ParseList(ts).policy.Allowlist?
  {
  }

  /** What is wrong with an entry of a list: there is none, or it is a keyword, in any spelling. */
  ghost predicate BadEntry(entry: string) {
    Trim(entry) == "" || exists p: Policy :: SpellsKeyword(entry, p)
  }

  lemma BadEntryIff(entry: string)
    ensures BadEntry(entry) <==> !GoodToken(Trim(entry))
  {
    var t := Trim(entry);
    forall w ensures Spells(t, w) <==> Lower(t) == w {
      LowerIff(t, w);
    }
    LowerLength(t);
    forall p: Policy | Lower(t) in KeywordsOf(p) ensures !GoodToken(t) {
      KeywordsAreReserved(p, Lower(t));
    }
    if !GoodToken(t) && t != "" {
      var p := if Lower(t) in KeywordsOf(Off) then Off else if Lower(t) in KeywordsOf(All) then All else High;
      assert Lower(t) in KeywordsOf(p) && Spells(t, Lower(t));
      assert SpellsKeyword(entry, p);
    }
  }

  lemma KeywordsAreReserved(p: Policy, w: string)
    requires w in KeywordsOf(p)
    ensures w == "" || w in RESERVED
  {
  }

  function Entries(ts: seq<string>): set<string> {
    set i | 0 <= i < |ts| :: Trim(ts[i])
  }

  /** Entry `i` is the first bad one, and `e` says what is wrong with it. */
  ghost predicate FirstBad(ts: seq<string>, i: int, e: ParseError) {
    && 0 <= i < |ts| && BadEntry(ts[i]) && (forall j :: 0 <= j < i ==> !BadEntry(ts[j]))
    && e == if Trim(ts[i]) == "" then EmptyType else Reserved(Trim(ts[i]))
  }

  ghost predicate ListMeans(ts: seq<string>, r: Result) {
    match r
    case Parsed(p) => p == Allowlist(Entries(ts)) && forall i :: 0 <= i < |ts| ==> !BadEntry(ts[i])
    case Rejected(e) => exists i :: FirstBad(ts, i, e)
  }

  /** A list is refused for its first bad entry, or else it is the set of its entries. */
  lemma {:induction false} ListIs(ts: seq<string>)
    ensures ListMeans(ts, ParseList(ts))
  {
    if ts != [] {
      ListIs(ts[1..]);
      BadEntryIff(ts[0]);
      assert forall i :: 1 <= i < |ts| ==> ts[i] == ts[1..][i - 1];
      match ParseList(ts)
      case Parsed(p) => EntriesCons(ts);
      case Rejected(e) =>
        if BadEntry(ts[0]) {
          var first := 0;
          assert FirstBad(ts, first, e);
        } else {
          var i :| FirstBad(ts[1..], i, e);
          assert FirstBad(ts, i + 1, e);
        }
    }
  }

  lemma EntriesCons(ts: seq<string>)
    requires ts != []
    ensures Entries(ts) == {Trim(ts[0])} + Entries(ts[1..])
  {
    forall t | t in Entries(ts) ensures t in {Trim(ts[0])} + Entries(ts[1..]) {
      var i :| 0 <= i < |ts| && Trim(ts[i]) == t;
      assert i > 0 ==> ts[1..][i - 1] == ts[i];
    }
    forall t | t in {Trim(ts[0])} + Entries(ts[1..]) ensures t in Entries(ts) {
      if t != Trim(ts[0]) {
        var i :| 0 <= i < |ts[1..]| && Trim(ts[1..][i]) == t;
        assert ts[i + 1] == ts[1..][i];
      }
    }
  }

  lemma {:induction false} JoinSplit(s: string)
    ensures Join(Split(s)) == s
  {
    if s != "" {
      JoinSplit(s[1..]);
      var rest := Split(s[1..]);
      assert s == [s[0]] + s[1..];
      if s[0] == ',' {
        assert Join([""] + rest) == "" + "," + Join(rest);
        assert ([""] + rest)[1..] == rest;
      } else {
        var ts := [[s[0]] + rest[0]] + rest[1..];
        if |rest| > 1 {
          assert ts[1..] == rest[1..];
          assert [s[0]] + rest[0] + "," + Join(rest[1..]) == [s[0]] + (rest[0] + "," + Join(rest[1..]));
        }
      }
    }
  }

  /** Splitting cuts at every comma and nowhere else. */
  lemma SplitIff(s: string, ts: seq<string>)
    ensures ts == Split(s) <==> ts != [] && (forall i :: 0 <= i < |ts| ==> NoComma(ts[i])) && Join(ts) == s
  {
    JoinSplit(s);
    SplitHasNoCommas(s);
    if ts != [] && (forall i :: 0 <= i < |ts| ==> NoComma(ts[i])) && Join(ts) == s {
      SplitJoin(ts);
    }
  }

  /**
   What a text is parsed to, told without the parser; `ts` are its pieces between commas. If it spells a keyword it
   is that policy, and otherwise it is a list.
   */
  lemma ParseIs(s: string, ts: seq<string>)
    requires ts != [] && (forall i :: 0 <= i < |ts| ==> NoComma(ts[i])) && Join(ts) == s
    ensures if exists p: Policy :: SpellsKeyword(s, p) then Parse(s).Parsed? && SpellsKeyword(s, Parse(s).policy)
            else ListMeans(ts, Parse(s))
  {
    SplitIff(s, ts);
    ListIs(ts);
    if p: Policy :| SpellsKeyword(s, p) {
      KeywordIff(s, p);
    } else {
      KeywordIff(s, Off);
      KeywordIff(s, All);
      KeywordIff(s, High);
      assert Parse(s) == ParseList(Split(s));
    }
  }

  /** What each policy discloses. */
  lemma DisclosedIff(p: Policy, action: string, risk: Risk)
    ensures ShouldDisclose(p, action, risk) <==>
              p == All || (p == High && risk in {HighRisk, Critical}) || (p.Allowlist? && action in p.types)
  {
  }

  /** The policies that can be parsed: the three keywords, and non-empty sets of proper entries. */
  predicate Parsable(p: Policy) {
    p.Allowlist? ==> p.types != {} && forall t :: t in p.types ==> Entry(t)
  }

  lemma ParseGivesParsable(s: string)
    requires Parse(s).Parsed?
    ensures Parsable(Parse(s).policy)
  {
    if Parse(s).policy.Allowlist? {
      SplitHasNoCommas(s);
      ParseListFacts(Split(s));
      SomethingParsed(Split(s));
    }
  }

  /** Rendering a policy and parsing it again gives the policy back, exactly for the parsable ones. */
  lemma RenderThenParse(p: Policy, s: string)
    requires Renders(p, s)
    ensures Parse(s) == Parsed(p) <==> Parsable(p)
  {
    if Parse(s) == Parsed(p) {
      ParseGivesParsable(s);
    }
    if Parsable(p) {
      match p
      case Allowlist(types) =>
        var ts :| Sorted(ts) && Elements(ts) == types && s == Join(ts);
        forall i | 0 <= i < |ts| ensures Entry(ts[i]) {
          assert ts[i] in Elements(ts);
        }
        JoinedIsNoKeyword(ts);
        WordsAreReserved(Lower(Trim(s)));
        SplitJoin(ts);
        ParseEntries(ts);
      case _ => KeywordParses(p, s);
    }
  }

  lemma WordSets(w: string)
    ensures w == "off" ==> w in OFF_WORDS
    ensures w == "all" ==> w !in OFF_WORDS && w in ALL_WORDS
    ensures w == "high" ==> w !in OFF_WORDS && w !in ALL_WORDS
    ensures w == "off" || w == "all" || w == "high" ==> forall c :: c in w ==> 'a' <= c <= 'z'
  {
  }

  lemma KeywordParses(p: Policy, s: string)
    requires !p.Allowlist? && Renders(p, s)
    ensures Parse(s) == Parsed(p)
  {
    WordSets(s);
    LowerWord(s);
  }

  lemma LowerWord(w: string)
    requires forall c :: c in w ==> 'a' <= c <= 'z'
    ensures Lower(Trim(w)) == w
  {
    assert Trimmed(w) by {
      if w != "" {
        assert w[0] in w && w[|w| - 1] in w;
      }
    }
    TrimFacts(w);
    LowerLength(w);
  }

  /** So what was parsed survives rendering and parsing, and decides every action and risk as before. */
  lemma RoundTrip(s: string, rendered: string, action: string, risk: Risk)
    requires Parse(s).Parsed? && Renders(Parse(s).policy, rendered)
    ensures Parse(rendered) == Parse(s)
    ensures ShouldDisclose(Parse(rendered).policy, action, risk) == ShouldDisclose(Parse(s).policy, action, risk)
  {
    ParseGivesParsable(s);
    RenderThenParse(Parse(s).policy, rendered);
  }

  /** A parsed policy counts as enabled exactly when some action would be disclosed. */
  lemma EnabledIffSomethingDisclosed(s: string)
    requires Parse(s).Parsed?
    ensures Enabled(Parse(s).policy) <==> exists action, risk :: ShouldDisclose(Parse(s).policy, action, risk)
  {
    ParseGivesParsable(s);
    var p := Parse(s).policy;
    match p
    case Off =>
    case All => assert ShouldDisclose(p, "", Low);
    case High => assert ShouldDisclose(p, "", Critical);
    case Allowlist(types) =>
      var t :| t in types;
      assert ShouldDisclose(p, t, Low);
  }
}
