/**
 advanceChainID in daemon/daemon.go: the id under which the daemon continues when a chain is
 terminal. The 64-bit int of Go is explicit: a suffix beyond its range is no counter,
 and the largest counter wraps to the smallest int when it is incremented.
 */
module ChainId {
  import opened Receipts

  /** The largest int; the smallest is -MaxInt() - 1. */
  function MaxInt(): (m: nat)
    ensures m >= 2
  {
    9223372036854775807
  }

  const DIGITS := "0123456789"

  /** strconv.Itoa on a non-negative number. */
  function Itoa(n: nat): (s: string)
    ensures s != []
  {
    if n < 10 then [DIGITS[n]] else Itoa(n / 10) + [DIGITS[n % 10]]
  }

  predicate IsDigit(c: char) {
    '0' <= c <= '9'
  }

  predicate AllDigits(s: string) {
    forall i :: 0 <= i < |s| ==> IsDigit(s[i])
  }

  function ValueOf(s: string): nat
    requires AllDigits(s)
  {
    if s == [] then 0 else 10 * ValueOf(s[..|s| - 1]) + (s[|s| - 1] as int - '0' as int)
  }

  function Negated(n: int): int {
    -n
  }

  /** strconv.Atoi: an optional sign, at least one digit, and a value in the range of int. */
  function Atoi(s: string): Option<int> {
    if s == "" then None
    else if s[0] == '-' || s[0] == '+' then
      var d := s[1..];
      if d == "" || !AllDigits(d) then None
      else if s[0] == '+' then (if ValueOf(d) <= MaxInt() then Some(ValueOf(d)) else None)
      else if ValueOf(d) <= MaxInt() + 1 then Some(Negated(ValueOf(d))) else None
    else if !AllDigits(s) then None
    else if ValueOf(s) <= MaxInt() then Some(ValueOf(s))
    else None
  }

  /** strings.LastIndex(s, "-"): -1 when there is none. */
  function LastDash(s: string): (i: int)
    ensures -1 <= i < |s|
    ensures i >= 0 ==> s[i] == '-'
    ensures forall j :: i < j < |s| ==> s[j] != '-'
  {
    if s == "" then -1 else if s[|s| - 1] == '-' then |s| - 1 else LastDash(s[..|s| - 1])
  }

  /** The counter at the end of an id, when the suffix after the last dash is one. */
  function CounterOf(id: string): Option<nat> {
    var i := LastDash(id);
    if i < 0 then None
    else
      var suffix := id[i + 1..];
      match Atoi(suffix)
      case None => None
      case Some(n) => if n >= 2 && suffix == Itoa(n) then Some(n) else None
  }

  /** strconv.Itoa(n + 1) in 64-bit arithmetic. */
  function Incremented(n: nat): string {
    if n == MaxInt() then "-" + Itoa(n + 1) else Itoa(n + 1)
  }

  function AdvanceChainId(id: string): string {
    match CounterOf(id)
    case Some(n) => id[..LastDash(id) + 1] + Incremented(n)
    case None => id + "-2"
  }

  // ---------- Itoa and Atoi ----------

  lemma {:induction false} ItoaDigits(n: nat)
    ensures AllDigits(Itoa(n)) && ValueOf(Itoa(n)) == n
  {
    DigitValue(n % 10);
    if n >= 10 {
      ItoaDigits(n / 10);
      ValueOfSnoc(Itoa(n / 10), DIGITS[n % 10]);
    } else {
      ValueOfSnoc("", DIGITS[n]);
      assert "" + [DIGITS[n]] == [DIGITS[n]];
    }
  }

  lemma DigitValue(d: nat)
    requires d < 10
    ensures IsDigit(DIGITS[d]) && DIGITS[d] as int - '0' as int == d
  {
  }

  lemma ValueOfSnoc(s: string, c: char)
    requires AllDigits(s) && IsDigit(c)
    ensures AllDigits(s + [c]) && ValueOf(s + [c]) == 10 * ValueOf(s) + (c as int - '0' as int)
  {
    assert (s + [c])[..|s|] == s;
  }

  lemma {:induction false} ItoaGrows(n: nat, m: nat)
    requires n <= m
    ensures |Itoa(n)| <= |Itoa(m)|
    decreases m
  {
    if n >= 10 {
      ItoaGrows(n / 10, m / 10);
    }
  }

  lemma AtoiItoa(n: nat)
    requires n <= MaxInt()
    ensures Atoi(Itoa(n)) == Some(n)
  {
    ItoaDigits(n);
    assert IsDigit(Itoa(n)[0]);
  }

  // ---------- where the last dash is after an advance ----------

  lemma LastDashAfter(p: string, s: string)
    requires '-' !in s && p != [] && p[|p| - 1] == '-'
    ensures LastDash(p + s) == |p| - 1
  {
    var t := p + s;
    assert t[|p| - 1] == '-';
    forall j | |p| <= j < |t| ensures t[j] != '-' {
      assert t[j] == s[j - |p|];
      assert s[j - |p|] in s;
    }
  }

  lemma DigitsHaveNoDash(s: string)
    requires AllDigits(s)
    ensures '-' !in s && '/' !in s
  {
  }

  /** The id up to and including its last dash. */
  function Stem(id: string): string {
    id[..LastDash(id) + 1]
  }

  lemma LastDashOfItoa(p: string, n: nat)
    requires p != [] && p[|p| - 1] == '-'
    ensures LastDash(p + Itoa(n)) == |p| - 1
    ensures (p + Itoa(n))[..|p|] == p && (p + Itoa(n))[|p|..] == Itoa(n)
  {
    ItoaDigits(n);
    DigitsHaveNoDash(Itoa(n));
    LastDashAfter(p, Itoa(n));
  }

  /** An advanced id ends in a dash and a number: the counter that was increased, or 2. */
  ghost predicate EndsIn(id: string, stem: string, n: nat) {
    stem != [] && stem[|stem| - 1] == '-' && id == stem + Itoa(n)
  }

  lemma EndsInParts(id: string, stem: string, n: nat)
    requires EndsIn(id, stem, n)
    ensures LastDash(id) == |stem| - 1 && Stem(id) == stem && id[LastDash(id) + 1..] == Itoa(n)
    ensures 2 <= n <= MaxInt() ==> CounterOf(id) == Some(n)
  {
    LastDashOfItoa(stem, n);
    if 2 <= n <= MaxInt() {
      AtoiItoa(n);
    }
  }

  lemma CounterShape(id: string)
    requires CounterOf(id).Some?
    ensures 2 <= CounterOf(id).value <= MaxInt() && EndsIn(id, Stem(id), CounterOf(id).value)
  {
    assert id == Stem(id) + id[LastDash(id) + 1..];
  }

  function NextStem(id: string): string {
    match CounterOf(id)
    case None => id + "-"
    case Some(n) => if n == MaxInt() then Stem(id) + "-" else Stem(id)
  }

  function NextCount(id: string): nat {
    match CounterOf(id)
    case None => 2
    case Some(n) => n + 1
  }

  lemma AdvanceShape(id: string)
    ensures EndsIn(AdvanceChainId(id), NextStem(id), NextCount(id)) && NextCount(id) >= 2
  {
    if CounterOf(id).Some? {
      CounterShape(id);
      DashAndNumber(Stem(id), CounterOf(id).value + 1);
    } else {
      DashAndNumber(id, 2);
      assert Itoa(2) == "2";
      assert "-" + "2" == "-2";
    }
  }

  lemma DashAndNumber(s: string, n: nat)
    ensures EndsIn(s + ("-" + Itoa(n)), s + "-", n)
  {
    assert s + ("-" + Itoa(n)) == (s + "-") + Itoa(n);
  }

  /** The predecessor of an advanced id can be read off the result. */
  function Retreat(next: string): string {
    var i := LastDash(next);
    if i < 0 || !AllDigits(next[i + 1..]) then next
    else
      var n := ValueOf(next[i + 1..]);
      if n <= 2 then next[..i]
      else if n == MaxInt() + 1 then next[..i] + Itoa(MaxInt())
      else next[..i + 1] + Itoa(n - 1)
  }

  lemma RetreatUndoes(id: string)
    ensures Retreat(AdvanceChainId(id)) == id
  {
    AdvanceShape(id);
    EndsInParts(AdvanceChainId(id), NextStem(id), NextCount(id));
    ItoaDigits(NextCount(id));
    if CounterOf(id).Some? {
      CounterShape(id);
    }
  }

  /** Two different ids never continue under the same id. */
  lemma AdvanceInjective(a: string, b: string)
    requires AdvanceChainId(a) == AdvanceChainId(b)
    ensures a == b
  {
    RetreatUndoes(a);
    RetreatUndoes(b);
  }

  // ---------- what advancing does ----------

  /** `s` is the decimal numeral of `n`: digits with no superfluous zero in front. */
  predicate Numeral(s: string, n: nat) {
    s != "" && AllDigits(s) && (|s| > 1 ==> s[0] != '0') && ValueOf(s) == n
  }

  lemma {:induction false} ItoaIsNumeral(n: nat)
    ensures Numeral(Itoa(n), n)
  {
    ItoaDigits(n);
    if n >= 10 {
      ItoaIsNumeral(n / 10);
      ItoaDigits(n / 10);
      assert Itoa(n)[0] == Itoa(n / 10)[0];
      if |Itoa(n / 10)| == 1 {
        assert ValueOf(Itoa(n / 10)) == Itoa(n / 10)[0] as int - '0' as int by {
          ValueOfSnoc("", Itoa(n / 10)[0]);
          assert "" + [Itoa(n / 10)[0]] == Itoa(n / 10);
        }
      }
    }
  }

  lemma {:induction false} PositiveValue(s: string)
    requires AllDigits(s) && s != "" && s[0] != '0'
    ensures ValueOf(s) > 0
  {
    if |s| > 1 {
      PositiveValue(s[..|s| - 1]);
    }
  }

  lemma {:induction false} NumeralIsItoa(s: string, n: nat)
    requires Numeral(s, n)
    ensures s == Itoa(n)
    decreases |s|
  {
    var last := s[|s| - 1] as int - '0' as int;
    assert s == s[..|s| - 1] + [s[|s| - 1]];
    LastDigit(s[|s| - 1]);
    if |s| == 1 {
      assert n == last;
    } else {
      PositiveValue(s[..|s| - 1]);
      NumeralIsItoa(s[..|s| - 1], n / 10);
    }
  }

  lemma LastDigit(c: char)
    requires IsDigit(c)
    ensures DIGITS[c as int - '0' as int] == c
  {
  }

  /** The id ends in a dash and the numeral of `n`. */
  ghost predicate EndsInCounter(id: string, stem: string, n: nat) {
    exists s :: Numeral(s, n) && id == stem + "-" + s
  }

  lemma CounterIs(id: string, stem: string, n: nat)
    requires EndsInCounter(id, stem, n) && 2 <= n <= MaxInt()
    ensures CounterOf(id) == Some(n) && id == (stem + "-") + Itoa(n) && Stem(id) == stem + "-"
  {
    var s :| Numeral(s, n) && id == stem + "-" + s;
    NumeralIsItoa(s, n);
    EndsInParts(id, stem + "-", n);
  }

  /** A counter from 2 on is increased by one, in its numeral; */
  lemma CounterIsIncreased(id: string, stem: string, n: nat)
    requires EndsInCounter(id, stem, n) && 2 <= n < MaxInt()
    ensures EndsInCounter(AdvanceChainId(id), stem, n + 1)
  {
    CounterIs(id, stem, n);
    ItoaIsNumeral(n + 1);
    assert AdvanceChainId(id) == stem + "-" + Itoa(n + 1);
  }

  /** the largest one becomes the smallest int; */
  lemma LargestCounterWraps(id: string, stem: string, n: nat)
    requires EndsInCounter(id, stem, n) && n == MaxInt()
    ensures EndsInCounter(AdvanceChainId(id), stem + "-", n + 1)
  {
    CounterIs(id, stem, n);
    ItoaIsNumeral(n + 1);
    DashTwice(stem, Itoa(n + 1));
  }

  lemma DashTwice(stem: string, s: string)
    ensures (stem + "-") + ("-" + s) == (stem + "-") + "-" + s
  {
  }

  lemma CounterHasForm(id: string) returns (stem: string)
    requires CounterOf(id).Some?
    ensures EndsInCounter(id, stem, CounterOf(id).value) && 2 <= CounterOf(id).value <= MaxInt()
  {
    CounterShape(id);
    ItoaIsNumeral(CounterOf(id).value);
    stem := Stem(id)[..|Stem(id)| - 1];
    assert Stem(id) == stem + "-";
  }

  /** and every other id gets the counter 2. */
  lemma OtherIdsGetTwo(id: string)
    requires forall stem, n: nat :: 2 <= n <= MaxInt() ==> !EndsInCounter(id, stem, n)
    ensures AdvanceChainId(id) == id + "-2"
  {
    if CounterOf(id).Some? {
      var stem := CounterHasForm(id);
      assert false;
    }
  }

  // ---------- iterating ----------

  function Advanced(id: string, n: nat): string {
    if n == 0 then id else AdvanceChainId(Advanced(id, n - 1))
  }

  function Rank(id: string): nat {
    match CounterOf(id) case Some(n) => n case None => 0
  }

  /** Longer, or as long with a larger counter. */
  predicate Earlier(a: string, b: string) {
    |a| < |b| || (|a| == |b| && Rank(a) < Rank(b))
  }

  lemma AdvanceIsLater(id: string)
    ensures Earlier(id, AdvanceChainId(id))
  {
    AdvanceShape(id);
    if CounterOf(id).Some? {
      CounterShape(id);
      ItoaGrows(CounterOf(id).value, NextCount(id));
      EndsInParts(AdvanceChainId(id), NextStem(id), NextCount(id));
    }
  }

  lemma {:induction false} IteratesAreLater(id: string, i: nat, j: nat)
    requires i < j
    ensures Earlier(Advanced(id, i), Advanced(id, j))
    decreases j
  {
    AdvanceIsLater(Advanced(id, j - 1));
    if i < j - 1 {
      IteratesAreLater(id, i, j - 1);
    }
  }

  /** So the ids tried by the startup loop are pairwise distinct, from any id and for ever. */
  lemma NeverRepeats(id: string, i: nat, j: nat)
    requires i != j
    ensures Advanced(id, i) != Advanced(id, j)
  {
    if i < j {
      IteratesAreLater(id, i, j);
    } else {
      IteratesAreLater(id, j, i);
    }
  }

  /** Advancing introduces no '/', so a root chain id never turns into an agent chain id. */
  lemma AdvanceKeepsNoSlash(id: string)
    requires '/' !in id
    ensures '/' !in AdvanceChainId(id)
  {
    AdvanceShape(id);
    ItoaDigits(NextCount(id));
    DigitsHaveNoDash(Itoa(NextCount(id)));
    NoSlashInParts(NextStem(id), Itoa(NextCount(id)));
  }

  lemma NoSlashInParts(a: string, b: string)
    ensures '/' !in a && '/' !in b ==> '/' !in a + b
  {
  }

  /**
   The source says a date component is never mistaken for a counter. That holds exactly for the
   days written with a leading zero: of the two-digit days, "10" and up are incremented.
   */
  lemma DateIsACounterIffNoLeadingZero(prefix: string, d1: char, d2: char)
    requires IsDigit(d1) && IsDigit(d2)
    ensures CounterOf(prefix + "-" + [d1, d2]).Some? <==> d1 != '0'
  {
    var stem, n := prefix + "-", 10 * DigitOf(d1) + DigitOf(d2);
    DigitsHaveNoDash([d1, d2]);
    LastDashAfter(stem, [d1, d2]);
    assert (stem + [d1, d2])[|stem|..] == [d1, d2];
    TwoDigits(d1, d2);
    if d1 != '0' {
      EndsInParts(stem + [d1, d2], stem, n);
    } else {
      assert |Itoa(n)| == 1;
    }
  }

  function DigitOf(c: char): nat
    requires IsDigit(c)
  {
    c as int - '0' as int
  }

  lemma TwoDigits(d1: char, d2: char)
    requires IsDigit(d1) && IsDigit(d2)
    ensures ValueOf([d1, d2]) == 10 * DigitOf(d1) + DigitOf(d2)
    ensures d1 != '0' ==> Itoa(10 * DigitOf(d1) + DigitOf(d2)) == [d1, d2]
  {
    assert [d1, d2][..1] == [d1] && [d1][..0] == [];
    assert ValueOf([d1]) == DigitOf(d1);
    ItoaTwoDigits(DigitOf(d1), DigitOf(d2));
    assert DIGITS[DigitOf(d1)] == d1 && DIGITS[DigitOf(d2)] == d2;
  }

  lemma ItoaTwoDigits(n: nat, m: nat)
    requires n < 10 && m < 10
    ensures n > 0 ==> Itoa(10 * n + m) == [DIGITS[n], DIGITS[m]]
  {
    if n > 0 {
      assert (10 * n + m) / 10 == n && (10 * n + m) % 10 == m;
      assert Itoa(n) == [DIGITS[n]];
    }
  }
}
