/**
 The redaction pass itself: redactJSONBytes, redactJSONObject and redactJSONArray of
 daemon/internal/pipeline/redact.go, which decode one level, recurse into the raw bytes of each
 child, and write a container only if something in it changed.
 */
module RedactPass {
  import opened Json
  import opened Redact

  // ---------- text, piece by piece ----------

  lemma {:induction false} PiecesAppend(ps: seq<Piece>, a: string, b: string)
    ensures PiecesTo(ps, a + b) == PiecesTo(ps, a) + b
  {
    if ps != [] {
      PiecesAppend(ps[1..], a, b);
      PieceAppend(ps[0], PiecesTo(ps[1..], a), b);
    }
  }

  lemma PieceAppend(p: Piece, a: string, b: string)
    ensures PieceTo(p, a + b) == PieceTo(p, a) + b
  {
    if p.Unicode? {
      assert p.hex + (a + b) == p.hex + a + b;
    }
  }

  lemma LiteralAppend(ps: seq<Piece>, a: string, b: string)
    ensures LiteralTo(ps, a + b) == LiteralTo(ps, a) + b
  {
    assert ['"'] + (a + b) == ['"'] + a + b;
    PiecesAppend(ps, ['"'] + a, b);
  }

  lemma {:induction false} ValueAppend(v: Value, a: string, b: string)
    ensures ValueTo(v, a + b) == ValueTo(v, a) + b
    decreases v, 1
  {
    match v
    case Str(ps) => LiteralAppend(ps, a, b);
    case Word(w) => assert w + (a + b) == w + a + b;
    case Obj(_, _) => ObjAppend(v, a, b);
    case Arr(_, _) => ArrAppend(v, a, b);
  }

  lemma {:induction false} ObjAppend(v: Value, a: string, b: string)
    requires v.Obj?
    ensures ValueTo(v, a + b) == ValueTo(v, a) + b
    decreases v, 0
  {
    if v.members == [] {
      assert v.inner + (['}'] + (a + b)) == v.inner + (['}'] + a) + b;
    } else {
      MembersAppend(v.members, a, b);
    }
  }

  lemma {:induction false} ArrAppend(v: Value, a: string, b: string)
    requires v.Arr?
    ensures ValueTo(v, a + b) == ValueTo(v, a) + b
    decreases v, 0
  {
    if v.items == [] {
      assert v.inner + ([']'] + (a + b)) == v.inner + ([']'] + a) + b;
    } else {
      ItemsAppend(v.items, a, b);
    }
  }

  lemma HeadAppend(h: Head, a: string, b: string)
    ensures HeadTo(h, a + b) == HeadTo(h, a) + b
  {
    assert h.s3 + (a + b) == h.s3 + a + b;
    assert h.s2 + ([':'] + (h.s3 + a + b)) == h.s2 + ([':'] + (h.s3 + a)) + b;
    LiteralAppend(h.key, h.s2 + ([':'] + (h.s3 + a)), b);
  }

  lemma {:induction false} MemberAppend(m: Member, a: string, b: string)
    ensures MemberTo(m, a + b) == MemberTo(m, a) + b
    decreases m
  {
    assert m.s4 + (a + b) == m.s4 + a + b;
    ValueAppend(m.value, m.s4 + a, b);
    HeadAppend(Head(m.s1, m.key, m.s2, m.s3), ValueTo(m.value, m.s4 + a), b);
  }

  lemma {:induction false} MembersAppend(ms: seq<Member>, a: string, b: string)
    requires ms != []
    ensures MembersTo(ms, a + b) == MembersTo(ms, a) + b
    decreases ms
  {
    if |ms| == 1 {
      assert ['}'] + (a + b) == ['}'] + a + b;
      MemberAppend(ms[0], ['}'] + a, b);
    } else {
      MembersAppend(ms[1..], a, b);
      assert [','] + (MembersTo(ms[1..], a) + b) == [','] + MembersTo(ms[1..], a) + b;
      MemberAppend(ms[0], [','] + MembersTo(ms[1..], a), b);
    }
  }

  lemma {:induction false} ItemAppend(x: Item, a: string, b: string)
    ensures ItemTo(x, a + b) == ItemTo(x, a) + b
    decreases x
  {
    assert x.s2 + (a + b) == x.s2 + a + b;
    ValueAppend(x.value, x.s2 + a, b);
  }

  lemma {:induction false} ItemsAppend(xs: seq<Item>, a: string, b: string)
    requires xs != []
    ensures ItemsTo(xs, a + b) == ItemsTo(xs, a) + b
    decreases xs
  {
    if |xs| == 1 {
      assert [']'] + (a + b) == [']'] + a + b;
      ItemAppend(xs[0], [']'] + a, b);
    } else {
      ItemsAppend(xs[1..], a, b);
      assert [','] + (ItemsTo(xs[1..], a) + b) == [','] + ItemsTo(xs[1..], a) + b;
      ItemAppend(xs[0], [','] + ItemsTo(xs[1..], a), b);
    }
  }

  /** The text of a value, then what follows. */
  lemma ValueThen(v: Value, rest: string)
    ensures ValueTo(v, rest) == Text(v) + rest
  {
    ValueAppend(v, "", rest);
    assert "" + rest == rest;
  }

  // ---------- children ----------

  lemma {:induction false} MemberInside(ms: seq<Member>, rest: string, i: nat)
    requires i < |ms|
    ensures |Text(ms[i].value)| < |MembersTo(ms, rest)|
    ensures MembersOk(ms) ==> MemberOk(ms[i])
    decreases i
  {
    if i == 0 {
      var tail := if |ms| == 1 then ['}'] + rest else [','] + MembersTo(ms[1..], rest);
      MemberLength(ms[0], tail);
    } else {
      MemberInside(ms[1..], rest, i - 1);
      MemberLength(ms[0], [','] + MembersTo(ms[1..], rest));
    }
  }

  /** Every value is shorter than `bound`, the length of what it was read from. */
  predicate Inside(ms: seq<Member>, bound: nat) {
    forall i :: 0 <= i < |ms| ==> MemberOk(ms[i]) && |PairOf(ms[i]).raw| < bound
  }

  lemma MembersInside(ms: seq<Member>, rest: string, bound: nat)
    requires MembersOk(ms) && (ms != [] ==> |MembersTo(ms, rest)| < bound)
    ensures Inside(ms, bound)
  {
    forall i | 0 <= i < |ms| ensures MemberOk(ms[i]) && |Text(ms[i].value)| < bound {
      MemberInside(ms, rest, i);
    }
  }

  lemma {:induction false} PiecesLength(ps: seq<Piece>, rest: string)
    ensures |PiecesTo(ps, rest)| >= |rest|
  {
    if ps != [] {
      PiecesLength(ps[1..], rest);
    }
  }

  lemma MemberLength(m: Member, rest: string)
    ensures |MemberTo(m, rest)| > |Text(m.value)| + |rest|
  {
    var h := Head(m.s1, m.key, m.s2, m.s3);
    var tail := ValueTo(m.value, m.s4 + rest);
    ValueThen(m.value, m.s4 + rest);
    PiecesLength(m.key, ['"'] + (m.s2 + ([':'] + (m.s3 + tail))));
  }

  lemma {:induction false} ItemInside(xs: seq<Item>, rest: string, i: nat)
    requires i < |xs|
    ensures |Text(xs[i].value)| < |ItemsTo(xs, rest)|
    ensures ItemsOk(xs) ==> ItemOk(xs[i])
    decreases i
  {
    var tail := if |xs| == 1 then [']'] + rest else [','] + ItemsTo(xs[1..], rest);
    ValueThen(xs[0].value, xs[0].s2 + tail);
    if i > 0 {
      ItemInside(xs[1..], rest, i - 1);
    }
  }

  /** The raw bytes of a value decode to the value. */
  lemma RawParses(v: Value)
    requires ValueOk(v)
    ensures ParseDoc(Text(v)) == Got(Doc("", v, ""), "")
  {
    PrintThenParse(Doc("", v, ""));
    NoPrefix(Text(v));
  }

  lemma NoPrefix(s: string)
    ensures "" + s == s
  {
  }

  lemma {:induction false} MembersHaveIff(keys: Keys, ms: seq<Member>)
    ensures MembersHave(keys, ms) <==> exists j :: 0 <= j < |ms| && MemberHas(keys, ms[j])
  {
    if ms != [] {
      MembersHaveIff(keys, ms[1..]);
      assert forall j :: 0 < j < |ms| ==> ms[j] == ms[1..][j - 1];
      if j :| 0 <= j < |ms[1..]| && MemberHas(keys, ms[1..][j]) {
        assert ms[j + 1] == ms[1..][j];
      }
    }
  }

  lemma {:induction false} ItemsHaveIff(keys: Keys, xs: seq<Item>)
    ensures ItemsHave(keys, xs) <==> exists j :: 0 <= j < |xs| && Has(keys, xs[j].value)
  {
    if xs != [] {
      ItemsHaveIff(keys, xs[1..]);
      assert forall j :: 0 < j < |xs| ==> xs[j] == xs[1..][j - 1];
      if j :| 0 <= j < |xs[1..]| && Has(keys, xs[1..][j].value) {
        assert xs[j + 1] == xs[1..][j];
      }
    }
  }

  // ---------- the pass ----------

  datatype Pair = Pair(key: string, raw: string)

  function PairOf(m: Member): Pair {
    Pair(Decode(m.key), Text(m.value))
  }

  function RedactedPair(keys: Keys, m: Member): Pair {
    Pair(Decode(m.key), Text(RedactedValue(keys, m)))
  }

  /** The contract of a pass over the raw bytes of `v`. */
  ghost predicate PassOf(keys: Keys, v: Value, raw: string, out: string, changed: bool) {
    changed == Has(keys, v) && out == if changed then Text(Redacted(keys, v)) else raw
  }

  method RedactJsonBytes(keys: Keys, raw: string) returns (out: string, changed: bool)
    requires ParseDoc(raw).Got?
    ensures PassOf(keys, ParseDoc(raw).value.value, raw, out, changed)
    decreases |raw|, 3
  {
    var trimmed := Skip(raw).rest;
    match trimmed[0]
    case '{' => out, changed := RedactJsonObject(keys, raw);
    case '[' => out, changed := RedactJsonArray(keys, raw);
    case _ => out, changed := raw, false;
  }

  /** The recursive call, for a child that has been read out as raw bytes. */
  method RedactChild(keys: Keys, ghost v: Value, raw: string) returns (out: string, changed: bool)
    requires ValueOk(v) && raw == Text(v)
    ensures out == Text(Redacted(keys, v)) && changed == Has(keys, v)
    decreases |raw|, 4
  {
    RawParses(v);
    out, changed := RedactJsonBytes(keys, raw);
  }

  lemma ObjectRaw(raw: string)
    requires ParseDoc(raw).Got? && ParseDoc(raw).value.value.Obj?
    ensures var ms := ParseDoc(raw).value.value.members;
            MembersOk(ms) && (ms != [] ==> |MembersTo(ms, ParseDoc(raw).value.post)| < |raw|)
  {
    ParseThenPrint(raw);
  }

  lemma ArrayRaw(raw: string)
    requires ParseDoc(raw).Got? && ParseDoc(raw).value.value.Arr?
    ensures var xs := ParseDoc(raw).value.value.items;
            ItemsOk(xs) && (xs != [] ==> |ItemsTo(xs, ParseDoc(raw).value.post)| < |raw|)
  {
    ParseThenPrint(raw);
  }

  /** The decoder: keys decoded, values as raw bytes. */
  method DecodePairs(ms: seq<Member>) returns (pairs: seq<Pair>)
    ensures |pairs| == |ms|
    ensures forall j :: 0 <= j < |ms| ==> pairs[j] == PairOf(ms[j])
  {
    pairs := [];
    for i := 0 to |ms|
      invariant |pairs| == i && forall j :: 0 <= j < i ==> pairs[j] == PairOf(ms[j])
    {
      pairs := pairs + [PairOf(ms[i])];
    }
  }

  method RedactJsonObject(keys: Keys, raw: string) returns (out: string, changed: bool)
    requires ParseDoc(raw).Got? && ParseDoc(raw).value.value.Obj?
    ensures PassOf(keys, ParseDoc(raw).value.value, raw, out, changed)
    decreases |raw|, 2
  {
    var v := ParseDoc(raw).value.value;
    ObjectRaw(raw);
    MembersInside(v.members, ParseDoc(raw).value.post, |raw|);
    var pairs;
    pairs, changed := RedactPairs(keys, v.members, |raw|);
    if !changed {
      return raw, false;
    }
    out := WriteObject(keys, v.members, v.inner, pairs);
  }

  method RedactPair(keys: Keys, ghost m: Member, pair: Pair) returns (r: Pair, changed: bool)
    requires MemberOk(m) && pair == PairOf(m)
    ensures r == RedactedPair(keys, m) && changed == MemberHas(keys, m)
    decreases |pair.raw|, 5
  {
    if Sensitive(keys, pair.key) {
      return Pair(pair.key, Text(Placeholder())), true;
    }
    var newRaw;
    newRaw, changed := RedactChild(keys, m.value, pair.raw);
    r := Pair(pair.key, newRaw);
  }

  /** The loop over the decoded pairs, which are overwritten in place. */
  method RedactPairs(keys: Keys, ms: seq<Member>, ghost bound: nat) returns (pairs: seq<Pair>, changed: bool)
    requires Inside(ms, bound)
    ensures |pairs| == |ms| && changed == MembersHave(keys, ms)
    ensures forall j :: 0 <= j < |ms| ==> pairs[j] == RedactedPair(keys, ms[j])
    decreases bound, 1
  {
    pairs := DecodePairs(ms);
    changed := false;
    for i := 0 to |pairs|
      invariant PairsDone(keys, ms, pairs, i, changed)
    {
      var pair, subChanged := RedactPair(keys, ms[i], pairs[i]);
      PairsStep(keys, ms, pairs, i, changed, pair, subChanged);
      pairs := pairs[i := pair];
      changed := changed || subChanged;
    }
    MembersHaveIff(keys, ms);
  }

  /** The first `i` pairs have been redacted, the others are as decoded. */
  ghost predicate PairsDone(keys: Keys, ms: seq<Member>, pairs: seq<Pair>, i: int, changed: bool) {
    && |pairs| == |ms| && 0 <= i <= |ms|
    && (forall j :: 0 <= j < i ==> pairs[j] == RedactedPair(keys, ms[j]))
    && (forall j :: i <= j < |ms| ==> pairs[j] == PairOf(ms[j]))
    && (changed <==> exists j :: 0 <= j < i && MemberHas(keys, ms[j]))
  }

  lemma PairsStep(keys: Keys, ms: seq<Member>, pairs: seq<Pair>, i: nat, changed: bool, pair: Pair, subChanged: bool)
    requires PairsDone(keys, ms, pairs, i, changed) && i < |ms|
    requires pair == RedactedPair(keys, ms[i]) && subChanged == MemberHas(keys, ms[i])
    ensures PairsDone(keys, ms, pairs[i := pair], i + 1, changed || subChanged)
  {
  }

  /** What is still to be written from member `i` on. */
  ghost function ObjectRest(rm: seq<Member>, i: nat): string
    requires i <= |rm|
  {
    if i == |rm| then ['}'] else (if i > 0 then [','] else "") + MembersTo(rm[i..], "")
  }

  lemma CompactText(key: string, v: Value, rest: string)
    ensures MemberTo(Compact(key, v), rest) == LiteralTo(Encode(key), "") + ([':'] + (Text(v) + rest))
  {
    var tail := [':'] + ("" + ValueTo(v, "" + rest));
    assert "" + rest == rest && "" + tail == tail;
    ValueThen(v, rest);
    assert "" + ValueTo(v, rest) == ValueTo(v, rest);
    LiteralAppend(Encode(key), "", tail);
    assert MemberTo(Compact(key, v), rest) == "" + LiteralTo(Encode(key), tail);
  }

  lemma Regroup(buf: string, sep: string, key: string, raw: string, rest: string)
    ensures buf + (sep + (key + ([':'] + (raw + rest)))) == buf + sep + key + [':'] + raw + rest
  {
  }

  lemma ObjectStart(rm: seq<Member>)
    requires rm != []
    ensures ['{'] + ObjectRest(rm, 0) == Text(Obj(rm, ""))
  {
    assert rm[0..] == rm;
    assert "" + MembersTo(rm, "") == MembersTo(rm, "");
  }

  lemma ObjectStep(rm: seq<Member>, i: nat, key: string, v: Value, buf: string)
    requires i < |rm| && rm[i] == Compact(key, v)
    ensures buf + ObjectRest(rm, i) ==
              buf + (if i > 0 then [','] else "") + LiteralTo(Encode(key), "") + [':'] + Text(v) + ObjectRest(rm, i + 1)
  {
    assert rm[i..][1..] == rm[i + 1..];
    var rest := if |rm[i..]| == 1 then ['}'] + "" else [','] + MembersTo(rm[i..][1..], "");
    assert rest == ObjectRest(rm, i + 1);
    CompactText(key, v, rest);
    Regroup(buf, if i > 0 then [','] else "", LiteralTo(Encode(key), ""), Text(v), rest);
  }

  method WriteObject(keys: Keys, ms: seq<Member>, ghost inner: string, pairs: seq<Pair>) returns (buf: string)
    requires ms != [] && MembersHave(keys, ms) && |pairs| == |ms|
    requires forall j :: 0 <= j < |ms| ==> pairs[j] == RedactedPair(keys, ms[j])
    ensures buf == Text(Redacted(keys, Obj(ms, inner)))
  {
    ghost var rm := RedactedMembers(keys, ms);
    buf := ['{'];
    ObjectStart(rm);
    for i := 0 to |pairs|
      invariant buf + ObjectRest(rm, i) == Text(Obj(rm, ""))
    {
      MemberAt(keys, ms, i);
      ObjectStep(rm, i, pairs[i].key, RedactedValue(keys, ms[i]), buf);
      buf := buf + (if i > 0 then [','] else "") + LiteralTo(Encode(pairs[i].key), "") + [':'] + pairs[i].raw;
    }
    buf := buf + ['}'];
  }

  method RedactJsonArray(keys: Keys, raw: string) returns (out: string, changed: bool)
    requires ParseDoc(raw).Got? && ParseDoc(raw).value.value.Arr?
    ensures PassOf(keys, ParseDoc(raw).value.value, raw, out, changed)
    decreases |raw|, 2
  {
    var v := ParseDoc(raw).value.value;
    ArrayRaw(raw);
    var items;
    items, changed := RedactItems(keys, v.items, ParseDoc(raw).value.post, |raw|);
    if !changed {
      return raw, false;
    }
    out := WriteArray(keys, v.items, v.inner, items);
  }

  method DecodeItems(xs: seq<Item>) returns (items: seq<string>)
    ensures |items| == |xs| && forall j :: 0 <= j < |xs| ==> items[j] == Text(xs[j].value)
  {
    items := [];
    for i := 0 to |xs|
      invariant |items| == i && forall j :: 0 <= j < i ==> items[j] == Text(xs[j].value)
    {
      items := items + [Text(xs[i].value)];
    }
  }

  method RedactItems(keys: Keys, xs: seq<Item>, ghost post: string, ghost bound: nat)
    returns (items: seq<string>, changed: bool)
    requires ItemsOk(xs) && (xs != [] ==> |ItemsTo(xs, post)| < bound)
    ensures |items| == |xs| && changed == ItemsHave(keys, xs)
    ensures forall j :: 0 <= j < |xs| ==> items[j] == Text(Redacted(keys, xs[j].value))
    decreases bound, 1
  {
    items := DecodeItems(xs);
    changed := false;
    for i := 0 to |items|
      invariant |items| == |xs|
      invariant forall j :: 0 <= j < i ==> items[j] == Text(Redacted(keys, xs[j].value))
      invariant forall j :: i <= j < |xs| ==> items[j] == Text(xs[j].value)
      invariant changed <==> exists j :: 0 <= j < i && Has(keys, xs[j].value)
    {
      ItemInside(xs, post, i);
      var newRaw, subChanged := RedactChild(keys, xs[i].value, items[i]);
      items := items[i := newRaw];
      changed := changed || subChanged;
    }
    ItemsHaveIff(keys, xs);
  }

  ghost function ArrayRest(rx: seq<Item>, i: nat): string
    requires i <= |rx|
  {
    if i == |rx| then [']'] else (if i > 0 then [','] else "") + ItemsTo(rx[i..], "")
  }

  lemma ArrayStart(rx: seq<Item>)
    requires rx != []
    ensures ['['] + ArrayRest(rx, 0) == Text(Arr(rx, ""))
  {
    assert rx[0..] == rx;
    assert "" + ItemsTo(rx, "") == ItemsTo(rx, "");
  }

  lemma ArrayStep(rx: seq<Item>, i: nat, v: Value, buf: string)
    requires i < |rx| && rx[i] == Item("", v, "")
    ensures buf + ArrayRest(rx, i) == buf + (if i > 0 then [','] else "") + Text(v) + ArrayRest(rx, i + 1)
  {
    assert rx[i..][1..] == rx[i + 1..];
    var rest := if |rx[i..]| == 1 then [']'] + "" else [','] + ItemsTo(rx[i..][1..], "");
    assert rest == ArrayRest(rx, i + 1);
    BareItem(v, rest);
    RegroupItem(buf, if i > 0 then [','] else "", Text(v), rest);
  }

  lemma RegroupItem(buf: string, sep: string, raw: string, rest: string)
    ensures buf + (sep + (raw + rest)) == buf + sep + raw + rest
  {
  }

  lemma BareItem(v: Value, rest: string)
    ensures ItemTo(Item("", v, ""), rest) == Text(v) + rest
  {
    ValueThen(v, rest);
    assert "" + rest == rest && "" + ValueTo(v, rest) == ValueTo(v, rest);
  }

  method WriteArray(keys: Keys, xs: seq<Item>, ghost inner: string, items: seq<string>) returns (buf: string)
    requires xs != [] && ItemsHave(keys, xs) && |items| == |xs|
    requires forall j :: 0 <= j < |xs| ==> items[j] == Text(Redacted(keys, xs[j].value))
    ensures buf == Text(Redacted(keys, Arr(xs, inner)))
  {
    ghost var rx := RedactedItems(keys, xs);
    buf := ['['];
    ArrayStart(rx);
    for i := 0 to |items|
      invariant buf + ArrayRest(rx, i) == Text(Arr(rx, ""))
    {
      ItemAt(keys, xs, i);
      ArrayStep(rx, i, Redacted(keys, xs[i].value), buf);
      buf := buf + (if i > 0 then [','] else "") + items[i];
    }
    buf := buf + [']'];
  }

  /** The first of the three passes of Redact, with the built-in keys. */
  method RedactKeys(raw: string) returns (out: string)
    ensures out == RedactedText(SENSITIVE_KEYS, raw)
  {
    out := raw;
    if ParseDoc(raw).Got? {
      var redacted, changed := RedactJsonBytes(SENSITIVE_KEYS, raw);
      if changed {
        out := redacted;
      }
    }
  }
}
