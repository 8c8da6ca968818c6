/**
 JSON text per section 2 of RFC 8259, as far as encoding/json is used by key redaction: concrete
 syntax trees that keep every byte, printing, parsing, and the decoding and encoding of keys.

 Printing is written with what follows as an argument, so that `ValueTo(v, rest)` is the text of
 `v` followed by `rest`.
 */
module Json {

  /** One element of a string literal. */
  datatype Piece = Plain(c: char) | Short(e: char) | Unicode(hex: string)

  datatype Value =
    | Str(pieces: seq<Piece>)
    | Word(text: string)
    | Obj(members: seq<Member>, inner: string)
    | Arr(items: seq<Item>, inner: string)

  /** `s1 "key" s2 : s3 value s4`, where the s are white space. */
  datatype Member = Member(s1: string, key: seq<Piece>, s2: string, s3: string, value: Value, s4: string)

  /** The part of a member before its value. */
  datatype Head = Head(s1: string, key: seq<Piece>, s2: string, s3: string)

  datatype Item = Item(s1: string, value: Value, s2: string)

  datatype Doc = Doc(pre: string, value: Value, post: string)

  // ---------- lexical classes ----------

  predicate IsSpace(c: char) {
    c == ' ' || c == '\t' || c == '\n' || c == '\r'
  }

  predicate Spaces(s: string) {
    forall i :: 0 <= i < |s| ==> IsSpace(s[i])
  }

  predicate IsDigit(c: char) {
    '0' <= c <= '9'
  }

  predicate IsHex(c: char) {
    IsDigit(c) || 'a' <= c <= 'f' || 'A' <= c <= 'F'
  }

  predicate PieceOk(p: Piece) {
    match p
    case Plain(c) => c != '"' && c != '\\' && c >= ' '
    case Short(e) => e in "\"\\/bfnrt"
    case Unicode(h) => |h| == 4 && forall i :: 0 <= i < 4 ==> IsHex(h[i])
  }

  predicate PiecesOk(ps: seq<Piece>) {
    forall i :: 0 <= i < |ps| ==> PieceOk(ps[i])
  }

  /** Characters of numbers and of true, false and null. */
  predicate IsWordChar(c: char) {
    IsDigit(c) || c == '-' || c == '+' || c == '.' || 'a' <= c <= 'z' || 'A' <= c <= 'Z'
  }

  predicate WordChars(s: string) {
    forall i :: 0 <= i < |s| ==> IsWordChar(s[i])
  }

  function DropDigits(s: string): (r: string)
    ensures |r| <= |s|
  {
    if s != "" && IsDigit(s[0]) then DropDigits(s[1..]) else s
  }

  predicate SomeDigits(s: string) {
    s != "" && IsDigit(s[0])
  }

  /** What may follow the integer part of a number: fraction and exponent, both optional. */
  predicate IsExponent(s: string) {
    s == "" ||
    ((s[0] == 'e' || s[0] == 'E') &&
     var t := if |s| > 1 && (s[1] == '+' || s[1] == '-') then s[2..] else s[1..];
     SomeDigits(t) && DropDigits(t) == "")
  }

  predicate IsFractionAndExponent(s: string) {
    if s != "" && s[0] == '.' then SomeDigits(s[1..]) && IsExponent(DropDigits(s[1..])) else IsExponent(s)
  }

  predicate IsNumber(s: string) {
    var t := if s != "" && s[0] == '-' then s[1..] else s;
    SomeDigits(t) && IsFractionAndExponent(if t[0] == '0' then t[1..] else DropDigits(t))
  }

  predicate IsWord(w: string) {
    w != "" && WordChars(w) && (w == "true" || w == "false" || w == "null" || IsNumber(w))
  }

  // ---------- well-formed trees and their text ----------

  predicate ValueOk(v: Value) {
    match v
    case Str(ps) => PiecesOk(ps)
    case Word(w) => IsWord(w)
    case Obj(ms, inner) => Spaces(inner) && (ms != [] ==> inner == "") && MembersOk(ms)
    case Arr(xs, inner) => Spaces(inner) && (xs != [] ==> inner == "") && ItemsOk(xs)
  }

  predicate MembersOk(ms: seq<Member>) {
    ms == [] || (MemberOk(ms[0]) && MembersOk(ms[1..]))
  }

  predicate MemberOk(m: Member) {
    Spaces(m.s1) && Spaces(m.s2) && Spaces(m.s3) && Spaces(m.s4) && PiecesOk(m.key) && ValueOk(m.value)
  }

  predicate ItemsOk(xs: seq<Item>) {
    xs == [] || (ItemOk(xs[0]) && ItemsOk(xs[1..]))
  }

  predicate ItemOk(x: Item) {
    Spaces(x.s1) && Spaces(x.s2) && ValueOk(x.value)
  }

  function PieceTo(p: Piece, rest: string): string {
    match p
    case Plain(c) => [c] + rest
    case Short(e) => ['\\', e] + rest
    case Unicode(h) => ['\\', 'u'] + (h + rest)
  }

  function PiecesTo(ps: seq<Piece>, rest: string): string {
    if ps == [] then rest else PieceTo(ps[0], PiecesTo(ps[1..], rest))
  }

  function LiteralTo(ps: seq<Piece>, rest: string): string {
    ['"'] + PiecesTo(ps, ['"'] + rest)
  }

  function ValueTo(v: Value, rest: string): string {
    match v
    case Str(ps) => LiteralTo(ps, rest)
    case Word(w) => w + rest
    case Obj(ms, inner) => ['{'] + (if ms == [] then inner + (['}'] + rest) else MembersTo(ms, rest))
    case Arr(xs, inner) => ['['] + (if xs == [] then inner + ([']'] + rest) else ItemsTo(xs, rest))
  }

  function MembersTo(ms: seq<Member>, rest: string): string
    requires ms != []
  {
    MemberTo(ms[0], if |ms| == 1 then ['}'] + rest else [','] + MembersTo(ms[1..], rest))
  }

  function HeadTo(h: Head, rest: string): string {
    h.s1 + LiteralTo(h.key, h.s2 + ([':'] + (h.s3 + rest)))
  }

  function MemberTo(m: Member, rest: string): string {
    HeadTo(Head(m.s1, m.key, m.s2, m.s3), ValueTo(m.value, m.s4 + rest))
  }

  function ItemsTo(xs: seq<Item>, rest: string): string
    requires xs != []
  {
    ItemTo(xs[0], if |xs| == 1 then [']'] + rest else [','] + ItemsTo(xs[1..], rest))
  }

  function ItemTo(x: Item, rest: string): string {
    x.s1 + ValueTo(x.value, x.s2 + rest)
  }

  function Text(v: Value): string {
    ValueTo(v, "")
  }

  function DocText(d: Doc): string {
    d.pre + ValueTo(d.value, d.post)
  }

  predicate DocOk(d: Doc) {
    Spaces(d.pre) && ValueOk(d.value) && Spaces(d.post)
  }

  // ---------- parsing ----------

  datatype Parse<+T> = Fail | Got(value: T, rest: string)

  function Skip(s: string): (r: Parse<string>)
    ensures r.Got? && Spaces(r.value) && s == r.value + r.rest && (r.rest != "" ==> !IsSpace(r.rest[0]))
  {
    if s != "" && IsSpace(s[0]) then
      var r := Skip(s[1..]);
      Got([s[0]] + r.value, r.rest)
    else Got("", s)
  }

  function ParsePiece(s: string): (r: Parse<Piece>)
    ensures r.Got? ==> |r.rest| < |s|
  {
    if s == "" || s[0] == '"' || s[0] < ' ' then Fail
    else if s[0] != '\\' then Got(Plain(s[0]), s[1..])
    else if |s| >= 2 && s[1] in "\"\\/bfnrt" then Got(Short(s[1]), s[2..])
    else if |s| >= 6 && s[1] == 'u' && PieceOk(Unicode(s[2..6])) then Got(Unicode(s[2..6]), s[6..])
    else Fail
  }

  /** The rest of a literal, after the opening quote, through the closing one. */
  function ParsePieces(s: string): (r: Parse<seq<Piece>>)
    ensures r.Got? ==> |r.rest| < |s|
    decreases |s|
  {
    if s != "" && s[0] == '"' then Got([], s[1..])
    else match ParsePiece(s)
      case Fail => Fail
      case Got(p, rest) =>
        match ParsePieces(rest)
        case Fail => Fail
        case Got(ps, rest') => Got([p] + ps, rest')
  }

  function WordRun(s: string): (r: Parse<string>)
    ensures r.Got? && WordChars(r.value) && s == r.value + r.rest && (r.rest != "" ==> !IsWordChar(r.rest[0]))
  {
    if s != "" && IsWordChar(s[0]) then
      var r := WordRun(s[1..]);
      Got([s[0]] + r.value, r.rest)
    else Got("", s)
  }

  function ParseValue(s: string): (r: Parse<Value>)
    ensures r.Got? ==> |r.rest| < |s|
    decreases |s|, 1
  {
    if s == "" then Fail
    else if s[0] == '"' then
      match ParsePieces(s[1..])
      case Fail => Fail
      case Got(ps, rest) => Got(Str(ps), rest)
    else if s[0] == '{' then
      var sp := Skip(s[1..]);
      if sp.rest != "" && sp.rest[0] == '}' then Got(Obj([], sp.value), sp.rest[1..])
      else match ParseMembers(s[1..])
        case Fail => Fail
        case Got(ms, rest) => Got(Obj(ms, ""), rest)
    else if s[0] == '[' then
      var sp := Skip(s[1..]);
      if sp.rest != "" && sp.rest[0] == ']' then Got(Arr([], sp.value), sp.rest[1..])
      else match ParseItems(s[1..])
        case Fail => Fail
        case Got(xs, rest) => Got(Arr(xs, ""), rest)
    else
      var w := WordRun(s);
      if IsWord(w.value) then Got(Word(w.value), w.rest) else Fail
  }

  function ParseHead(s: string): (r: Parse<Head>)
    ensures r.Got? ==> |r.rest| < |s|
  {
    var a := Skip(s);
    if a.rest == "" || a.rest[0] != '"' then Fail
    else match ParsePieces(a.rest[1..])
      case Fail => Fail
      case Got(ps, rest) =>
        var b := Skip(rest);
        if b.rest == "" || b.rest[0] != ':' then Fail
        else
          var c := Skip(b.rest[1..]);
          Got(Head(a.value, ps, b.value, c.value), c.rest)
  }

  /** One member, through the white space after its value. */
  function ParseMember(s: string): (r: Parse<Member>)
    ensures r.Got? ==> |r.rest| < |s|
    decreases |s|, 2
  {
    match ParseHead(s)
    case Fail => Fail
    case Got(h, rest) =>
      match ParseValue(rest)
      case Fail => Fail
      case Got(v, after) =>
        var sp := Skip(after);
        Got(Member(h.s1, h.key, h.s2, h.s3, v, sp.value), sp.rest)
  }

  function ParseMembers(s: string): (r: Parse<seq<Member>>)
    ensures r.Got? ==> |r.rest| < |s|
    decreases |s|, 3
  {
    match ParseMember(s)
    case Fail => Fail
    case Got(m, rest) =>
      if rest == "" then Fail
      else if rest[0] == '}' then Got([m], rest[1..])
      else if rest[0] != ',' then Fail
      else match ParseMembers(rest[1..])
        case Fail => Fail
        case Got(ms, rest') => Got([m] + ms, rest')
  }

  function ParseItem(s: string): (r: Parse<Item>)
    ensures r.Got? ==> |r.rest| < |s|
    decreases |s|, 2
  {
    var a := Skip(s);
    match ParseValue(a.rest)
    case Fail => Fail
    case Got(v, after) =>
      var sp := Skip(after);
      Got(Item(a.value, v, sp.value), sp.rest)
  }

  function ParseItems(s: string): (r: Parse<seq<Item>>)
    ensures r.Got? ==> |r.rest| < |s|
    decreases |s|, 3
  {
    match ParseItem(s)
    case Fail => Fail
    case Got(x, rest) =>
      if rest == "" then Fail
      else if rest[0] == ']' then Got([x], rest[1..])
      else if rest[0] != ',' then Fail
      else match ParseItems(rest[1..])
        case Fail => Fail
        case Got(xs, rest') => Got([x] + xs, rest')
  }

  /** json.Valid together with the value: white space around one value, and nothing else. */
  function ParseDoc(s: string): Parse<Doc> {
    var a := Skip(s);
    match ParseValue(a.rest)
    case Fail => Fail
    case Got(v, after) =>
      var b := Skip(after);
      if b.rest == "" then Got(Doc(a.value, v, b.value), "") else Fail
  }

  // ---------- printing, then parsing ----------

  predicate StartsWith(s: string, c: char) {
    s != "" && s[0] == c
  }

  predicate NoSpaceFirst(s: string) {
    s != "" ==> !IsSpace(s[0])
  }

  predicate NoWordFirst(s: string) {
    s != "" ==> !IsWordChar(s[0])
  }

  lemma FirstChar(s: string, rest: string)
    requires s != ""
    ensures s == [s[0]] + s[1..] && (s + rest)[0] == s[0] && (s + rest)[1..] == s[1..] + rest
  {
  }

  lemma {:induction false} SkipText(sp: string, rest: string)
    requires Spaces(sp) && NoSpaceFirst(rest)
    ensures Skip(sp + rest) == Got(sp, rest)
  {
    if sp == "" {
      assert sp + rest == rest;
    } else {
      SkipText(sp[1..], rest);
      FirstChar(sp, rest);
    }
  }

  lemma {:induction false} WordRunText(w: string, rest: string)
    requires WordChars(w) && NoWordFirst(rest)
    ensures WordRun(w + rest) == Got(w, rest)
  {
    if w == "" {
      assert w + rest == rest;
    } else {
      WordRunText(w[1..], rest);
      FirstChar(w, rest);
    }
  }

  lemma PieceText(p: Piece, rest: string)
    requires PieceOk(p)
    ensures ParsePiece(PieceTo(p, rest)) == Got(p, rest) && PieceTo(p, rest) != "" && PieceTo(p, rest)[0] != '"'
  {
    match p
    case Plain(c) =>
    case Short(e) => assert PieceTo(p, rest)[2..] == rest;
    case Unicode(h) =>
      UnicodeParts(h, rest);
  }

  lemma UnicodeParts(h: string, rest: string)
    requires |h| == 4
    ensures var s := ['\\', 'u'] + (h + rest); |s| >= 6 && s[0] == '\\' && s[1] == 'u' && s[2..6] == h && s[6..] == rest
  {
    var s := ['\\', 'u'] + (h + rest);
    assert s[2..] == h + rest;
    assert s[2..6] == s[2..][..4] && s[6..] == s[2..][4..];
  }

  lemma {:induction false} PiecesText(ps: seq<Piece>, rest: string)
    requires PiecesOk(ps)
    ensures ParsePieces(PiecesTo(ps, ['"'] + rest)) == Got(ps, rest)
  {
    if ps != [] {
      var tail := PiecesTo(ps[1..], ['"'] + rest);
      PiecesText(ps[1..], rest);
      PieceText(ps[0], tail);
      assert ps == [ps[0]] + ps[1..];
    }
  }

  lemma LiteralText(ps: seq<Piece>, rest: string)
    requires PiecesOk(ps)
    ensures StartsWith(LiteralTo(ps, rest), '"') && ParsePieces(LiteralTo(ps, rest)[1..]) == Got(ps, rest)
  {
    PiecesText(ps, rest);
    assert LiteralTo(ps, rest)[1..] == PiecesTo(ps, ['"'] + rest);
  }

  /** What a value may begin with; none of it is white space or a closing bracket. */
  predicate ValueFirst(s: string) {
    s != "" && !IsSpace(s[0]) && s[0] != '}' && s[0] != ']'
  }

  lemma ValueFirstText(v: Value, rest: string)
    requires ValueOk(v)
    ensures ValueFirst(ValueTo(v, rest))
  {
  }

  lemma HeadText(h: Head, rest: string)
    requires Spaces(h.s1) && Spaces(h.s2) && Spaces(h.s3) && PiecesOk(h.key) && NoSpaceFirst(rest)
    ensures ParseHead(HeadTo(h, rest)) == Got(h, rest)
    ensures StartsWith(Skip(HeadTo(h, rest)).rest, '"')
  {
    var c := h.s3 + rest;
    var b := h.s2 + ([':'] + c);
    LiteralText(h.key, b);
    SkipText(h.s1, LiteralTo(h.key, b));
    SkipText(h.s2, [':'] + c);
    SkipText(h.s3, rest);
  }

  lemma WordText(w: string, rest: string)
    requires IsWord(w) && NoWordFirst(rest)
    ensures ParseValue(w + rest) == Got(Word(w), rest)
  {
    WordRunText(w, rest);
    assert (w + rest)[0] == w[0] && IsWordChar(w[0]);
  }

  lemma {:induction false} ValueText(v: Value, rest: string)
    requires ValueOk(v) && NoWordFirst(rest)
    ensures ParseValue(ValueTo(v, rest)) == Got(v, rest)
    decreases v, 1
  {
    match v
    case Str(ps) => LiteralText(ps, rest);
    case Word(w) => WordText(w, rest);
    case Obj(ms, inner) => ObjText(v, rest);
    case Arr(xs, inner) => ArrText(v, rest);
  }

  lemma {:induction false} ObjText(v: Value, rest: string)
    requires ValueOk(v) && v.Obj?
    ensures ParseValue(ValueTo(v, rest)) == Got(v, rest)
    decreases v, 0
  {
    var s := ValueTo(v, rest);
    if v.members == [] {
      SkipText(v.inner, ['}'] + rest);
      assert s[1..] == v.inner + (['}'] + rest);
    } else {
      MembersText(v.members, rest);
      assert s[1..] == MembersTo(v.members, rest);
    }
  }

  lemma {:induction false} ArrText(v: Value, rest: string)
    requires ValueOk(v) && v.Arr?
    ensures ParseValue(ValueTo(v, rest)) == Got(v, rest)
    decreases v, 0
  {
    var s := ValueTo(v, rest);
    if v.items == [] {
      SkipText(v.inner, [']'] + rest);
      assert s[1..] == v.inner + ([']'] + rest);
    } else {
      ItemsText(v.items, rest);
      assert s[1..] == ItemsTo(v.items, rest);
    }
  }

  /** What follows a value inside a container: white space, then a comma or a bracket. */
  predicate Separator(rest: string) {
    rest != "" && (rest[0] == ',' || rest[0] == '}' || rest[0] == ']')
  }

  lemma AfterValue(sp: string, rest: string)
    requires Spaces(sp) && Separator(rest)
    ensures NoWordFirst(sp + rest) && Skip(sp + rest) == Got(sp, rest)
  {
    SkipText(sp, rest);
    if sp != "" {
      assert (sp + rest)[0] == sp[0];
    }
  }

  lemma {:induction false} MemberText(m: Member, rest: string)
    requires MemberOk(m) && Separator(rest)
    ensures ParseMember(MemberTo(m, rest)) == Got(m, rest)
    ensures StartsWith(Skip(MemberTo(m, rest)).rest, '"')
    decreases m
  {
    AfterValue(m.s4, rest);
    ValueText(m.value, m.s4 + rest);
    ValueFirstText(m.value, m.s4 + rest);
    HeadText(Head(m.s1, m.key, m.s2, m.s3), ValueTo(m.value, m.s4 + rest));
  }

  lemma {:induction false} MembersText(ms: seq<Member>, rest: string)
    requires MembersOk(ms) && ms != []
    ensures ParseMembers(MembersTo(ms, rest)) == Got(ms, rest)
    ensures StartsWith(Skip(MembersTo(ms, rest)).rest, '"')
    decreases ms
  {
    assert ms == [ms[0]] + ms[1..];
    if |ms| == 1 {
      MemberText(ms[0], ['}'] + rest);
      assert (['}'] + rest)[1..] == rest && ms == [ms[0]];
    } else {
      MembersText(ms[1..], rest);
      MemberText(ms[0], [','] + MembersTo(ms[1..], rest));
      assert ([','] + MembersTo(ms[1..], rest))[1..] == MembersTo(ms[1..], rest);
    }
  }

  lemma {:induction false} ItemText(x: Item, rest: string)
    requires ItemOk(x) && Separator(rest)
    ensures ParseItem(ItemTo(x, rest)) == Got(x, rest)
    ensures ValueFirst(Skip(ItemTo(x, rest)).rest)
    decreases x
  {
    AfterValue(x.s2, rest);
    ValueText(x.value, x.s2 + rest);
    ValueFirstText(x.value, x.s2 + rest);
    SkipText(x.s1, ValueTo(x.value, x.s2 + rest));
  }

  lemma {:induction false} ItemsText(xs: seq<Item>, rest: string)
    requires ItemsOk(xs) && xs != []
    ensures ParseItems(ItemsTo(xs, rest)) == Got(xs, rest)
    ensures ValueFirst(Skip(ItemsTo(xs, rest)).rest)
    decreases xs
  {
    assert xs == [xs[0]] + xs[1..];
    if |xs| == 1 {
      ItemText(xs[0], [']'] + rest);
      assert ([']'] + rest)[1..] == rest && xs == [xs[0]];
    } else {
      ItemsText(xs[1..], rest);
      ItemText(xs[0], [','] + ItemsTo(xs[1..], rest));
      assert ([','] + ItemsTo(xs[1..], rest))[1..] == ItemsTo(xs[1..], rest);
    }
  }

  /** Printing a well-formed document and parsing it gives the document back. */
  lemma PrintThenParse(d: Doc)
    requires DocOk(d)
    ensures ParseDoc(DocText(d)) == Got(d, "")
  {
    ValueFirstText(d.value, d.post);
    SkipText(d.pre, ValueTo(d.value, d.post));
    assert NoWordFirst(d.post);
    ValueText(d.value, d.post);
    SkipText(d.post, "");
    assert d.post + "" == d.post;
  }

  // ---------- parsing, then printing ----------

  lemma PieceParsed(s: string)
    ensures ParsePiece(s).Got? ==> PieceOk(ParsePiece(s).value) && PieceTo(ParsePiece(s).value, ParsePiece(s).rest) == s
  {
    if ParsePiece(s).Got? && s[0] == '\\' {
      assert s == ['\\', s[1]] + s[2..];
      if ParsePiece(s).value.Unicode? {
        assert s[2..] == s[2..6] + s[6..];
      }
    }
  }

  lemma {:induction false} PiecesParsed(s: string)
    ensures ParsePieces(s).Got? ==>
              PiecesOk(ParsePieces(s).value) && PiecesTo(ParsePieces(s).value, ['"'] + ParsePieces(s).rest) == s
    decreases |s|
  {
    if s != "" && s[0] == '"' {
      assert s == ['"'] + s[1..];
    } else if ParsePieces(s).Got? {
      PieceParsed(s);
      PiecesParsed(ParsePiece(s).rest);
    }
  }

  lemma LiteralParsed(s: string)
    requires StartsWith(s, '"') && ParsePieces(s[1..]).Got?
    ensures PiecesOk(ParsePieces(s[1..]).value) && LiteralTo(ParsePieces(s[1..]).value, ParsePieces(s[1..]).rest) == s
  {
    PiecesParsed(s[1..]);
    assert s == ['"'] + s[1..];
  }

  lemma HeadParsed(s: string)
    ensures ParseHead(s).Got? ==>
              var h := ParseHead(s).value;
              Spaces(h.s1) && Spaces(h.s2) && Spaces(h.s3) && PiecesOk(h.key) && HeadTo(h, ParseHead(s).rest) == s
  {
    if ParseHead(s).Got? {
      var a := Skip(s);
      LiteralParsed(a.rest);
      var b := Skip(ParsePieces(a.rest[1..]).rest);
      assert b.rest == [':'] + b.rest[1..];
    }
  }

  lemma {:induction false} ValueParsed(s: string)
    ensures ParseValue(s).Got? ==> ValueOk(ParseValue(s).value) && ValueTo(ParseValue(s).value, ParseValue(s).rest) == s
    decreases |s|, 1
  {
    if ParseValue(s).Got? {
      assert s == [s[0]] + s[1..];
      if s[0] == '"' {
        PiecesParsed(s[1..]);
      } else if s[0] == '{' {
        ObjParsed(s);
      } else if s[0] == '[' {
        ArrParsed(s);
      }
    }
  }

  lemma {:induction false} ObjParsed(s: string)
    requires s != "" && s[0] == '{' && ParseValue(s).Got?
    ensures ValueOk(ParseValue(s).value) && ValueTo(ParseValue(s).value, ParseValue(s).rest) == s
    decreases |s|, 0
  {
    var sp := Skip(s[1..]);
    assert s == ['{'] + s[1..];
    if StartsWith(sp.rest, '}') {
      assert sp.rest == ['}'] + sp.rest[1..];
    } else {
      MembersParsed(s[1..]);
    }
  }

  lemma {:induction false} ArrParsed(s: string)
    requires s != "" && s[0] == '[' && ParseValue(s).Got?
    ensures ValueOk(ParseValue(s).value) && ValueTo(ParseValue(s).value, ParseValue(s).rest) == s
    decreases |s|, 0
  {
    var sp := Skip(s[1..]);
    assert s == ['['] + s[1..];
    if StartsWith(sp.rest, ']') {
      assert sp.rest == [']'] + sp.rest[1..];
    } else {
      ItemsParsed(s[1..]);
    }
  }

  lemma MembersCons(m: Member, ms: seq<Member>, rest: string)
    requires ms != []
    ensures MembersTo([m] + ms, rest) == MemberTo(m, [','] + MembersTo(ms, rest))
    ensures MemberOk(m) && MembersOk(ms) ==> MembersOk([m] + ms)
  {
    assert ([m] + ms)[1..] == ms;
  }

  lemma ItemsCons(x: Item, xs: seq<Item>, rest: string)
    requires xs != []
    ensures ItemsTo([x] + xs, rest) == ItemTo(x, [','] + ItemsTo(xs, rest))
    ensures ItemOk(x) && ItemsOk(xs) ==> ItemsOk([x] + xs)
  {
    assert ([x] + xs)[1..] == xs;
  }

  lemma {:induction false} MemberParsed(s: string)
    ensures ParseMember(s).Got? ==>
            MemberOk(ParseMember(s).value) && MemberTo(ParseMember(s).value, ParseMember(s).rest) == s
    decreases |s|, 2
  {
    if ParseMember(s).Got? {
      HeadParsed(s);
      ValueParsed(ParseHead(s).rest);
    }
  }

  lemma {:induction false} MembersParsed(s: string)
    ensures ParseMembers(s).Got? ==>
              var ms := ParseMembers(s).value;
              ms != [] && MembersOk(ms) && MembersTo(ms, ParseMembers(s).rest) == s
    decreases |s|, 3
  {
    if ParseMembers(s).Got? {
      MemberParsed(s);
      var m, rest := ParseMember(s).value, ParseMember(s).rest;
      FirstChar(rest, "");
      if rest[0] == ',' {
        MembersParsed(rest[1..]);
        MembersCons(m, ParseMembers(rest[1..]).value, ParseMembers(rest[1..]).rest);
      }
    }
  }

  lemma {:induction false} ItemParsed(s: string)
    ensures ParseItem(s).Got? ==> ItemOk(ParseItem(s).value) && ItemTo(ParseItem(s).value, ParseItem(s).rest) == s
    decreases |s|, 2
  {
    if ParseItem(s).Got? {
      ValueParsed(Skip(s).rest);
    }
  }

  lemma {:induction false} ItemsParsed(s: string)
    ensures ParseItems(s).Got? ==>
              var xs := ParseItems(s).value;
              xs != [] && ItemsOk(xs) && ItemsTo(xs, ParseItems(s).rest) == s
    decreases |s|, 3
  {
    if ParseItems(s).Got? {
      ItemParsed(s);
      var x, rest := ParseItem(s).value, ParseItem(s).rest;
      FirstChar(rest, "");
      if rest[0] == ',' {
        ItemsParsed(rest[1..]);
        ItemsCons(x, ParseItems(rest[1..]).value, ParseItems(rest[1..]).rest);
      }
    }
  }

  /** A text parses exactly when it is the text of a well-formed document, and then of that one only. */
  lemma ParseThenPrint(s: string)
    requires ParseDoc(s).Got?
    ensures DocOk(ParseDoc(s).value) && DocText(ParseDoc(s).value) == s
  {
    ValueParsed(Skip(s).rest);
    var after := ParseValue(Skip(s).rest).rest;
    assert Skip(after).value + "" == Skip(after).value;
  }

  // ---------- what a literal means ----------

  function HexDigit(c: char): nat
    requires IsHex(c)
    ensures HexDigit(c) < 16
  {
    if IsDigit(c) then c as int - '0' as int
    else if 'a' <= c <= 'f' then c as int - 'a' as int + 10
    else c as int - 'A' as int + 10
  }

  function CodeUnit(p: Piece): (n: nat)
    ensures n < 0x1_0000
  {
    if !p.Unicode? || !PieceOk(p) then 0
    else 0x1000 * HexDigit(p.hex[0]) + 0x100 * HexDigit(p.hex[1]) + 0x10 * HexDigit(p.hex[2]) + HexDigit(p.hex[3])
  }

  predicate IsHigh(n: nat) {
    0xD800 <= n < 0xDC00
  }

  predicate IsLow(n: nat) {
    0xDC00 <= n < 0xE000
  }

  const REPLACEMENT: char := '\U{FFFD}'

  function Unescape(e: char): char {
    if e == 'b' then 8 as char
    else if e == 'f' then 12 as char
    else if e == 'n' then '\n'
    else if e == 'r' then '\r'
    else if e == 't' then '\t'
    else e
  }

  /** Surrogate pairs are combined; a surrogate on its own becomes the replacement character. */
  function Decode(ps: seq<Piece>): string {
    if ps == [] then ""
    else match ps[0]
      case Plain(c) => [c] + Decode(ps[1..])
      case Short(e) => [Unescape(e)] + Decode(ps[1..])
      case Unicode(_) =>
        var n := CodeUnit(ps[0]);
        if IsHigh(n) && |ps| > 1 && ps[1].Unicode? && IsLow(CodeUnit(ps[1])) then
          [(0x1_0000 + 0x400 * (n - 0xD800) + (CodeUnit(ps[1]) - 0xDC00)) as char] + Decode(ps[2..])
        else if IsHigh(n) || IsLow(n) then [REPLACEMENT] + Decode(ps[1..])
        else [n as char] + Decode(ps[1..])
  }

  function HexChar(n: nat): (c: char)
    requires n < 16
    ensures IsHex(c) && HexDigit(c) == n
  {
    if n < 10 then (n + '0' as int) as char else (n - 10 + 'a' as int) as char
  }

  /** How the standard encoder writes one character, without escaping for HTML. */
  function EncodeChar(c: char): (p: Piece)
    ensures PieceOk(p)
  {
    var n := c as int;
    if c == '"' || c == '\\' then Short(c)
    else if n == 8 then Short('b')
    else if n == 12 then Short('f')
    else if n == 10 then Short('n')
    else if n == 13 then Short('r')
    else if n == 9 then Short('t')
    else if n < 0x20 then Unicode(['0', '0', HexChar(n / 16), HexChar(n % 16)])
    else if n == 0x2028 then Unicode("2028")
    else if n == 0x2029 then Unicode("2029")
    else Plain(c)
  }

  function Encode(s: string): (ps: seq<Piece>)
    ensures PiecesOk(ps)
  {
    if s == "" then [] else [EncodeChar(s[0])] + Encode(s[1..])
  }

  /** A character written as a backslash, u and four digits is no surrogate and decodes to itself. */
  lemma UnicodeRoundTrip(c: char)
    requires EncodeChar(c).Unicode?
    ensures CodeUnit(EncodeChar(c)) == c as int && !IsHigh(c as int) && !IsLow(c as int)
  {
    var n := c as int;
    if n < 0x20 {
      assert CodeUnit(EncodeChar(c)) == 16 * (n / 16) + n % 16;
    }
  }

  lemma CharRoundTrip(c: char, ps: seq<Piece>)
    ensures Decode([EncodeChar(c)] + ps) == [c] + Decode(ps)
  {
    var p := EncodeChar(c);
    assert ([p] + ps)[1..] == ps;
    if p.Unicode? {
      UnicodeRoundTrip(c);
    }
  }

  lemma {:induction false} EncodeThenDecode(s: string)
    ensures Decode(Encode(s)) == s
  {
    if s != "" {
      EncodeThenDecode(s[1..]);
      CharRoundTrip(s[0], Encode(s[1..]));
    }
  }

  /** Escaped are only control characters, quote, backslash and the two line separators; not '/', '<', '>' and '&'. */
  lemma EscapedIff(c: char)
    ensures var n := c as int;
            EncodeChar(c) == Plain(c) <==> n >= 0x20 && n !in {0x22, 0x5C, 0x2028, 0x2029}
  {
  }

  // ---------- numbers by the grammar of section 6 of RFC 8259 ----------

  predicate Digits(s: string) {
    s != "" && forall i :: 0 <= i < |s| ==> '0' <= s[i] <= '9'
  }

  /** Integer part without superfluous zero, fraction, exponent. */
  predicate NumberParts(minus: string, whole: string, fraction: string, exponent: string) {
    && (minus == "" || minus == "-")
    && Digits(whole) && (|whole| > 1 ==> whole[0] != '0')
    && (fraction == "" || (fraction[0] == '.' && Digits(fraction[1..])))
    && ExponentOk(exponent)
  }

  predicate ExponentOk(x: string) {
    x == "" ||
    ((x[0] == 'e' || x[0] == 'E') &&
     (Digits(x[1..]) || (|x| > 1 && (x[1] == '+' || x[1] == '-') && Digits(x[2..]))))
  }

  lemma {:induction false} DropAll(d: string, rest: string)
    requires d == "" || Digits(d)
    requires rest == "" || !IsDigit(rest[0])
    ensures DropDigits(d + rest) == rest
  {
    if d == "" {
      assert d + rest == rest;
    } else {
      assert (d + rest)[1..] == d[1..] + rest;
      DropAll(d[1..], rest);
    }
  }

  lemma ExponentAccepted(x: string)
    requires ExponentOk(x)
    ensures IsExponent(x)
  {
    if x != "" {
      var t := if |x| > 1 && (x[1] == '+' || x[1] == '-') then x[2..] else x[1..];
      assert Digits(x[1..]) ==> x[1] == x[1..][0];
      DropAll(t, "");
      assert t + "" == t;
    }
  }

  lemma FractionAccepted(fraction: string, exponent: string)
    requires fraction == "" || (fraction[0] == '.' && Digits(fraction[1..]))
    requires ExponentOk(exponent)
    ensures IsFractionAndExponent(fraction + exponent)
  {
    ExponentAccepted(exponent);
    if fraction == "" {
      assert fraction + exponent == exponent;
    } else {
      assert (fraction + exponent)[1..] == fraction[1..] + exponent;
      DropAll(fraction[1..], exponent);
    }
  }

  /** Every number of the grammar is taken for one. */
  lemma NumberAccepted(minus: string, whole: string, fraction: string, exponent: string)
    requires NumberParts(minus, whole, fraction, exponent)
    ensures IsNumber(minus + (whole + (fraction + exponent)))
  {
    var tail := fraction + exponent;
    var t := whole + tail;
    var s := minus + t;
    FractionAccepted(fraction, exponent);
    assert (if minus == "-" then s[1..] else s) == t;
    assert t[0] == whole[0];
    if whole[0] == '0' {
      assert t[1..] == tail;
    } else {
      assert tail == "" || !IsDigit(tail[0]) by {
        assert fraction == "" ==> tail == exponent;
      }
      DropAll(whole, tail);
    }
  }

  lemma {:induction false} TakenDigits(s: string) returns (d: string)
    ensures s == d + DropDigits(s) && (d == "" || Digits(d)) && (SomeDigits(s) ==> d != "")
    ensures d != "" ==> d[0] == s[0]
  {
    d := "";
    if s != "" && IsDigit(s[0]) {
      var rest := TakenDigits(s[1..]);
      d := [s[0]] + rest;
      assert s == [s[0]] + s[1..];
    }
  }

  lemma ExponentIs(x: string)
    requires IsExponent(x)
    ensures ExponentOk(x)
  {
    if x != "" {
      var t := if |x| > 1 && (x[1] == '+' || x[1] == '-') then x[2..] else x[1..];
      var d := TakenDigits(t);
      assert t == d;
    }
  }

  lemma FractionIs(s: string) returns (fraction: string, exponent: string)
    requires IsFractionAndExponent(s)
    ensures s == fraction + exponent && ExponentOk(exponent)
    ensures fraction == "" || (fraction[0] == '.' && Digits(fraction[1..]))
  {
    if s != "" && s[0] == '.' {
      var d := TakenDigits(s[1..]);
      fraction, exponent := ['.'] + d, DropDigits(s[1..]);
      assert s == ['.'] + s[1..];
    } else {
      fraction, exponent := "", s;
    }
    ExponentIs(exponent);
  }

  /** And nothing else is. */
  lemma NumberIs(s: string) returns (minus: string, whole: string, fraction: string, exponent: string)
    requires IsNumber(s)
    ensures NumberParts(minus, whole, fraction, exponent) && s == minus + (whole + (fraction + exponent))
  {
    minus := if s != "" && s[0] == '-' then "-" else "";
    var t := if s != "" && s[0] == '-' then s[1..] else s;
    assert s == minus + t;
    if t[0] == '0' {
      whole := "0";
      fraction, exponent := FractionIs(t[1..]);
      assert t == whole + t[1..];
    } else {
      whole := TakenDigits(t);
      fraction, exponent := FractionIs(DropDigits(t));
    }
  }

  // ---------- every way to write a character ----------

  /** The value of a hexadecimal digit, small or capital; -1 for any other character. */
  function DigitValue(c: char): int {
    var n := c as int;
    if 0x30 <= n <= 0x39 then n - 0x30
    else if 0x61 <= n <= 0x66 then n - 0x61 + 10
    else if 0x41 <= n <= 0x46 then n - 0x41 + 10
    else -1
  }

  /** The number that an escape of four hexadecimal digits writes, or -1. */
  function Written(p: Piece): int {
    if p.Unicode? && |p.hex| == 4 && forall i :: 0 <= i < 4 ==> DigitValue(p.hex[i]) >= 0
    then ((DigitValue(p.hex[0]) * 16 + DigitValue(p.hex[1])) * 16 + DigitValue(p.hex[2])) * 16 + DigitValue(p.hex[3])
    else -1
  }

  /** The two-character escapes of section 7 of RFC 8259 and the code points they stand for. */
  predicate WritesShort(e: char, n: int) {
    (e == '"' && n == 0x22) || (e == '\\' && n == 0x5C) || (e == '/' && n == 0x2F) || (e == 'b' && n == 0x08) ||
    (e == 'f' && n == 0x0C) || (e == 'n' && n == 0x0A) || (e == 'r' && n == 0x0D) || (e == 't' && n == 0x09)
  }

  /** Two escapes, a high and a low surrogate, write a code point beyond the first 65536. */
  predicate WritesPair(p: Piece, q: Piece, n: int) {
    && 0xD800 <= Written(p) < 0xDC00 && 0xDC00 <= Written(q) < 0xE000
    && n == 0x1_0000 + (Written(p) - 0xD800) * 0x400 + (Written(q) - 0xDC00)
  }

  /** `ps` is one of the ways to write `c`: itself, a short escape, its number, or a pair of surrogates. */
  predicate Writes(ps: seq<Piece>, c: char) {
    || (|ps| == 1 && ps[0] == Plain(c))
    || (|ps| == 1 && ps[0].Short? && WritesShort(ps[0].e, c as int))
    || (|ps| == 1 && Written(ps[0]) == c as int)
    || (|ps| == 2 && WritesPair(ps[0], ps[1], c as int))
  }

  lemma DigitIsHex(c: char)
    ensures DigitValue(c) >= 0 <==> IsHex(c)
    ensures IsHex(c) ==> HexDigit(c) == DigitValue(c)
  {
  }

  lemma WrittenIsUnit(p: Piece)
    requires p.Unicode?
    ensures Written(p) >= 0 <==> PieceOk(p)
    ensures PieceOk(p) ==> CodeUnit(p) == Written(p)
  {
    if |p.hex| == 4 {
      DigitIsHex(p.hex[0]);
      DigitIsHex(p.hex[1]);
      DigitIsHex(p.hex[2]);
      DigitIsHex(p.hex[3]);
    }
  }

  lemma OneIsDecoded(p: Piece, c: char, rest: seq<Piece>)
    requires Writes([p], c)
    ensures Decode([p] + rest) == [c] + Decode(rest)
  {
    assert ([p] + rest)[0] == p && ([p] + rest)[1..] == rest;
    if p.Unicode? {
      WrittenIsUnit(p);
    }
  }

  lemma SurrogatesAreCombined(p: Piece, q: Piece, rest: seq<Piece>)
    requires p.Unicode? && q.Unicode? && IsHigh(CodeUnit(p)) && IsLow(CodeUnit(q))
    ensures Decode([p, q] + rest) ==
            [(0x1_0000 + 0x400 * (CodeUnit(p) - 0xD800) + (CodeUnit(q) - 0xDC00)) as char] + Decode(rest)
  {
    var ps := [p, q] + rest;
    assert ps[0] == p && ps[1] == q && ps[2..] == rest;
  }

  lemma PairIsDecoded(p: Piece, q: Piece, c: char, rest: seq<Piece>)
    requires WritesPair(p, q, c as int)
    ensures Decode([p, q] + rest) == [c] + Decode(rest)
  {
    WrittenIsUnit(p);
    WrittenIsUnit(q);
    SurrogatesAreCombined(p, q, rest);
  }

  /** However a character is written, it is read as that character, whatever comes after it. */
  lemma WrittenIsDecoded(ps: seq<Piece>, c: char, rest: seq<Piece>)
    requires Writes(ps, c)
    ensures Decode(ps + rest) == [c] + Decode(rest)
  {
    if |ps| == 2 {
      assert ps == [ps[0], ps[1]];
      PairIsDecoded(ps[0], ps[1], c, rest);
    } else {
      assert ps == [ps[0]];
      OneIsDecoded(ps[0], c, rest);
    }
  }

  function Concat(parts: seq<seq<Piece>>): seq<Piece> {
    if parts == [] then [] else parts[0] + Concat(parts[1..])
  }

  /** `ps` is a way to write the text `s`, character by character. */
  ghost predicate WritesText(ps: seq<Piece>, s: string) {
    exists parts: seq<seq<Piece>> ::
      ps == Concat(parts) && |parts| == |s| && forall i :: 0 <= i < |s| ==> Writes(parts[i], s[i])
  }

  /** So a literal means the text it writes, in whatever mixture of escapes. */
  lemma WrittenTextIsDecoded(ps: seq<Piece>, s: string)
    requires WritesText(ps, s)
    ensures Decode(ps) == s
  {
    var parts: seq<seq<Piece>> :|
      ps == Concat(parts) && |parts| == |s| && forall i :: 0 <= i < |s| ==> Writes(parts[i], s[i]);
    PartsAreDecoded(parts, s);
  }

  lemma {:induction false} PartsAreDecoded(parts: seq<seq<Piece>>, s: string)
    requires |parts| == |s| && forall i :: 0 <= i < |s| ==> Writes(parts[i], s[i])
    ensures Decode(Concat(parts)) == s
  {
    if s != "" {
      PartsAreDecoded(parts[1..], s[1..]);
      WrittenIsDecoded(parts[0], s[0], Concat(parts[1..]));
      assert s == [s[0]] + s[1..];
    }
  }

  /** A surrogate that is not half of a pair is read as the replacement character. */
  lemma LoneSurrogate(p: Piece, rest: seq<Piece>)
    requires 0xD800 <= Written(p) < 0xE000 && PiecesOk(rest)
    requires Written(p) < 0xDC00 ==> rest == [] || !(0xDC00 <= Written(rest[0]) < 0xE000)
    ensures Decode([p] + rest) == [0xFFFD as char] + Decode(rest)
  {
    WrittenIsUnit(p);
    assert ([p] + rest)[1..] == rest;
    if rest != [] && rest[0].Unicode? {
      WrittenIsUnit(rest[0]);
    }
  }
}
