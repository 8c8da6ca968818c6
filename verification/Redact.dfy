/**
 Key redaction of daemon/internal/pipeline/redact.go on JSON text: the values of sensitive keys are
 replaced, and only the containers on the way to one are written anew.
 */
module Redact {
  import opened Json
  import Policy

  /** The built-in keys; the properties below hold for any set of keys. */
  const SENSITIVE_KEYS: set<string> := SECRET_KEYS + SESSION_KEYS

  const SECRET_KEYS := {
    "password", "token", "api_key", "apikey", "secret", "authorization", "private_key", "privatekey",
    "access_token", "refresh_token", "client_secret", "credentials", "passphrase", "pin"
  }

  const SESSION_KEYS := {
    "session_token", "session_id", "sessionid", "auth_token", "cookie", "set-cookie", "x-api-key", "bearer", "jwt",
    "signing_key", "encryption_key", "database_url", "connection_string", "dsn", "ssh_key"
  }

  type Keys = set<string>

  datatype Option<T> = None | Some(value: T)

  /** The placeholder, as a JSON string. */
  function Placeholder(): (v: Value)
    ensures ValueOk(v) && v.Str?
  {
    Str(Encode("[REDACTED]"))
  }

  predicate Sensitive(keys: Keys, key: string) {
    Policy.Lower(key) in keys
  }

  // ---------- where there is something to redact ----------

  predicate Has(keys: Keys, v: Value) {
    match v
    case Obj(ms, _) => MembersHave(keys, ms)
    case Arr(xs, _) => ItemsHave(keys, xs)
    case _ => false
  }

  predicate MemberHas(keys: Keys, m: Member) {
    Sensitive(keys, Decode(m.key)) || Has(keys, m.value)
  }

  predicate MembersHave(keys: Keys, ms: seq<Member>) {
    ms != [] && (MemberHas(keys, ms[0]) || MembersHave(keys, ms[1..]))
  }

  predicate ItemsHave(keys: Keys, xs: seq<Item>) {
    xs != [] && (Has(keys, xs[0].value) || ItemsHave(keys, xs[1..]))
  }

  // ---------- the redacted syntax tree ----------

  /** A value without sensitive keys is kept as it is, byte for byte; other containers are compact. */
  function Redacted(keys: Keys, v: Value): Value {
    if !Has(keys, v) then v
    else match v
      case Obj(ms, _) => Obj(RedactedMembers(keys, ms), "")
      case Arr(xs, _) => Arr(RedactedItems(keys, xs), "")
      case _ => v
  }

  function RedactedValue(keys: Keys, m: Member): Value {
    if Sensitive(keys, Decode(m.key)) then Placeholder() else Redacted(keys, m.value)
  }

  function Compact(key: string, v: Value): Member {
    Member("", Encode(key), "", "", v, "")
  }

  function RedactedMembers(keys: Keys, ms: seq<Member>): (r: seq<Member>)
    ensures |r| == |ms|
  {
    if ms == [] then [] else [Compact(Decode(ms[0].key), RedactedValue(keys, ms[0]))] + RedactedMembers(keys, ms[1..])
  }

  function RedactedItems(keys: Keys, xs: seq<Item>): (r: seq<Item>)
    ensures |r| == |xs|
  {
    if xs == [] then [] else [Item("", Redacted(keys, xs[0].value), "")] + RedactedItems(keys, xs[1..])
  }

  /** What key redaction makes of a text. Text that is not JSON passes. */
  function RedactedText(keys: Keys, s: string): string {
    match ParseDoc(s)
    case Fail => s
    case Got(d, _) =>
      if Has(keys, d.value) then Text(Redacted(keys, d.value)) else s
  }

  // ---------- the tree a reader sees ----------

  /** Keys decoded, duplicates and order kept; scalars as their bytes. */
  datatype Tree = Leaf(text: string) | Node(members: seq<Entry>) | List(items: seq<Tree>)

  datatype Entry = Entry(key: string, value: Tree)

  function TreeOf(v: Value): Tree {
    match v
    case Obj(ms, _) => Node(EntriesOf(ms))
    case Arr(xs, _) => List(TreesOf(xs))
    case _ => Leaf(Text(v))
  }

  function EntriesOf(ms: seq<Member>): seq<Entry> {
    if ms == [] then [] else [Entry(Decode(ms[0].key), TreeOf(ms[0].value))] + EntriesOf(ms[1..])
  }

  function TreesOf(xs: seq<Item>): seq<Tree> {
    if xs == [] then [] else [TreeOf(xs[0].value)] + TreesOf(xs[1..])
  }

  /** The outermost sensitive values become the placeholder, and nothing else changes. */
  function RedactedTree(keys: Keys, t: Tree): Tree {
    match t
    case Leaf(_) => t
    case Node(es) => Node(RedactedEntries(keys, es))
    case List(ts) => List(RedactedTrees(keys, ts))
  }

  function RedactedEntries(keys: Keys, es: seq<Entry>): seq<Entry> {
    if es == [] then []
    else
      var e := es[0];
      [Entry(e.key, if Sensitive(keys, e.key) then Leaf(Text(Placeholder())) else RedactedTree(keys, e.value))] +
      RedactedEntries(keys, es[1..])
  }

  function RedactedTrees(keys: Keys, ts: seq<Tree>): seq<Tree> {
    if ts == [] then [] else [RedactedTree(keys, ts[0])] + RedactedTrees(keys, ts[1..])
  }

  // ---------- the redacted text has the redacted tree ----------

  lemma {:induction false} UntouchedTree(keys: Keys, v: Value)
    requires !Has(keys, v)
    ensures RedactedTree(keys, TreeOf(v)) == TreeOf(v)
    decreases v
  {
    match v
    case Obj(ms, _) => UntouchedEntries(keys, ms);
    case Arr(xs, _) => UntouchedTrees(keys, xs);
    case _ =>
  }

  lemma {:induction false} UntouchedEntries(keys: Keys, ms: seq<Member>)
    requires !MembersHave(keys, ms)
    ensures RedactedEntries(keys, EntriesOf(ms)) == EntriesOf(ms)
    decreases ms
  {
    if ms != [] {
      UntouchedTree(keys, ms[0].value);
      UntouchedEntries(keys, ms[1..]);
      assert EntriesOf(ms)[1..] == EntriesOf(ms[1..]);
    }
  }

  lemma {:induction false} UntouchedTrees(keys: Keys, xs: seq<Item>)
    requires !ItemsHave(keys, xs)
    ensures RedactedTrees(keys, TreesOf(xs)) == TreesOf(xs)
    decreases xs
  {
    if xs != [] {
      UntouchedTree(keys, xs[0].value);
      UntouchedTrees(keys, xs[1..]);
      assert TreesOf(xs)[1..] == TreesOf(xs[1..]);
    }
  }

  lemma {:induction false} TreeOfRedacted(keys: Keys, v: Value)
    ensures TreeOf(Redacted(keys, v)) == RedactedTree(keys, TreeOf(v))
    decreases v
  {
    if Has(keys, v) {
      match v
      case Obj(ms, _) => EntriesOfRedacted(keys, ms);
      case Arr(xs, _) => TreesOfRedacted(keys, xs);
    } else {
      UntouchedTree(keys, v);
    }
  }

  lemma {:induction false} EntriesOfRedacted(keys: Keys, ms: seq<Member>)
    ensures EntriesOf(RedactedMembers(keys, ms)) == RedactedEntries(keys, EntriesOf(ms))
    decreases ms
  {
    if ms != [] {
      TreeOfRedacted(keys, ms[0].value);
      EntriesOfRedacted(keys, ms[1..]);
      EncodeThenDecode(Decode(ms[0].key));
      assert EntriesOf(ms)[1..] == EntriesOf(ms[1..]);
      assert RedactedMembers(keys, ms)[1..] == RedactedMembers(keys, ms[1..]);
    }
  }

  lemma {:induction false} TreesOfRedacted(keys: Keys, xs: seq<Item>)
    ensures TreesOf(RedactedItems(keys, xs)) == RedactedTrees(keys, TreesOf(xs))
    decreases xs
  {
    if xs != [] {
      TreeOfRedacted(keys, xs[0].value);
      TreesOfRedacted(keys, xs[1..]);
      assert TreesOf(xs)[1..] == TreesOf(xs[1..]);
      assert RedactedItems(keys, xs)[1..] == RedactedItems(keys, xs[1..]);
    }
  }

  // ---------- a second pass changes nothing ----------

  lemma {:induction false} RedactedStillHas(keys: Keys, v: Value)
    ensures Has(keys, Redacted(keys, v)) == Has(keys, v)
    ensures Redacted(keys, Redacted(keys, v)) == Redacted(keys, v)
    decreases v
  {
    if Has(keys, v) {
      match v
      case Obj(ms, _) => MembersStillHave(keys, ms);
      case Arr(xs, _) => ItemsStillHave(keys, xs);
    }
  }

  lemma {:induction false} MembersStillHave(keys: Keys, ms: seq<Member>)
    ensures MembersHave(keys, RedactedMembers(keys, ms)) == MembersHave(keys, ms)
    ensures RedactedMembers(keys, RedactedMembers(keys, ms)) == RedactedMembers(keys, ms)
    decreases ms
  {
    if ms != [] {
      RedactedStillHas(keys, ms[0].value);
      MembersStillHave(keys, ms[1..]);
      EncodeThenDecode(Decode(ms[0].key));
      assert RedactedMembers(keys, ms)[1..] == RedactedMembers(keys, ms[1..]);
    }
  }

  lemma {:induction false} ItemsStillHave(keys: Keys, xs: seq<Item>)
    ensures ItemsHave(keys, RedactedItems(keys, xs)) == ItemsHave(keys, xs)
    ensures RedactedItems(keys, RedactedItems(keys, xs)) == RedactedItems(keys, xs)
    decreases xs
  {
    if xs != [] {
      RedactedStillHas(keys, xs[0].value);
      ItemsStillHave(keys, xs[1..]);
      assert RedactedItems(keys, xs)[1..] == RedactedItems(keys, xs[1..]);
    }
  }

  // ---------- the result is well formed ----------

  lemma {:induction false} RedactedOk(keys: Keys, v: Value)
    requires ValueOk(v)
    ensures ValueOk(Redacted(keys, v))
    decreases v
  {
    if Has(keys, v) {
      match v
      case Obj(ms, _) => RedactedMembersOk(keys, ms);
      case Arr(xs, _) => RedactedItemsOk(keys, xs);
    }
  }

  lemma {:induction false} RedactedMembersOk(keys: Keys, ms: seq<Member>)
    requires MembersOk(ms)
    ensures MembersOk(RedactedMembers(keys, ms))
    decreases ms
  {
    if ms != [] {
      assert MemberOk(ms[0]);
      RedactedOk(keys, ms[0].value);
      RedactedMembersOk(keys, ms[1..]);
      assert RedactedMembers(keys, ms)[1..] == RedactedMembers(keys, ms[1..]);
    }
  }

  lemma {:induction false} RedactedItemsOk(keys: Keys, xs: seq<Item>)
    requires ItemsOk(xs)
    ensures ItemsOk(RedactedItems(keys, xs))
    decreases xs
  {
    if xs != [] {
      assert ItemOk(xs[0]);
      RedactedOk(keys, xs[0].value);
      RedactedItemsOk(keys, xs[1..]);
      assert RedactedItems(keys, xs)[1..] == RedactedItems(keys, xs[1..]);
    }
  }

  // ---------- main results on text ----------

  lemma RedactedDoc(keys: Keys, s: string)
    requires ParseDoc(s).Got?
    ensures var v := ParseDoc(s).value.value;
            (Has(keys, v) ==> ParseDoc(RedactedText(keys, s)) == Got(Doc("", Redacted(keys, v), ""), ""))
  {
    ParseThenPrint(s);
    var v := ParseDoc(s).value.value;
    var d := Doc("", Redacted(keys, v), "");
    RedactedOk(keys, v);
    PrintThenParse(d);
    assert "" + Text(Redacted(keys, v)) == Text(Redacted(keys, v));
  }

  /**
   The result is JSON whose tree is the original one with exactly the outermost sensitive values
   replaced: same keys, order and duplicates, other scalars byte for byte. Without a sensitive key
   the text itself is unchanged.
   */
  lemma RedactionKeepsTheTree(keys: Keys, s: string)
    requires ParseDoc(s).Got?
    ensures var before, after := ParseDoc(s), ParseDoc(RedactedText(keys, s));
            && after.Got?
            && TreeOf(after.value.value) == RedactedTree(keys, TreeOf(before.value.value))
            && (!Has(keys, before.value.value) ==> RedactedText(keys, s) == s)
  {
    RedactedDoc(keys, s);
    var v := ParseDoc(s).value.value;
    if Has(keys, v) {
      TreeOfRedacted(keys, v);
    } else {
      UntouchedTree(keys, v);
    }
  }

  /** A second pass is byte-identical. */
  lemma RedactionIsIdempotent(keys: Keys, s: string)
    ensures RedactedText(keys, RedactedText(keys, s)) == RedactedText(keys, s)
  {
    if ParseDoc(s).Got? {
      RedactedDoc(keys, s);
      RedactedStillHas(keys, ParseDoc(s).value.value);
    }
  }

  /** In a rewritten object, a value without anything to redact keeps its bytes. */
  lemma {:induction false} MemberAt(keys: Keys, ms: seq<Member>, i: nat)
    requires i < |ms|
    ensures RedactedMembers(keys, ms)[i] == Compact(Decode(ms[i].key), RedactedValue(keys, ms[i]))
    ensures !MemberHas(keys, ms[i]) ==> Text(RedactedMembers(keys, ms)[i].value) == Text(ms[i].value)
    ensures MemberHas(keys, ms[i]) ==> MembersHave(keys, ms)
    decreases i
  {
    if i > 0 {
      MemberAt(keys, ms[1..], i - 1);
    }
  }

  lemma {:induction false} ItemAt(keys: Keys, xs: seq<Item>, i: nat)
    requires i < |xs|
    ensures RedactedItems(keys, xs)[i] == Item("", Redacted(keys, xs[i].value), "")
    ensures Has(keys, xs[i].value) ==> ItemsHave(keys, xs)
    decreases i
  {
    if i > 0 {
      ItemAt(keys, xs[1..], i - 1);
    }
  }

  /** No sensitive key keeps a value, at any depth. */
  predicate Hidden(keys: Keys, t: Tree) {
    match t
    case Leaf(_) => true
    case Node(es) => EntriesHidden(keys, es)
    case List(ts) => TreesHidden(keys, ts)
  }

  predicate EntriesHidden(keys: Keys, es: seq<Entry>) {
    es == [] ||
    ((if Sensitive(keys, es[0].key) then es[0].value == Leaf(Text(Placeholder())) else Hidden(keys, es[0].value)) &&
     EntriesHidden(keys, es[1..]))
  }

  predicate TreesHidden(keys: Keys, ts: seq<Tree>) {
    ts == [] || (Hidden(keys, ts[0]) && TreesHidden(keys, ts[1..]))
  }

  lemma {:induction false} RedactedIsHidden(keys: Keys, t: Tree)
    ensures Hidden(keys, RedactedTree(keys, t))
    decreases t
  {
    match t
    case Leaf(_) =>
    case Node(es) => EntriesAreHidden(keys, es);
    case List(ts) => TreesAreHidden(keys, ts);
  }

  lemma {:induction false} EntriesAreHidden(keys: Keys, es: seq<Entry>)
    ensures EntriesHidden(keys, RedactedEntries(keys, es))
    decreases es
  {
    if es != [] {
      RedactedIsHidden(keys, es[0].value);
      EntriesAreHidden(keys, es[1..]);
      assert RedactedEntries(keys, es)[1..] == RedactedEntries(keys, es[1..]);
    }
  }

  lemma {:induction false} TreesAreHidden(keys: Keys, ts: seq<Tree>)
    ensures TreesHidden(keys, RedactedTrees(keys, ts))
    decreases ts
  {
    if ts != [] {
      RedactedIsHidden(keys, ts[0]);
      TreesAreHidden(keys, ts[1..]);
      assert RedactedTrees(keys, ts)[1..] == RedactedTrees(keys, ts[1..]);
    }
  }

  // ---------- which keys are sensitive ----------

  /** A key is sensitive exactly if it spells one of the set in any ASCII case, or with one of the two other letters. */
  lemma SensitiveIff(keys: Keys, key: string)
    ensures Sensitive(keys, key) <==> exists k :: k in keys && Policy.Spells(key, k)
  {
    Policy.LowerIff(key, Policy.Lower(key));
    forall k | k in keys && Policy.Spells(key, k) ensures Sensitive(keys, key) {
      Policy.LowerIff(key, k);
    }
  }

  /** In particular case does not matter, */
  lemma CaseDoesNotMatter(keys: Keys, k: string, key: string)
    requires k in keys && Policy.IsLowerCase(k) && Policy.DiffersInCase(key, k)
    ensures Sensitive(keys, key)
  {
    Policy.CaseIsASpelling(key, k);
  }

  /** and so it is for all built-in keys. */
  lemma BuiltInKeysInAnyCase(k: string, key: string)
    requires k in SENSITIVE_KEYS && Policy.DiffersInCase(key, k)
    ensures Sensitive(SENSITIVE_KEYS, key)
  {
    SecretKeysAreLowerCase(k);
    SessionKeysAreLowerCase(k);
    CaseDoesNotMatter(SENSITIVE_KEYS, k, key);
  }

  lemma SecretKeysAreLowerCase(k: string)
    ensures k in SECRET_KEYS ==> Policy.IsLowerCase(k)
  {
  }

  lemma SessionKeysAreLowerCase(k: string)
    ensures k in SESSION_KEYS ==> Policy.IsLowerCase(k)
  {
  }

  /** Nor does it matter with which escapes the key is written in the text. */
  lemma EscapesDoNotMatter(keys: Keys, m: Member, k: string, key: string)
    requires k in keys && Policy.Spells(key, k) && WritesText(m.key, key)
    ensures Sensitive(keys, Decode(m.key)) && MemberHas(keys, m)
  {
    WrittenTextIsDecoded(m.key, key);
    SensitiveIff(keys, key);
  }

  lemma PlaceholderText()
    ensures Text(Placeholder()) == "\"[REDACTED]\""
  {
    PlaceholderIsPlain("[REDACTED]");
    PlainText("[REDACTED]");
    Quoted("[REDACTED]");
  }

  lemma PlaceholderIsPlain(s: string)
    requires s == "[REDACTED]"
    ensures forall i :: 0 <= i < |s| ==> EncodeChar(s[i]) == Plain(s[i])
  {
    forall i | 0 <= i < |s| ensures EncodeChar(s[i]) == Plain(s[i]) {
      EscapedIff(s[i]);
    }
  }

  lemma Quoted(s: string)
    requires s == "[REDACTED]"
    ensures ['"'] + (s + ['"']) == "\"[REDACTED]\""
  {
  }

  lemma {:induction false} PlainLiteral(s: string, rest: string)
    requires forall i :: 0 <= i < |s| ==> EncodeChar(s[i]) == Plain(s[i])
    ensures PiecesTo(Encode(s), rest) == s + rest
  {
    if s != "" {
      PlainLiteral(s[1..], rest);
      assert s + rest == [s[0]] + (s[1..] + rest);
    }
  }

  lemma PlainText(s: string)
    requires forall i :: 0 <= i < |s| ==> EncodeChar(s[i]) == Plain(s[i])
    ensures Text(Str(Encode(s))) == ['"'] + (s + ['"'])
  {
    var end := ['"'];
    assert end + "" == end;
    PlainLiteral(s, end);
    assert Text(Str(Encode(s))) == LiteralTo(Encode(s), "");
  }

  // ---------- redaction, place by place ----------

  function Child(t: Tree, i: nat): Option<Tree> {
    match t
    case Leaf(_) => None
    case Node(es) => if i < |es| then Some(es[i].value) else None
    case List(ts) => if i < |ts| then Some(ts[i]) else None
  }

  /** What stands at the end of a path of positions. */
  function At(t: Tree, path: seq<nat>): Option<Tree> {
    if path == [] then Some(t)
    else match Child(t, path[0])
      case None => None
      case Some(u) => At(u, path[1..])
  }

  predicate SensitiveAt(keys: Keys, t: Tree, i: nat) {
    t.Node? && i < |t.members| && Sensitive(keys, t.members[i].key)
  }

  /** Some step of the path goes through a sensitive key. */
  predicate Covered(keys: Keys, t: Tree, path: seq<nat>) {
    path != [] &&
    (SensitiveAt(keys, t, path[0]) ||
     match Child(t, path[0]) case None => false case Some(u) => Covered(keys, u, path[1..]))
  }

  /** The same scalar, or an object with the same keys, or an array of the same length. */
  predicate SameShape(t: Tree, u: Tree) {
    match t
    case Leaf(_) => u == t
    case Node(es) => u.Node? && |u.members| == |es| && forall i :: 0 <= i < |es| ==> u.members[i].key == es[i].key
    case List(ts) => u.List? && |u.items| == |ts|
  }

  lemma {:induction false} EntryAt(keys: Keys, es: seq<Entry>, i: nat)
    ensures |RedactedEntries(keys, es)| == |es|
    ensures i < |es| ==>
              RedactedEntries(keys, es)[i].key == es[i].key &&
              RedactedEntries(keys, es)[i].value ==
                if Sensitive(keys, es[i].key) then Leaf(Text(Placeholder())) else RedactedTree(keys, es[i].value)
  {
    if es != [] {
      EntryAt(keys, es[1..], if i == 0 then 0 else i - 1);
    }
  }

  lemma {:induction false} TreeAt(keys: Keys, ts: seq<Tree>, i: nat)
    ensures |RedactedTrees(keys, ts)| == |ts|
    ensures i < |ts| ==> RedactedTrees(keys, ts)[i] == RedactedTree(keys, ts[i])
  {
    if ts != [] {
      TreeAt(keys, ts[1..], if i == 0 then 0 else i - 1);
    }
  }

  lemma ChildRedacted(keys: Keys, t: Tree, i: nat)
    ensures Child(RedactedTree(keys, t), i) ==
              match Child(t, i)
              case None => None
              case Some(u) => Some(if SensitiveAt(keys, t, i) then Leaf(Text(Placeholder())) else RedactedTree(keys, u))
  {
    match t
    case Leaf(_) =>
    case Node(es) => EntryAt(keys, es, i);
    case List(ts) => TreeAt(keys, ts, i);
  }

  lemma ShapeKept(keys: Keys, t: Tree)
    ensures SameShape(t, RedactedTree(keys, t))
  {
    match t
    case Leaf(_) =>
    case Node(es) =>
      EntryAt(keys, es, 0);
      forall i | 0 <= i < |es| ensures RedactedEntries(keys, es)[i].key == es[i].key {
        EntryAt(keys, es, i);
      }
    case List(ts) => TreeAt(keys, ts, 0);
  }

  /**
   What stands at a place of the redacted tree. If no sensitive key lies on the way there, the scalar, the keys or
   the length are what they were; directly behind the first sensitive key is the placeholder, and nothing further down.
   */
  predicate RedactedThere(keys: Keys, t: Tree, path: seq<nat>, there: Option<Tree>)
    requires At(t, path).Some?
  {
    if !Covered(keys, t, path) then there.Some? && SameShape(At(t, path).value, there.value)
    else if !Covered(keys, t, path[..|path| - 1]) then there == Some(Leaf("\"[REDACTED]\""))
    else there == None
  }

  lemma {:induction false} RedactedAt(keys: Keys, t: Tree, path: seq<nat>)
    requires At(t, path).Some?
    ensures RedactedThere(keys, t, path, At(RedactedTree(keys, t), path))
    decreases |path|
  {
    if path == [] {
      ShapeKept(keys, t);
    } else {
      var i := path[0];
      ChildRedacted(keys, t, i);
      CoveredStep(keys, t, path);
      if SensitiveAt(keys, t, i) {
        PlaceholderText();
      } else {
        RedactedAt(keys, Child(t, i).value, path[1..]);
        OneStepUp(keys, t, path, At(RedactedTree(keys, t), path));
      }
    }
  }

  /** A place is redacted in a tree as it is in the part that its path leads to. */
  lemma OneStepUp(keys: Keys, t: Tree, path: seq<nat>, there: Option<Tree>)
    requires path != [] && At(t, path).Some? && !SensitiveAt(keys, t, path[0])
    requires RedactedThere(keys, Child(t, path[0]).value, path[1..], there)
    ensures RedactedThere(keys, t, path, there)
  {
    CoveredStep(keys, t, path);
  }

  lemma CoveredStep(keys: Keys, t: Tree, path: seq<nat>)
    requires path != [] && Child(t, path[0]).Some?
    ensures Covered(keys, t, path) <==>
              SensitiveAt(keys, t, path[0]) || Covered(keys, Child(t, path[0]).value, path[1..])
    ensures |path| > 1 ==>
              (Covered(keys, t, path[..|path| - 1]) <==>
                 SensitiveAt(keys, t, path[0]) || Covered(keys, Child(t, path[0]).value, path[1..][..|path[1..]| - 1]))
    ensures |path| == 1 ==> path[1..] == [] && path[..|path| - 1] == []
  {
    if |path| > 1 {
      assert path[..|path| - 1][1..] == path[1..][..|path[1..]| - 1];
    }
  }

  // ---------- exactly when there is something to redact ----------

  /** Some place of the tree lies behind a sensitive key. */
  ghost predicate SomeCovered(keys: Keys, t: Tree) {
    exists path :: At(t, path).Some? && Covered(keys, t, path)
  }

  lemma CoveredThrough(keys: Keys, t: Tree, i: nat)
    requires Child(t, i).Some?
    ensures SensitiveAt(keys, t, i) || SomeCovered(keys, Child(t, i).value) ==> SomeCovered(keys, t)
  {
    var u := Child(t, i).value;
    if SensitiveAt(keys, t, i) {
      assert [i][1..] == [];
      assert At(t, [i]).Some? && Covered(keys, t, [i]);
    } else if path :| At(u, path).Some? && Covered(keys, u, path) {
      assert ([i] + path)[1..] == path;
      assert At(t, [i] + path).Some? && Covered(keys, t, [i] + path);
    }
  }

  lemma CoveredFrom(keys: Keys, t: Tree) returns (i: nat)
    requires SomeCovered(keys, t)
    ensures Child(t, i).Some? && (SensitiveAt(keys, t, i) || SomeCovered(keys, Child(t, i).value))
  {
    var path :| At(t, path).Some? && Covered(keys, t, path);
    i := path[0];
    if !SensitiveAt(keys, t, i) {
      assert At(Child(t, i).value, path[1..]).Some? && Covered(keys, Child(t, i).value, path[1..]);
    }
  }

  lemma {:induction false} EntryOf(ms: seq<Member>, i: nat)
    ensures |EntriesOf(ms)| == |ms|
    ensures i < |ms| ==> EntriesOf(ms)[i] == Entry(Decode(ms[i].key), TreeOf(ms[i].value))
  {
    if ms != [] {
      EntryOf(ms[1..], if i == 0 then 0 else i - 1);
    }
  }

  lemma {:induction false} TreeOfItem(xs: seq<Item>, i: nat)
    ensures |TreesOf(xs)| == |xs| && (i < |xs| ==> TreesOf(xs)[i] == TreeOf(xs[i].value))
  {
    if xs != [] {
      TreeOfItem(xs[1..], if i == 0 then 0 else i - 1);
    }
  }

  lemma {:induction false} MembersHaveIff(keys: Keys, ms: seq<Member>)
    ensures MembersHave(keys, ms) <==> exists i :: 0 <= i < |ms| && MemberHas(keys, ms[i])
  {
    if ms != [] {
      MembersHaveIff(keys, ms[1..]);
      assert forall i :: 1 <= i < |ms| ==> ms[i] == ms[1..][i - 1];
      if i :| 0 <= i < |ms[1..]| && MemberHas(keys, ms[1..][i]) {
        assert MemberHas(keys, ms[i + 1]);
      }
    }
  }

  lemma {:induction false} ItemsHaveIff(keys: Keys, xs: seq<Item>)
    ensures ItemsHave(keys, xs) <==> exists i :: 0 <= i < |xs| && Has(keys, xs[i].value)
  {
    if xs != [] {
      ItemsHaveIff(keys, xs[1..]);
      assert forall i :: 1 <= i < |xs| ==> xs[i] == xs[1..][i - 1];
      if i :| 0 <= i < |xs[1..]| && Has(keys, xs[1..][i].value) {
        assert Has(keys, xs[i + 1].value);
      }
    }
  }

  /** The traversal finds something exactly if some place lies behind a sensitive key. */
  lemma {:induction false} HasIff(keys: Keys, v: Value)
    ensures Has(keys, v) <==> SomeCovered(keys, TreeOf(v))
    decreases v, 1
  {
    match v
    case Obj(_, _) => ObjectHasIff(keys, v);
    case Arr(_, _) => ArrayHasIff(keys, v);
    case _ =>
      if SomeCovered(keys, TreeOf(v)) {
        var i := CoveredFrom(keys, TreeOf(v));
      }
  }

  lemma {:induction false} ObjectHasIff(keys: Keys, v: Value)
    requires v.Obj?
    ensures Has(keys, v) <==> SomeCovered(keys, TreeOf(v))
    decreases v, 0
  {
    var ms, t := v.members, TreeOf(v);
    MembersHaveIff(keys, ms);
    if i :| 0 <= i < |ms| && MemberHas(keys, ms[i]) {
      EntryOf(ms, i);
      HasIff(keys, ms[i].value);
      CoveredThrough(keys, t, i);
    }
    if SomeCovered(keys, t) {
      var i := CoveredFrom(keys, t);
      EntryOf(ms, i);
      HasIff(keys, ms[i].value);
      assert MemberHas(keys, ms[i]);
    }
  }

  lemma {:induction false} ArrayHasIff(keys: Keys, v: Value)
    requires v.Arr?
    ensures Has(keys, v) <==> SomeCovered(keys, TreeOf(v))
    decreases v, 0
  {
    var xs, t := v.items, TreeOf(v);
    ItemsHaveIff(keys, xs);
    if i :| 0 <= i < |xs| && Has(keys, xs[i].value) {
      TreeOfItem(xs, i);
      HasIff(keys, xs[i].value);
      CoveredThrough(keys, t, i);
    }
    if SomeCovered(keys, t) {
      var i := CoveredFrom(keys, t);
      TreeOfItem(xs, i);
      HasIff(keys, xs[i].value);
      assert Has(keys, xs[i].value);
    }
  }

  /** Text that is not JSON, and JSON without a sensitive key at any depth, passes byte for byte. */
  lemma OtherTextPasses(keys: Keys, s: string)
    requires ParseDoc(s).Got? ==> !SomeCovered(keys, TreeOf(ParseDoc(s).value.value))
    ensures RedactedText(keys, s) == s
  {
    if ParseDoc(s).Got? {
      HasIff(keys, ParseDoc(s).value.value);
    }
  }

  /** And so it is for the text: its redacted form parses, to a tree that is redacted place by place. */
  lemma RedactedTextAt(keys: Keys, s: string, path: seq<nat>)
    requires ParseDoc(s).Got? && At(TreeOf(ParseDoc(s).value.value), path).Some?
    ensures ParseDoc(RedactedText(keys, s)).Got?
    ensures var t := TreeOf(ParseDoc(s).value.value);
            var there := At(TreeOf(ParseDoc(RedactedText(keys, s)).value.value), path);
            RedactedThere(keys, t, path, there)
  {
    RedactionKeepsTheTree(keys, s);
    RedactedAt(keys, TreeOf(ParseDoc(s).value.value), path);
  }
}
