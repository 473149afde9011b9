/**
  The canonical text of an action's input: object keys sorted, undefined members left
  out.  Two inputs print alike exactly when they are the same up to key order.
 */
module StableJson {
  import opened Wrappers

  /**
    A JavaScript value as far as JSON sees it.  A finite number is its decimal text;
    a number JSON cannot express is `Null`.
   */
  datatype Json =
    | Undefined
    | Null
    | Bool(b: bool)
    | Number(text: string)
    | Text(s: string)
    | Array(items: seq<Json>)
    | Object(members: seq<Member>)

  datatype Member = Member(key: string, value: Json)

  // ---------------------------------------------------------------- strings

  predicate NumberChar(c: char) { '0' <= c <= '9' || c in {'-', '+', '.', 'e'} }

  predicate NumberText(text: string) {
    && text != [] && ('0' <= text[0] <= '9' || text[0] == '-')
    && forall i :: 0 <= i < |text| ==> NumberChar(text[i])
  }

  function Hex(n: nat): char
    requires n < 16
  {
    "0123456789abcdef"[n]
  }

  /** `JSON.stringify` of one character inside a string. */
  function Escape(c: char): string {
    if c == '\"' then "\\\""
    else if c == '\\' then "\\\\"
    else if c == '\U{8}' then "\\b"
    else if c == '\t' then "\\t"
    else if c == '\n' then "\\n"
    else if c == '\U{c}' then "\\f"
    else if c == '\r' then "\\r"
    else if c < ' ' then "\\u00" + [Hex(c as int / 16), Hex(c as int % 16)]
    else [c]
  }

  function EscapeAll(s: string): string {
    if s == [] then [] else Escape(s[0]) + EscapeAll(s[1..])
  }

  function Quote(s: string): string { "\"" + EscapeAll(s) + "\"" }

  lemma EscapeIsPrefixFree(c: char, d: char, x: string, y: string)
    requires Escape(c) + x == Escape(d) + y
    ensures c == d && x == y
  {
    var l, r := Escape(c) + x, Escape(d) + y;
    assert l[0] == Escape(c)[0] && r[0] == Escape(d)[0];
    if l[0] == '\\' {
      assert l[1] == Escape(c)[1] && r[1] == Escape(d)[1];
      if l[1] == 'u' {
        assert l[4] == Escape(c)[4] && r[4] == Escape(d)[4] && l[5] == Escape(c)[5] && r[5] == Escape(d)[5];
        HexIsInjective(c as int / 16, d as int / 16);
        HexIsInjective(c as int % 16, d as int % 16);
      }
    }
    assert x == l[|Escape(c)|..] && y == r[|Escape(d)|..];
  }

  lemma HexIsInjective(m: nat, n: nat)
    requires m < 16 && n < 16
    ensures Hex(m) == Hex(n) ==> m == n
  {
  }

  // ---------------------------------------------------------------- key order

  predicate KeyLess(a: string, b: string) {
    b != [] && (a == [] || a[0] < b[0] || (a[0] == b[0] && KeyLess(a[1..], b[1..])))
  }

  lemma {:induction false} KeyLessIsTotal(a: string, b: string)
    ensures a == b || KeyLess(a, b) || KeyLess(b, a)
    ensures !(KeyLess(a, b) && KeyLess(b, a)) && !KeyLess(a, a)
  {
    if a != [] && b != [] && a[0] == b[0] {
      KeyLessIsTotal(a[1..], b[1..]);
      assert a == [a[0]] + a[1..] && b == [b[0]] + b[1..];
    }
    if a != [] { KeyLessIsTotal(a[1..], a[1..]); }
  }

  lemma {:induction false} KeyLessIsTransitive(a: string, b: string, c: string)
    requires KeyLess(a, b) && KeyLess(b, c)
    ensures KeyLess(a, c)
  {
    if a != [] && a[0] == b[0] == c[0] { KeyLessIsTransitive(a[1..], b[1..], c[1..]); }
  }

  function Insert(m: Member, ms: seq<Member>): (r: seq<Member>)
    ensures forall x :: x in r <==> x == m || x in ms
    ensures |r| == |ms| + 1
  {
    if ms == [] then [m]
    else if KeyLess(m.key, ms[0].key) then [m] + ms
    else [ms[0]] + Insert(m, ms[1..])
  }

  /** `Object.keys(record).filter(...).sort()`, carrying the values along. */
  function Sorted(ms: seq<Member>): (r: seq<Member>)
    ensures forall x :: x in r <==> x in ms && !x.value.Undefined?
  {
    if ms == [] then []
    else if ms[0].value.Undefined? then Sorted(ms[1..])
    else Insert(ms[0], Sorted(ms[1..]))
  }

  ghost predicate Ascending(ms: seq<Member>) {
    forall i, j :: 0 <= i < j < |ms| ==> KeyLess(ms[i].key, ms[j].key)
  }

  ghost predicate DistinctKeys(ms: seq<Member>) {
    forall i, j :: 0 <= i < j < |ms| ==> ms[i].key != ms[j].key
  }

  lemma {:induction false} InsertAscends(m: Member, ms: seq<Member>)
    requires Ascending(ms) && forall x :: x in ms ==> x.key != m.key
    ensures Ascending(Insert(m, ms))
  {
    if ms != [] {
      KeyLessIsTotal(m.key, ms[0].key);
      if KeyLess(m.key, ms[0].key) {
        forall j | 0 < j < |ms| ensures KeyLess(m.key, ms[j].key) {
          KeyLessIsTransitive(m.key, ms[0].key, ms[j].key);
        }
      } else {
        InsertAscends(m, ms[1..]);
        var r := Insert(m, ms[1..]);
        forall j | 0 <= j < |r| ensures KeyLess(ms[0].key, r[j].key) {
          assert r[j] in r;
          assert r[j] == m || r[j] in ms[1..];
        }
      }
    }
  }

  lemma {:induction false} SortedAscends(ms: seq<Member>)
    requires DistinctKeys(ms)
    ensures Ascending(Sorted(ms))
  {
    if ms != [] {
      SortedAscends(ms[1..]);
      if !ms[0].value.Undefined? {
        forall x | x in Sorted(ms[1..]) ensures x.key != ms[0].key { assert x in ms[1..]; }
        InsertAscends(ms[0], Sorted(ms[1..]));
      }
    }
  }

  // ---------------------------------------------------------------- printing

  /** The source's recursive printer. */
  function Print(j: Json): string
    decreases j, 1
  {
    match j
    case Undefined => "null"
    case Null => "null"
    case Bool(b) => if b then "true" else "false"
    case Number(text) => text
    case Text(s) => Quote(s)
    case Array(items) => "[" + PrintItems(items) + "]"
    case Object(members) =>
      assert forall m :: m in Sorted(members) ==> m in members;
      "{" + PrintMembers(j, Sorted(members)) + "}"
  }

  function PrintItems(items: seq<Json>): string
    decreases items, 0
  {
    if items == [] then ""
    else if |items| == 1 then Print(items[0])
    else Print(items[0]) + "," + PrintItems(items[1..])
  }

  function PrintMembers(whole: Json, ms: seq<Member>): string
    requires whole.Object? && forall m :: m in ms ==> m in whole.members
    decreases whole, 0, |ms|
  {
    if ms == [] then ""
    else
      var first := Quote(ms[0].key) + ":" + (assert ms[0] in whole.members; Print(ms[0].value));
      if |ms| == 1 then first else first + "," + PrintMembers(whole, ms[1..])
  }

  // ---------------------------------------------------------------- sameness

  /** A value JavaScript can hold: distinct keys, and numbers that print as numbers. */
  ghost predicate Valid(j: Json)
    decreases j
  {
    match j
    case Number(text) => NumberText(text)
    case Array(items) => forall i :: 0 <= i < |items| ==> Valid(items[i])
    case Object(members) => DistinctKeys(members) && forall m :: m in members ==> Valid(m.value)
    case _ => true
  }

  /** The value a record holds under a key; an undefined member is an absent one. */
  function Get(ms: seq<Member>, key: string): (r: Option<Json>)
    ensures r.Some? ==> Member(key, r.value) in ms && !r.value.Undefined?
    ensures r.None? ==> forall v :: Member(key, v) in ms ==> v.Undefined?
  {
    if ms == [] then None
    else if ms[0].key == key && !ms[0].value.Undefined? then Some(ms[0].value)
    else Get(ms[1..], key)
  }

  /** Equal up to the order of object keys; an undefined member is an absent one, an undefined item is null. */
  ghost predicate Same(a: Json, b: Json)
    decreases a
  {
    match a
    case Undefined => b.Undefined? || b.Null?
    case Null => b.Undefined? || b.Null?
    case Bool(_) => a == b
    case Number(_) => a == b
    case Text(_) => a == b
    case Array(items) =>
      b.Array? && |items| == |b.items| && forall i :: 0 <= i < |items| ==> Same(items[i], b.items[i])
    case Object(members) =>
      && b.Object?
      && forall key :: Get(members, key).Some? == Get(b.members, key).Some?
           && (Get(members, key).Some? && Get(b.members, key).Some? ==>
                 (assert Member(key, Get(members, key).value) in members;
                  Same(Get(members, key).value, Get(b.members, key).value)))
  }

  // ---------------------------------------------------------------- unique reading

  /** A value is always followed by the end of the text or by a character no number contains. */
  predicate Stops(x: string) { x == [] || !NumberChar(x[0]) }

  lemma {:induction false} NumberIsUnique(s: string, t: string, x: string, y: string)
    requires (forall i :: 0 <= i < |s| ==> NumberChar(s[i])) && (forall i :: 0 <= i < |t| ==> NumberChar(t[i]))
    requires s + x == t + y && Stops(x) && Stops(y)
    ensures s == t && x == y
  {
    assert s != [] ==> (s + x)[0] == s[0];
    assert t != [] ==> (t + y)[0] == t[0];
    assert [] + x == x && [] + y == y;
    if s != [] && t != [] {
      assert s[1..] + x == (s + x)[1..] && t[1..] + y == (t + y)[1..];
      NumberIsUnique(s[1..], t[1..], x, y);
      assert s == [s[0]] + s[1..] && t == [t[0]] + t[1..];
    }
  }

  // ---------------------------------------------------------------- canonical values

  /** Object keys sorted, undefined members gone, undefined items null. */
  function Canon(j: Json): Json
    decreases j, 1
  {
    match j
    case Undefined => Null
    case Array(items) => Array(CanonItems(items))
    case Object(members) =>
      assert forall m :: m in Sorted(members) ==> m in members;
      Object(CanonMembers(j, Sorted(members)))
    case _ => j
  }

  function CanonItems(items: seq<Json>): (r: seq<Json>)
    ensures |r| == |items| && forall i :: 0 <= i < |r| ==> r[i] == Canon(items[i])
    decreases items, 0
  {
    if items == [] then [] else [Canon(items[0])] + CanonItems(items[1..])
  }

  function CanonMembers(whole: Json, ms: seq<Member>): (r: seq<Member>)
    requires whole.Object? && forall m :: m in ms ==> m in whole.members
    ensures |r| == |ms|
    ensures forall i :: 0 <= i < |r| ==> ms[i] in whole.members && r[i] == Member(ms[i].key, Canon(ms[i].value))
    decreases whole, 0, |ms|
  {
    if ms == [] then []
    else
      assert ms[0] in whole.members;
      [Member(ms[0].key, Canon(ms[0].value))] + CanonMembers(whole, ms[1..])
  }

  ghost predicate Plain(j: Json)
    decreases j
  {
    match j
    case Undefined => false
    case Number(text) => NumberText(text)
    case Array(items) => forall i :: 0 <= i < |items| ==> Plain(items[i])
    case Object(members) => forall i :: 0 <= i < |members| ==> Plain(members[i].value)
    case _ => true
  }

  lemma {:induction false} CanonIsPlain(j: Json)
    requires Valid(j)
    ensures Plain(Canon(j))
    decreases j
  {
    match j
    case Array(items) =>
      forall i | 0 <= i < |items| ensures Plain(Canon(items[i])) { CanonIsPlain(items[i]); }
    case Object(members) =>
      forall m | m in members ensures Plain(Canon(m.value)) { CanonIsPlain(m.value); }
      assert Canon(j).Object?;
    case _ =>
  }

  // ---------------------------------------------------------------- printing with a continuation

  function BodyTo(s: string, rest: string): string {
    if s == [] then "\"" + rest else Escape(s[0]) + BodyTo(s[1..], rest)
  }

  function PrintTo(j: Json, rest: string): string
    decreases j, 1
  {
    match j
    case Undefined => "null" + rest
    case Null => "null" + rest
    case Bool(b) => (if b then "true" else "false") + rest
    case Number(text) => text + rest
    case Text(s) => "\"" + BodyTo(s, rest)
    case Array(items) => "[" + ItemsTo(items, "]" + rest)
    case Object(members) => "{" + MembersTo(members, "}" + rest)
  }

  function ItemsTo(items: seq<Json>, rest: string): string
    decreases items, 0
  {
    if items == [] then rest
    else PrintTo(items[0], if |items| == 1 then rest else "," + ItemsTo(items[1..], rest))
  }

  function MembersTo(ms: seq<Member>, rest: string): string
    decreases ms, 0
  {
    if ms == [] then rest
    else
      "\"" + BodyTo(ms[0].key, ":" + PrintTo(ms[0].value, if |ms| == 1 then rest else "," + MembersTo(ms[1..], rest)))
  }

  lemma {:induction false} BodyIsQuote(s: string, rest: string)
    ensures "\"" + BodyTo(s, rest) == Quote(s) + rest
  {
    BodyIsEscaped(s, rest);
  }

  lemma {:induction false} BodyIsEscaped(s: string, rest: string)
    ensures BodyTo(s, rest) == EscapeAll(s) + "\"" + rest
  {
    if s != [] { BodyIsEscaped(s[1..], rest); }
  }

  /** The printer's text is the canonical value's text. */
  lemma {:induction false} PrintIsCanonical(j: Json, rest: string)
    ensures Print(j) + rest == PrintTo(Canon(j), rest)
    decreases j, 1
  {
    match j
    case Text(s) => BodyIsQuote(s, rest);
    case Array(items) =>
      ItemsAreCanonical(items, "]" + rest);
      Regroup("[", PrintItems(items), "]", rest);
    case Object(members) =>
      MembersAreCanonical(j, Sorted(members), "}" + rest);
      Regroup("{", PrintMembers(j, Sorted(members)), "}", rest);
    case _ =>
  }

  lemma {:induction false} ItemsAreCanonical(items: seq<Json>, rest: string)
    ensures PrintItems(items) + rest == ItemsTo(CanonItems(items), rest)
    decreases items, 0
  {
    if |items| == 1 {
      PrintIsCanonical(items[0], rest);
    } else if items != [] {
      ItemsAreCanonical(items[1..], rest);
      assert CanonItems(items)[1..] == CanonItems(items[1..]);
      PrintIsCanonical(items[0], "," + ItemsTo(CanonItems(items[1..]), rest));
      Regroup(Print(items[0]), ",", PrintItems(items[1..]), rest);
    }
  }

  lemma {:induction false} MembersAreCanonical(whole: Json, ms: seq<Member>, rest: string)
    requires whole.Object? && forall m :: m in ms ==> m in whole.members
    ensures PrintMembers(whole, ms) + rest == MembersTo(CanonMembers(whole, ms), rest)
    decreases whole, 0, |ms|
  {
    if ms != [] {
      assert ms[0] in whole.members;
      var key, value, canon := Quote(ms[0].key), Print(ms[0].value), CanonMembers(whole, ms);
      assert canon[1..] == CanonMembers(whole, ms[1..]);
      var tail := MembersRest(canon, rest);
      PrintIsCanonical(ms[0].value, tail);
      BodyIsQuote(ms[0].key, ":" + (value + tail));
      if |ms| == 1 {
        Regroup(key, ":", value, rest);
      } else {
        MembersAreCanonical(whole, ms[1..], rest);
        var others := PrintMembers(whole, ms[1..]);
        Regroup(key, ":", value, "," + (others + rest));
        Regroup(key + ":" + value, ",", others, rest);
      }
    }
  }

  lemma Regroup(a: string, b: string, c: string, d: string)
    ensures (a + b + c) + d == a + (b + (c + d))
  {
  }

  // ---------------------------------------------------------------- unique reading of canonical text

  lemma {:induction false} BodyIsUnique(s: string, t: string, x: string, y: string)
    requires BodyTo(s, x) == BodyTo(t, y)
    ensures s == t && x == y
  {
    var l, r := BodyTo(s, x), BodyTo(t, y);
    assert l[0] == if s == [] then '\"' else Escape(s[0])[0];
    assert r[0] == if t == [] then '\"' else Escape(t[0])[0];
    if s == [] {
      assert x == l[1..] && y == r[1..];
    } else {
      EscapeIsPrefixFree(s[0], t[0], BodyTo(s[1..], x), BodyTo(t[1..], y));
      BodyIsUnique(s[1..], t[1..], x, y);
      assert s == [s[0]] + s[1..] && t == [t[0]] + t[1..];
    }
  }

  function Lead(j: Json): char
    requires Plain(j)
  {
    match j
    case Undefined => 'n'
    case Null => 'n'
    case Bool(b) => if b then 't' else 'f'
    case Number(text) => text[0]
    case Text(_) => '\"'
    case Array(_) => '['
    case Object(_) => '{'
  }

  /** The first character of a printed value tells what kind of value it is. */
  lemma LeadIsFirst(j: Json, rest: string)
    requires Plain(j)
    ensures PrintTo(j, rest) != [] && PrintTo(j, rest)[0] == Lead(j)
    ensures Lead(j) !in {']', '}', ',', ':'}
  {
  }

  lemma {:induction false} ValueIsUnique(a: Json, b: Json, x: string, y: string)
    requires Plain(a) && Plain(b) && Stops(x) && Stops(y)
    requires PrintTo(a, x) == PrintTo(b, y)
    ensures a == b && x == y
    decreases a, 1
  {
    LeadIsFirst(a, x);
    LeadIsFirst(b, y);
    var l, r := PrintTo(a, x), PrintTo(b, y);
    assert Lead(a) == Lead(b);
    match a
    case Number(text) => NumberIsUnique(text, b.text, x, y);
    case Text(s) =>
      assert l[1..] == BodyTo(s, x) && r[1..] == BodyTo(b.s, y);
      BodyIsUnique(s, b.s, x, y);
    case Array(items) =>
      assert l[1..] == ItemsTo(items, "]" + x) && r[1..] == ItemsTo(b.items, "]" + y);
      ItemsAreUnique(items, b.items, "]" + x, "]" + y);
      assert x == ("]" + x)[1..] && y == ("]" + y)[1..];
    case Object(members) =>
      assert l[1..] == MembersTo(members, "}" + x) && r[1..] == MembersTo(b.members, "}" + y);
      MembersAreUnique(members, b.members, "}" + x, "}" + y);
      assert x == ("}" + x)[1..] && y == ("}" + y)[1..];
    case Bool(v) =>
      assert x == l[if v then 4 else 5..] && y == r[if v then 4 else 5..];
    case Null => assert x == l[4..] && y == r[4..];
    case Undefined =>
  }

  lemma {:induction false} ItemsAreUnique(a: seq<Json>, b: seq<Json>, x: string, y: string)
    requires (forall i :: 0 <= i < |a| ==> Plain(a[i])) && (forall i :: 0 <= i < |b| ==> Plain(b[i]))
    requires x != [] && x[0] == ']' && y != [] && y[0] == ']'
    requires ItemsTo(a, x) == ItemsTo(b, y)
    ensures a == b && x == y
    decreases a, 0
  {
    var ra, rb := ItemsRest(a, x), ItemsRest(b, y);
    if a != [] { LeadIsFirst(a[0], ra); }
    if b != [] { LeadIsFirst(b[0], rb); }
    if a != [] {
      ValueIsUnique(a[0], b[0], ra, rb);
      if |a| > 1 {
        assert ra[1..] == ItemsTo(a[1..], x) && rb[1..] == ItemsTo(b[1..], y);
        ItemsAreUnique(a[1..], b[1..], x, y);
      }
      assert a == [a[0]] + a[1..] && b == [b[0]] + b[1..];
    }
  }

  /** What follows the first of several items. */
  function ItemsRest(a: seq<Json>, x: string): string { if |a| <= 1 then x else "," + ItemsTo(a[1..], x) }

  function MembersRest(a: seq<Member>, x: string): string { if |a| <= 1 then x else "," + MembersTo(a[1..], x) }

  lemma {:induction false} MembersAreUnique(a: seq<Member>, b: seq<Member>, x: string, y: string)
    requires (forall i :: 0 <= i < |a| ==> Plain(a[i].value)) && (forall i :: 0 <= i < |b| ==> Plain(b[i].value))
    requires x != [] && x[0] == '}' && y != [] && y[0] == '}'
    requires MembersTo(a, x) == MembersTo(b, y)
    ensures a == b && x == y
    decreases a, 0
  {
    if a != [] {
      var ra, rb := MembersRest(a, x), MembersRest(b, y);
      var va, vb := PrintTo(a[0].value, ra), PrintTo(b[0].value, rb);
      assert MembersTo(a, x)[1..] == BodyTo(a[0].key, ":" + va) && MembersTo(b, y)[1..] == BodyTo(b[0].key, ":" + vb);
      BodyIsUnique(a[0].key, b[0].key, ":" + va, ":" + vb);
      assert va == (":" + va)[1..] && vb == (":" + vb)[1..];
      ValueIsUnique(a[0].value, b[0].value, ra, rb);
      if |a| > 1 {
        assert ra[1..] == MembersTo(a[1..], x) && rb[1..] == MembersTo(b[1..], y);
        MembersAreUnique(a[1..], b[1..], x, y);
      }
      assert a == [a[0]] + a[1..] && b == [b[0]] + b[1..];
    }
  }

  // ---------------------------------------------------------------- sameness is canonical equality

  lemma {:induction false} AscendingIsUnique(a: seq<Member>, b: seq<Member>)
    requires Ascending(a) && Ascending(b) && forall m :: m in a <==> m in b
    ensures a == b
  {
    assert a != [] ==> a[0] in b;
    assert b != [] ==> b[0] in a;
    if a != [] {
      KeyLessIsTotal(a[0].key, b[0].key);
      assert a[0] == b[0];
      forall m ensures m in a[1..] <==> m in b[1..] {
        KeyLessIsTotal(a[0].key, a[0].key);
        assert m in a[1..] ==> m in a && m != a[0];
        assert m in b[1..] ==> m in b && m != b[0];
        assert m in a && m != a[0] ==> m in a[1..];
        assert m in b && m != b[0] ==> m in b[1..];
      }
      AscendingIsUnique(a[1..], b[1..]);
      assert a == [a[0]] + a[1..] && b == [b[0]] + b[1..];
    }
  }

  lemma CanonHas(j: Json, m: Member)
    requires j.Object? && m in j.members && !m.value.Undefined?
    ensures Canon(j).Object? && Member(m.key, Canon(m.value)) in Canon(j).members
  {
    var sorted := Sorted(j.members);
    assert m in sorted;
    var i :| 0 <= i < |sorted| && sorted[i] == m;
    assert Canon(j).members[i] == Member(m.key, Canon(m.value));
  }

  lemma CanonOnly(j: Json, x: Member) returns (m: Member)
    requires j.Object? && Canon(j).Object? && x in Canon(j).members
    ensures m in j.members && !m.value.Undefined? && x == Member(m.key, Canon(m.value))
  {
    var sorted := Sorted(j.members);
    var i :| 0 <= i < |Canon(j).members| && Canon(j).members[i] == x;
    m := sorted[i];
    assert m in sorted;
  }

  lemma GetFinds(ms: seq<Member>, m: Member)
    requires DistinctKeys(ms) && m in ms && !m.value.Undefined?
    ensures Get(ms, m.key) == Some(m.value)
  {
    var i :| 0 <= i < |ms| && ms[i] == m;
    var r := Get(ms, m.key);
    assert Member(m.key, m.value) == m;
    var k :| 0 <= k < |ms| && ms[k] == Member(m.key, r.value);
    assert i == k;
  }

  /** The canonical members of a record are the canonical values of what `Get` finds. */
  lemma CanonMembersAre(j: Json, x: Member)
    requires j.Object? && DistinctKeys(j.members)
    ensures Canon(j).Object?
    ensures x in Canon(j).members <==>
      Get(j.members, x.key).Some? && x.value == Canon(Get(j.members, x.key).value)
  {
    if x in Canon(j).members {
      var m := CanonOnly(j, x);
      GetFinds(j.members, m);
    }
    var r := Get(j.members, x.key);
    if r.Some? && x.value == Canon(r.value) { CanonHas(j, Member(x.key, r.value)); }
  }

  lemma CanonAscends(j: Json)
    requires j.Object? && DistinctKeys(j.members)
    ensures Canon(j).Object? && Ascending(Canon(j).members)
  {
    SortedAscends(j.members);
    var sorted, c := Sorted(j.members), Canon(j).members;
    assert |c| == |sorted| && forall i :: 0 <= i < |c| ==> c[i].key == sorted[i].key;
  }

  lemma {:induction false} SameObjectsAreEqual(a: Json, b: Json)
    requires Valid(a) && Valid(b) && a.Object? && Same(a, b)
    ensures Canon(a) == Canon(b)
    decreases a, 0, 1
  {
    CanonAscends(a);
    CanonAscends(b);
    forall x ensures x in Canon(a).members <==> x in Canon(b).members {
      CanonMembersAre(a, x);
      CanonMembersAre(b, x);
      SameMembersAreEqual(a, b, x.key);
    }
    AscendingIsUnique(Canon(a).members, Canon(b).members);
  }

  lemma {:induction false} SameMembersAreEqual(a: Json, b: Json, key: string)
    requires Valid(a) && Valid(b) && a.Object? && b.Object? && Same(a, b)
    ensures var v, w := Get(a.members, key), Get(b.members, key);
      v.Some? == w.Some? && (v.Some? ==> Canon(v.value) == Canon(w.value))
    decreases a, 0, 0
  {
    var v, w := Get(a.members, key), Get(b.members, key);
    if v.Some? {
      assert Member(key, v.value) in a.members && Member(key, w.value) in b.members;
      SameAreEqual(v.value, w.value);
    }
  }

  lemma {:induction false} SameAreEqual(a: Json, b: Json)
    requires Valid(a) && Valid(b) && Same(a, b)
    ensures Canon(a) == Canon(b)
    decreases a, 1
  {
    match a
    case Array(items) =>
      forall i | 0 <= i < |items| ensures Canon(items[i]) == Canon(b.items[i]) { SameAreEqual(items[i], b.items[i]); }
      assert CanonItems(items) == CanonItems(b.items);
    case Object(_) => SameObjectsAreEqual(a, b);
    case _ =>
  }

  lemma {:induction false} EqualObjectsAreSame(a: Json, b: Json)
    requires Valid(a) && Valid(b) && a.Object? && b.Object? && Canon(a) == Canon(b)
    ensures Same(a, b)
    decreases a, 0
  {
    forall key ensures Get(a.members, key).Some? == Get(b.members, key).Some?
      && (Get(a.members, key).Some? ==> Same(Get(a.members, key).value, Get(b.members, key).value))
    {
      var v, w := Get(a.members, key), Get(b.members, key);
      if v.Some? { EqualMembers(a, b, key, v.value); }
      if w.Some? { EqualMembers(b, a, key, w.value); }
      if v.Some? {
        assert Member(key, v.value) in a.members && Member(key, w.value) in b.members;
        EqualAreSame(v.value, w.value);
      }
    }
  }

  lemma EqualMembers(a: Json, b: Json, key: string, v: Json)
    requires a.Object? && b.Object? && DistinctKeys(a.members) && DistinctKeys(b.members) && Canon(a) == Canon(b)
    requires Get(a.members, key) == Some(v)
    ensures Get(b.members, key).Some? && Canon(Get(b.members, key).value) == Canon(v)
  {
    CanonMembersAre(a, Member(key, Canon(v)));
    CanonMembersAre(b, Member(key, Canon(v)));
  }

  lemma {:induction false} EqualAreSame(a: Json, b: Json)
    requires Valid(a) && Valid(b) && Canon(a) == Canon(b)
    ensures Same(a, b)
    decreases a, 1
  {
    match a
    case Array(items) =>
      assert CanonItems(items) == CanonItems(b.items);
      forall i | 0 <= i < |items| ensures Same(items[i], b.items[i]) {
        assert CanonItems(items)[i] == CanonItems(b.items)[i];
        EqualAreSame(items[i], b.items[i]);
      }
    case Object(_) => EqualObjectsAreSame(a, b);
    case _ =>
  }

  /** The canonical text identifies an input exactly up to key order and absent members. */
  lemma TextIdentifiesInput(a: Json, b: Json)
    requires Valid(a) && Valid(b)
    ensures Print(a) == Print(b) <==> Same(a, b)
  {
    PrintIsCanonical(a, "");
    PrintIsCanonical(b, "");
    assert Print(a) + "" == Print(a) && Print(b) + "" == Print(b);
    if Print(a) == Print(b) {
      CanonIsPlain(a);
      CanonIsPlain(b);
      ValueIsUnique(Canon(a), Canon(b), "", "");
      EqualAreSame(a, b);
    }
    if Same(a, b) { SameAreEqual(a, b); }
  }
}
