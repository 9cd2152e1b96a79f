/**
  The canonical text that is hashed when a decision is locked, verified or exported:
  `json.dumps(value, sort_keys=True, separators=(",", ":"), ensure_ascii=True)`.

  A `Json` value keeps the order in which a Python dictionary was filled; JSONB does not.
  `Denote` forgets that order, so two values are the same dictionary exactly when their
  denotations are equal.  `Text` is the canonical text and `Read` reads it back.
 */
module CanonicalJson {
  import opened Options

  datatype Json =
    | Null
    | Bool(b: bool)
    | Int(n: int)
    | Decimal(hundredths: nat)  // a float that `round(_, 2)` returned
    | Str(s: string)
    | Arr(items: seq<Json>)
    | Obj(members: seq<Entry>)

  datatype Entry = Entry(key: string, value: Json)

  // ---------------------------------------------------------------- meaning

  /** A value without the order of its object members. */
  datatype Value =
    | VNull
    | VBool(b: bool)
    | VInt(n: int)
    | VDecimal(hundredths: nat)
    | VStr(s: string)
    | VArr(items: seq<Value>)
    | VObj(fields: map<string, Value>)

  function Denote(v: Json): Value
    decreases v, 1
  {
    match v
    case Null => VNull
    case Bool(b) => VBool(b)
    case Int(n) => VInt(n)
    case Decimal(h) => VDecimal(h)
    case Str(s) => VStr(s)
    case Arr(items) => VArr(DenoteItems(items))
    case Obj(members) => VObj(DenoteMembers(members))
  }

  function DenoteItems(items: seq<Json>): (values: seq<Value>)
    ensures |values| == |items|
    ensures forall i :: 0 <= i < |items| ==> values[i] == Denote(items[i])
    decreases items, 0
  {
    if items == [] then [] else [Denote(items[0])] + DenoteItems(items[1..])
  }

  function DenoteMembers(members: seq<Entry>): (fields: map<string, Value>)
    ensures fields.Keys == Keys(members)
    decreases members, 0
  {
    if members == [] then map[]
    else DenoteMembers(members[1..])[members[0].key := Denote(members[0].value)]
  }

  function Keys(members: seq<Entry>): set<string> {
    if members == [] then {} else {members[0].key} + Keys(members[1..])
  }

  /** Every object in `v` has distinct keys, as a dictionary does. */
  ghost predicate IsDict(v: Json)
    decreases v, 1
  {
    match v
    case Arr(items) => AreDicts(items)
    case Obj(members) => MembersAreDicts(members)
    case _ => true
  }

  ghost predicate AreDicts(items: seq<Json>)
    decreases items, 0
  {
    items == [] || (IsDict(items[0]) && AreDicts(items[1..]))
  }

  ghost predicate MembersAreDicts(members: seq<Entry>)
    decreases members, 0
  {
    members == [] ||
    (members[0].key !in Keys(members[1..]) && IsDict(members[0].value) && MembersAreDicts(members[1..]))
  }

  // ---------------------------------------------------------------- sort_keys

  /** Python's order on strings: by code point, a proper prefix first. */
  predicate Precedes(a: string, b: string) {
    if b == "" then false
    else if a == "" then true
    else if a[0] == b[0] then Precedes(a[1..], b[1..])
    else a[0] < b[0]
  }

  /** Code point order, in terms of positions: where the strings first differ, or where the shorter one ends. */
  ghost predicate DiffersUpwardsAt(a: string, b: string, i: nat) {
    i <= |a| && i < |b| && a[..i] == b[..i] && (i < |a| ==> a[i] < b[i])
  }

  lemma {:induction false} PrecedesIsCodePointOrder(a: string, b: string)
    ensures Precedes(a, b) <==> exists i: nat :: DiffersUpwardsAt(a, b, i)
  {
    if b == "" || a == "" {
      assert b != "" ==> DiffersUpwardsAt(a, b, 0);
    } else if a[0] == b[0] {
      PrecedesIsCodePointOrder(a[1..], b[1..]);
      if i: nat :| DiffersUpwardsAt(a[1..], b[1..], i) {
        assert a[..i + 1] == [a[0]] + a[1..][..i] && b[..i + 1] == [b[0]] + b[1..][..i];
        assert DiffersUpwardsAt(a, b, i + 1);
      }
      if i: nat :| DiffersUpwardsAt(a, b, i) {
        assert a[..i] == b[..i] && i > 0;
        assert a[1..][..i - 1] == a[..i][1..] && b[1..][..i - 1] == b[..i][1..];
        assert DiffersUpwardsAt(a[1..], b[1..], i - 1);
      }
    } else {
      if a[0] < b[0] {
        assert DiffersUpwardsAt(a, b, 0);
      }
      if i: nat :| DiffersUpwardsAt(a, b, i) {
        assert i > 0 ==> a[..i][0] == b[..i][0];
      }
    }
  }

  lemma {:induction false} PrecedesIsTotal(a: string, b: string)
    ensures Precedes(a, b) || Precedes(b, a) || a == b
    ensures !(Precedes(a, b) && Precedes(b, a)) && !Precedes(a, a)
  {
    if a != "" {
      PrecedesIsTotal(a[1..], if b == "" then "" else b[1..]);
      PrecedesIsTotal(a[1..], a[1..]);
      if b != "" && a[0] == b[0] && a[1..] == b[1..] {
        assert a == [a[0]] + a[1..] && b == [b[0]] + b[1..];
      }
    }
  }

  lemma {:induction false} PrecedesIsTransitive(a: string, b: string, c: string)
    requires Precedes(a, b) && Precedes(b, c)
    ensures Precedes(a, c)
  {
    if a != "" && a[0] == b[0] && b[0] == c[0] {
      PrecedesIsTransitive(a[1..], b[1..], c[1..]);
    }
  }

  function Insert(m: Entry, members: seq<Entry>): seq<Entry> {
    if members == [] || Precedes(m.key, members[0].key) then [m] + members
    else [members[0]] + Insert(m, members[1..])
  }

  /** `v` with the members of every object in key order. */
  function Normal(v: Json): Json
    decreases v, 1
  {
    match v
    case Arr(items) => Arr(NormalItems(items))
    case Obj(members) => Obj(NormalMembers(members))
    case _ => v
  }

  function NormalItems(items: seq<Json>): seq<Json>
    decreases items, 0
  {
    if items == [] then [] else [Normal(items[0])] + NormalItems(items[1..])
  }

  function NormalMembers(members: seq<Entry>): seq<Entry>
    decreases members, 0
  {
    if members == [] then []
    else Insert(Entry(members[0].key, Normal(members[0].value)), NormalMembers(members[1..]))
  }

  ghost predicate InKeyOrder(members: seq<Entry>) {
    forall i, j :: 0 <= i < j < |members| ==> Precedes(members[i].key, members[j].key)
  }

  /** The dictionary a member list stands for. */
  function AsMap(members: seq<Entry>): (fields: map<string, Json>)
    ensures fields.Keys == Keys(members)
  {
    if members == [] then map[] else AsMap(members[1..])[members[0].key := members[0].value]
  }

  lemma AsMapCons(m: Entry, members: seq<Entry>)
    ensures AsMap([m] + members) == AsMap(members)[m.key := m.value]
  {
    assert ([m] + members)[1..] == members;
  }

  lemma {:induction false} AsMapPoints(members: seq<Entry>, k: string) returns (i: nat)
    requires k in Keys(members)
    ensures i < |members| && members[i] == Entry(k, AsMap(members)[k])
  {
    if members[0].key == k {
      i := 0;
    } else {
      var j := AsMapPoints(members[1..], k);
      i := j + 1;
    }
  }

  lemma {:induction false} DenoteIsPointwise(members: seq<Entry>)
    ensures forall k <- Keys(members) :: DenoteMembers(members)[k] == Denote(AsMap(members)[k])
  {
    if members != [] {
      DenoteIsPointwise(members[1..]);
    }
  }

  lemma {:induction false} InsertAsMap(m: Entry, members: seq<Entry>)
    requires m.key !in Keys(members)
    ensures AsMap(Insert(m, members)) == AsMap(members)[m.key := m.value]
  {
    if members == [] || Precedes(m.key, members[0].key) {
      AsMapCons(m, members);
    } else {
      var head, tail := members[0], members[1..];
      InsertAsMap(m, tail);
      calc {
        AsMap(Insert(m, members));
        { AsMapCons(head, Insert(m, tail)); }
        AsMap(tail)[m.key := m.value][head.key := head.value];
        { assert head.key != m.key; }
        AsMap(tail)[head.key := head.value][m.key := m.value];
        { AsMapCons(head, tail); assert members == [head] + tail; }
        AsMap(members)[m.key := m.value];
      }
    }
  }

  lemma {:induction false} InsertKeepsOrder(m: Entry, members: seq<Entry>)
    requires InKeyOrder(members) && m.key !in Keys(members)
    ensures InKeyOrder(Insert(m, members))
    ensures forall x <- Insert(m, members) :: x == m || x in members
  {
    if members != [] {
      var head, tail := members[0], members[1..];
      assert head in members;
      PrecedesIsTotal(m.key, head.key);
      if Precedes(m.key, head.key) {
        forall j | 0 <= j < |members| ensures Precedes(m.key, members[j].key) {
          if j > 0 { PrecedesIsTransitive(m.key, head.key, members[j].key); }
        }
      } else {
        InsertKeepsOrder(m, tail);
        forall x | x in Insert(m, tail) ensures Precedes(head.key, x.key) {
          if x != m {
            var k :| 0 <= k < |tail| && tail[k] == x;
            assert tail[k] == members[k + 1];
          }
        }
      }
    }
  }

  /** Sorting the members of every object changes nothing but their order. */
  lemma {:induction false} NormalKeeps(v: Json)
    requires IsDict(v)
    ensures Denote(Normal(v)) == Denote(v)
    decreases v, 1
  {
    match v
    case Arr(items) => NormalItemsKeep(items);
    case Obj(members) => NormalMembersKeep(members);
    case _ =>
  }

  lemma {:induction false} NormalItemsKeep(items: seq<Json>)
    requires AreDicts(items)
    ensures DenoteItems(NormalItems(items)) == DenoteItems(items)
    decreases items, 0
  {
    if items != [] {
      NormalKeeps(items[0]);
      NormalItemsKeep(items[1..]);
    }
  }

  lemma {:induction false} NormalMembersKeep(members: seq<Entry>)
    requires MembersAreDicts(members)
    ensures DenoteMembers(NormalMembers(members)) == DenoteMembers(members)
    decreases members, 0
  {
    if members != [] {
      NormalKeeps(members[0].value);
      NormalMembersKeep(members[1..]);
      SortedDictionary(members);
      DenoteIsPointwise(members);
      DenoteIsPointwise(NormalMembers(members));
      forall k | k in Keys(members)
        ensures DenoteMembers(NormalMembers(members))[k] == DenoteMembers(members)[k]
      {
        var i := AsMapPoints(members, k);
        EntryIsDict(members, i);
        NormalKeeps(members[i].value);
      }
    }
  }

  lemma {:induction false} EntryIsDict(members: seq<Entry>, i: nat)
    requires MembersAreDicts(members) && i < |members|
    ensures IsDict(members[i].value)
  {
    if i > 0 {
      EntryIsDict(members[1..], i - 1);
    }
  }

  /** Sorting yields a list in key order that stands for the same dictionary, values normalised. */
  lemma {:induction false} SortedDictionary(members: seq<Entry>)
    requires MembersAreDicts(members)
    ensures InKeyOrder(NormalMembers(members))
    ensures AsMap(NormalMembers(members)) == map k | k in Keys(members) :: Normal(AsMap(members)[k])
  {
    if members != [] {
      var head := Entry(members[0].key, Normal(members[0].value));
      SortedDictionary(members[1..]);
      var sorted := NormalMembers(members[1..]);
      assert Keys(sorted) == AsMap(sorted).Keys == Keys(members[1..]);
      InsertAsMap(head, sorted);
      InsertKeepsOrder(head, sorted);
    }
  }

  /** A dictionary has one listing in key order. */
  lemma {:induction false} OrderedListingIsUnique(a: seq<Entry>, b: seq<Entry>)
    requires InKeyOrder(a) && InKeyOrder(b) && AsMap(a) == AsMap(b)
    ensures a == b
  {
    if a == [] || b == [] {
      assert Keys(a) == AsMap(a).Keys == AsMap(b).Keys == Keys(b);
    } else {
      HeadIsLeast(a, b[0].key);
      HeadIsLeast(b, a[0].key);
      PrecedesIsTotal(a[0].key, b[0].key);
      var k := a[0].key;
      assert b[0].key == k;
      assert AsMap(a)[k] == a[0].value && AsMap(b)[k] == b[0].value;
      HeadIsFresh(a);
      HeadIsFresh(b);
      assert AsMap(a[1..]) == AsMap(a) - {k};
      assert AsMap(b[1..]) == AsMap(b) - {k};
      OrderedListingIsUnique(a[1..], b[1..]);
      assert a == [a[0]] + a[1..] && b == [b[0]] + b[1..];
    }
  }

  lemma HeadIsLeast(a: seq<Entry>, k: string)
    requires InKeyOrder(a) && k in Keys(a)
    ensures a != [] && (a[0].key == k || Precedes(a[0].key, k))
  {
    var i := AsMapPoints(a, k);
  }

  lemma HeadIsFresh(a: seq<Entry>)
    requires InKeyOrder(a) && a != []
    ensures a[0].key !in Keys(a[1..])
  {
    if a[0].key in Keys(a[1..]) {
      var i := AsMapPoints(a[1..], a[0].key);
      assert a[1..][i] == a[i + 1];
      PrecedesIsTotal(a[0].key, a[i + 1].key);
    }
  }

  /** Dictionaries that differ only in member order have the same normal form. */
  lemma {:induction false} NormalIsDetermined(a: Json, b: Json)
    requires IsDict(a) && IsDict(b) && Denote(a) == Denote(b)
    ensures Normal(a) == Normal(b)
    decreases a, 1
  {
    match a
    case Arr(items) => NormalItemsAreDetermined(items, b.items);
    case Obj(members) => NormalMembersAreDetermined(members, b.members);
    case _ =>
  }

  lemma {:induction false} NormalMembersAreDetermined(a: seq<Entry>, b: seq<Entry>)
    requires MembersAreDicts(a) && MembersAreDicts(b) && DenoteMembers(a) == DenoteMembers(b)
    ensures NormalMembers(a) == NormalMembers(b)
    decreases a, 0
  {
    assert Keys(a) == DenoteMembers(a).Keys == DenoteMembers(b).Keys == Keys(b);
    forall k | k in Keys(a)
      ensures Normal(AsMap(a)[k]) == Normal(AsMap(b)[k])
    {
      DenoteIsPointwise(a);
      DenoteIsPointwise(b);
      var i := AsMapPoints(a, k);
      var j := AsMapPoints(b, k);
      EntryIsDict(a, i);
      EntryIsDict(b, j);
      NormalIsDetermined(a[i].value, b[j].value);
    }
    SortedDictionary(a);
    SortedDictionary(b);
    OrderedListingIsUnique(NormalMembers(a), NormalMembers(b));
  }

  lemma {:induction false} NormalItemsAreDetermined(a: seq<Json>, b: seq<Json>)
    requires AreDicts(a) && AreDicts(b) && DenoteItems(a) == DenoteItems(b)
    ensures NormalItems(a) == NormalItems(b)
    decreases a, 0
  {
    assert |a| == |DenoteItems(a)| == |DenoteItems(b)| == |b|;
    if a != [] {
      assert DenoteItems(a)[0] == DenoteItems(b)[0];
      assert DenoteItems(a[1..]) == DenoteItems(a)[1..];
      assert DenoteItems(b[1..]) == DenoteItems(b)[1..];
      NormalIsDetermined(a[0], b[0]);
      NormalItemsAreDetermined(a[1..], b[1..]);
    }
  }

  // ---------------------------------------------------------------- text

  // Every `Emit` writes its text in front of `rest`, the text that follows it.

  function Digit(d: nat): char
    requires d < 10
  {
    (d + '0' as int) as char
  }

  function HexDigit(d: nat): char
    requires d < 16
  {
    if d < 10 then Digit(d) else (d - 10 + 'a' as int) as char
  }

  function EmitNat(n: nat, rest: string): string {
    if n < 10 then [Digit(n)] + rest else EmitNat(n / 10, [Digit(n % 10)] + rest)
  }

  function EmitInt(n: int, rest: string): string {
    if n < 0 then "-" + EmitNat(-n, rest) else EmitNat(n, rest)
  }

  /** `repr` of a float with at most two decimals: at least one, no trailing zero after it. */
  function EmitDecimal(h: nat, rest: string): string {
    EmitNat(h / 100, ['.', Digit(h / 10 % 10)] + (if h % 10 == 0 then rest else [Digit(h % 10)] + rest))
  }

  /** A \\uXXXX escape of a UTF-16 code unit. */
  function UnicodeEscape(unit: nat): string
    requires unit < 0x10000
  {
    ['\\', 'u', HexDigit(unit / 0x1000), HexDigit(unit / 0x100 % 16), HexDigit(unit / 16 % 16), HexDigit(unit % 16)]
  }

  /** `ensure_ascii`: only printable ASCII other than the quote and the backslash stands for itself. */
  function Escape(c: char): string {
    if c == '\"' then "\\\""
    else if c == '\\' then "\\\\"
    else if c == '\n' then "\\n"
    else if c == '\r' then "\\r"
    else if c == '\t' then "\\t"
    else if c as int == 0x0C then "\\f"
    else if c as int == 0x08 then "\\b"
    else if ' ' <= c <= '~' then [c]
    else if c as int < 0x10000 then UnicodeEscape(c as int)
    else
      var v := c as int - 0x10000;
      UnicodeEscape(0xD800 + v / 0x400) + UnicodeEscape(0xDC00 + v % 0x400)
  }

  function EmitChars(s: string, rest: string): string {
    if s == "" then rest else Escape(s[0]) + EmitChars(s[1..], rest)
  }

  function EmitStr(s: string, rest: string): string {
    "\"" + EmitChars(s, "\"" + rest)
  }

  function Emit(v: Json, rest: string): string
    decreases v, 1
  {
    match v
    case Null => "null" + rest
    case Bool(b) => (if b then "true" else "false") + rest
    case Int(n) => EmitInt(n, rest)
    case Decimal(h) => EmitDecimal(h, rest)
    case Str(s) => EmitStr(s, rest)
    case Arr(items) => if items == [] then "[]" + rest else "[" + EmitItems(items, rest)
    case Obj(members) => if members == [] then "{}" + rest else "{" + EmitMembers(members, rest)
  }

  function EmitItems(items: seq<Json>, rest: string): string
    requires items != []
    decreases items, 0
  {
    Emit(items[0], if |items| == 1 then "]" + rest else "," + EmitItems(items[1..], rest))
  }

  function EmitMembers(members: seq<Entry>, rest: string): string
    requires members != []
    decreases members, 0
  {
    EmitStr(members[0].key,
            ":" + Emit(members[0].value,
                       if |members| == 1 then "}" + rest else "," + EmitMembers(members[1..], rest)))
  }

  /** The canonical text. */
  function Text(v: Json): string {
    Emit(Normal(v), "")
  }

  lemma PlainKey(c: char, rest: string)
    requires 'a' <= c <= 'z'
    ensures EmitStr([c], rest) == ['\"', c, '\"'] + rest
  {
    assert [c][1..] == "";
    assert EmitChars([c], ['\"'] + rest) == [c] + EmitChars("", ['\"'] + rest);
  }

  lemma SampleOrder(a: Entry, b: Entry)
    requires a == Entry("a", Arr([Bool(true), Null])) && b == Entry("b", Int(-7))
    ensures Normal(Obj([b, a])) == Obj([a, b])
  {
    assert [Bool(true), Null][1..] == [Null];
    assert NormalItems([Bool(true), Null]) == [Bool(true)] + NormalItems([Null]) == [Bool(true), Null];
    assert [b, a][1..] == [a];
    assert NormalMembers([a]) == Insert(a, []) == [a];
    assert !Precedes("b", "a");
    assert NormalMembers([b, a]) == Insert(b, [a]) == [a] + Insert(b, []) == [a, b];
  }

  lemma SampleNumber(b: Entry)
    requires b == Entry("b", Int(-7))
    ensures EmitMembers([b], "") == "\"b\":-7}"
  {
    assert EmitNat(7, "}") == "7}";
    assert Emit(b.value, "}") == "-7}";
    assert "}" + "" == "}";
    PlainKey('b', ":-7}");
    assert "b" == ['b'] && ":" + "-7}" == ":-7}" && ['\"', 'b', '\"'] + ":-7}" == "\"b\":-7}";
    assert EmitMembers([b], "") == EmitStr(b.key, ":" + Emit(b.value, "}" + ""));
  }

  lemma SampleList(rest: string)
    ensures Emit(Arr([Bool(true), Null]), rest) == "[true,null]" + rest
  {
    assert [Bool(true), Null][1..] == [Null];
    assert EmitItems([Null], rest) == "null]" + rest;
    assert EmitItems([Bool(true), Null], rest) == "true,null]" + rest;
  }

  lemma TwoMembers(m: Entry, n: Entry)
    ensures EmitMembers([m, n], "") == EmitStr(m.key, ":" + Emit(m.value, "," + EmitMembers([n], "")))
  {
    hide Emit, EmitStr;
    assert [m, n][1..] == [n];
  }

  lemma SampleMembers(a: Entry, b: Entry)
    requires a == Entry("a", Arr([Bool(true), Null])) && b == Entry("b", Int(-7))
    ensures EmitMembers([a, b], "") == "\"a\":[true,null],\"b\":-7}"
  {
    hide Emit, EmitStr, EmitMembers;
    var rest := ",\"b\":-7}";
    TwoMembers(a, b);
    SampleNumber(b);
    SampleList(rest);
    PlainKey('a', ":[true,null]" + rest);
    assert "a" == ['a'] && "," + "\"b\":-7}" == rest && ":" + ("[true,null]" + rest) == ":[true,null]" + rest;
    assert ['\"', 'a', '\"'] + (":[true,null]" + rest) == "\"a\":[true,null],\"b\":-7}";
  }

  /** One text in full: keys sorted, no white space, the literals of JSON. */
  lemma SampleText()
    ensures Text(Obj([Entry("b", Int(-7)), Entry("a", Arr([Bool(true), Null]))])) == "{\"a\":[true,null],\"b\":-7}"
  {
    hide Normal, Emit, EmitMembers;
    var a, b := Entry("a", Arr([Bool(true), Null])), Entry("b", Int(-7));
    SampleOrder(a, b);
    SampleMembers(a, b);
    SampleObject([a, b]);
    assert "{" + "\"a\":[true,null],\"b\":-7}" == "{\"a\":[true,null],\"b\":-7}";
  }

  lemma SampleObject(members: seq<Entry>)
    requires members != []
    ensures Emit(Obj(members), "") == "{" + EmitMembers(members, "")
  {
  }

  // ---------------------------------------------------------------- reading back

  datatype Parsed<+T> = Parsed(value: T, rest: string)

  predicate IsDigit(c: char) { '0' <= c <= '9' }

  function DigitValue(c: char): (d: nat)
    requires IsDigit(c)
    ensures d < 10
  {
    c as int - '0' as int
  }

  function HexValue(c: char): (d: Option<nat>)
    ensures d.Some? ==> d.value < 16
  {
    if '0' <= c <= '9' then Some(c as int - '0' as int)
    else if 'a' <= c <= 'f' then Some(c as int - 'a' as int + 10)
    else None
  }

  function ReadDigits(acc: nat, t: string): (p: Parsed<nat>)
    ensures |p.rest| <= |t|
    decreases |t|
  {
    if t != "" && IsDigit(t[0]) then ReadDigits(acc * 10 + DigitValue(t[0]), t[1..]) else Parsed(acc, t)
  }

  function ReadNumber(t: string): (p: Option<Parsed<Json>>)
    ensures p.Some? ==> |p.value.rest| < |t|
  {
    if t != "" && t[0] == '-' then
      if |t| > 1 && IsDigit(t[1]) then
        var whole := ReadDigits(DigitValue(t[1]), t[2..]);
        Some(Parsed(Int(-(whole.value as int)), whole.rest))
      else None
    else if t != "" && IsDigit(t[0]) then
      var whole := ReadDigits(DigitValue(t[0]), t[1..]);
      var r := whole.rest;
      if |r| > 1 && r[0] == '.' && IsDigit(r[1]) then
        var tenths := whole.value * 100 + DigitValue(r[1]) * 10;
        if |r| > 2 && IsDigit(r[2]) then Some(Parsed(Decimal(tenths + DigitValue(r[2])), r[3..]))
        else Some(Parsed(Decimal(tenths), r[2..]))
      else Some(Parsed(Int(whole.value), r))
    else None
  }

  function ReadUnit(t: string): (p: Option<Parsed<nat>>)
    ensures p.Some? ==> p.value.value < 0x10000 && |p.value.rest| + 6 == |t|
  {
    if |t| < 6 || t[0] != '\\' || t[1] != 'u' then None
    else
      var a, b, c, d := HexValue(t[2]), HexValue(t[3]), HexValue(t[4]), HexValue(t[5]);
      if a.None? || b.None? || c.None? || d.None? then None
      else Some(Parsed(a.value * 0x1000 + b.value * 0x100 + c.value * 16 + d.value, t[6..]))
  }

  /** The character that a one-letter escape stands for. */
  function Unescape(letter: char): Option<char> {
    if letter == '\"' || letter == '\\' then Some(letter)
    else if letter == 'n' then Some('\n')
    else if letter == 'r' then Some('\r')
    else if letter == 't' then Some('\t')
    else if letter == 'f' then Some(0x0C as char)
    else if letter == 'b' then Some(0x08 as char)
    else None
  }

  /** A \\uXXXX escape, or two of them that form a surrogate pair. */
  function ReadUnicode(t: string): (p: Option<Parsed<char>>)
    ensures p.Some? ==> |p.value.rest| < |t|
  {
    var hi := ReadUnit(t);
    if hi.None? then None
    else if hi.value.value < 0xD800 || 0xE000 <= hi.value.value then
      Some(Parsed(hi.value.value as char, hi.value.rest))
    else
      var lo := ReadUnit(hi.value.rest);
      if lo.None? || 0xDC00 <= hi.value.value || lo.value.value < 0xDC00 || 0xE000 <= lo.value.value then None
      else
        Some(Parsed((0x10000 + (hi.value.value - 0xD800) * 0x400 + (lo.value.value - 0xDC00)) as char, lo.value.rest))
  }

  /** One character of a string. */
  function ReadChar(t: string): (p: Option<Parsed<char>>)
    ensures p.Some? ==> |p.value.rest| < |t|
  {
    if t == "" then None
    else if t[0] != '\\' then Some(Parsed(t[0], t[1..]))
    else if |t| < 2 then None
    else if t[1] == 'u' then ReadUnicode(t)
    else
      var c := Unescape(t[1]);
      if c.None? then None else Some(Parsed(c.value, t[2..]))
  }

  function ReadChars(t: string): (p: Option<Parsed<string>>)
    ensures p.Some? ==> |p.value.rest| < |t|
    decreases |t|
  {
    if t != "" && t[0] == '\"' then Some(Parsed("", t[1..]))
    else
      var c := ReadChar(t);
      if c.None? then None
      else
        var more := ReadChars(c.value.rest);
        if more.None? then None else Some(Parsed([c.value.value] + more.value.value, more.value.rest))
  }

  function ReadStr(t: string): (p: Option<Parsed<string>>)
    ensures p.Some? ==> |p.value.rest| < |t|
  {
    if t != "" && t[0] == '\"' then ReadChars(t[1..]) else None
  }

  function ReadValue(t: string): (p: Option<Parsed<Json>>)
    ensures p.Some? ==> |p.value.rest| < |t|
    decreases |t|, 0
  {
    if t == "" then None
    else if t[0] == '\"' then
      var s := ReadStr(t);
      if s.None? then None else Some(Parsed(Str(s.value.value), s.value.rest))
    else if t[0] == '[' then
      if |t| > 1 && t[1] == ']' then Some(Parsed(Arr([]), t[2..]))
      else
        var items := ReadItems(t[1..]);
        if items.None? then None else Some(Parsed(Arr(items.value.value), items.value.rest))
    else if t[0] == '{' then
      if |t| > 1 && t[1] == '}' then Some(Parsed(Obj([]), t[2..]))
      else
        var members := ReadMembers(t[1..]);
        if members.None? then None else Some(Parsed(Obj(members.value.value), members.value.rest))
    else if t[0] == '-' || IsDigit(t[0]) then ReadNumber(t)
    else ReadLiteral(t)
  }

  function ReadLiteral(t: string): (p: Option<Parsed<Json>>)
    ensures p.Some? ==> |p.value.rest| < |t|
  {
    if "null" <= t then Some(Parsed(Null, t[4..]))
    else if "true" <= t then Some(Parsed(Bool(true), t[4..]))
    else if "false" <= t then Some(Parsed(Bool(false), t[5..]))
    else None
  }

  function ReadItems(t: string): (p: Option<Parsed<seq<Json>>>)
    ensures p.Some? ==> |p.value.rest| < |t|
    decreases |t|, 1
  {
    var head := ReadValue(t);
    if head.None? || head.value.rest == "" then None
    else
      var r := head.value.rest;
      if r[0] == ']' then Some(Parsed([head.value.value], r[1..]))
      else if r[0] != ',' then None
      else
        var tail := ReadItems(r[1..]);
        if tail.None? then None else Some(Parsed([head.value.value] + tail.value.value, tail.value.rest))
  }

  function ReadMembers(t: string): (p: Option<Parsed<seq<Entry>>>)
    ensures p.Some? ==> |p.value.rest| < |t|
    decreases |t|, 1
  {
    var key := ReadStr(t);
    if key.None? || key.value.rest == "" || key.value.rest[0] != ':' then None
    else
      var head := ReadValue(key.value.rest[1..]);
      if head.None? || head.value.rest == "" then None
      else
        var m, r := Entry(key.value.value, head.value.value), head.value.rest;
        if r[0] == '}' then Some(Parsed([m], r[1..]))
        else if r[0] != ',' then None
        else
          var tail := ReadMembers(r[1..]);
          if tail.None? then None else Some(Parsed([m] + tail.value.value, tail.value.rest))
  }

  /** `rest` cannot be mistaken for a continuation of a number. */
  predicate Delimited(rest: string) {
    rest == "" || (!IsDigit(rest[0]) && rest[0] != '.')
  }

  // ---------------------------------------------------------------- round trip

  lemma {:induction false} NatReadsBack(n: nat, rest: string)
    ensures EmitNat(n, rest) != "" && IsDigit(EmitNat(n, rest)[0])
    ensures ReadDigits(DigitValue(EmitNat(n, rest)[0]), EmitNat(n, rest)[1..]) == ReadDigits(n, rest)
  {
    if n < 10 {
      assert EmitNat(n, rest)[1..] == rest;
    } else {
      var t := [Digit(n % 10)] + rest;
      NatReadsBack(n / 10, t);
      assert t[1..] == rest;
    }
  }

  lemma IntReadsBack(n: int, rest: string)
    requires Delimited(rest)
    ensures ReadNumber(EmitInt(n, rest)) == Some(Parsed(Int(n), rest))
    ensures StartsNumber(EmitInt(n, rest))
  {
    if n < 0 {
      NatReadsBack(-n, rest);
      var t := EmitInt(n, rest);
      assert t[1..] == EmitNat(-n, rest);
      assert t[2..] == EmitNat(-n, rest)[1..];
    } else {
      NatReadsBack(n, rest);
    }
  }

  lemma DecimalDigits(h: nat)
    ensures h / 100 * 100 + h / 10 % 10 * 10 + h % 10 == h
  {
    assert h / 10 / 10 == h / 100;
  }

  /** A whole part, a point, one decimal and perhaps another. */
  lemma FractionIsRead(t: string, whole: nat, tenths: nat, last: nat, rest: string)
    requires t != "" && IsDigit(t[0]) && tenths < 10 && last < 10 && Delimited(rest)
    requires ReadDigits(DigitValue(t[0]), t[1..])
          == Parsed(whole, ['.', Digit(tenths)] + (if last == 0 then rest else [Digit(last)] + rest))
    ensures ReadNumber(t) == Some(Parsed(Decimal(whole * 100 + tenths * 10 + last), rest))
  {
    var r := ['.', Digit(tenths)] + (if last == 0 then rest else [Digit(last)] + rest);
    assert r[0] == '.' && r[1] == Digit(tenths);
    if last == 0 {
      assert r[2..] == rest;
    } else {
      assert r[2] == Digit(last) && r[3..] == rest;
    }
  }

  lemma DecimalReadsBack(h: nat, rest: string)
    requires Delimited(rest)
    ensures ReadNumber(EmitDecimal(h, rest)) == Some(Parsed(Decimal(h), rest))
    ensures StartsNumber(EmitDecimal(h, rest))
  {
    var r := ['.', Digit(h / 10 % 10)] + (if h % 10 == 0 then rest else [Digit(h % 10)] + rest);
    NatReadsBack(h / 100, r);
    assert ReadDigits(h / 100, r) == Parsed(h / 100, r);
    FractionIsRead(EmitNat(h / 100, r), h / 100, h / 10 % 10, h % 10, rest);
    DecimalDigits(h);
  }

  lemma UnitDigits(unit: nat)
    requires unit < 0x10000
    ensures unit / 0x1000 < 16
    ensures unit / 0x1000 * 0x1000 + unit / 0x100 % 16 * 0x100 + unit / 16 % 16 * 16 + unit % 16 == unit
  {
    assert unit / 16 / 16 == unit / 0x100;
    assert unit / 0x100 / 16 == unit / 0x1000;
  }

  lemma HexReadsBack(d: nat)
    requires d < 16
    ensures HexValue(HexDigit(d)) == Some(d)
  {
  }

  lemma UnitReadsBack(unit: nat, rest: string)
    requires unit < 0x10000
    ensures ReadUnit(UnicodeEscape(unit) + rest) == Some(Parsed(unit, rest))
  {
    var e := UnicodeEscape(unit);
    var t := e + rest;
    assert t[0] == e[0] && t[1] == e[1] && t[2] == e[2] && t[3] == e[3] && t[4] == e[4] && t[5] == e[5];
    assert t[6..] == rest;
    UnitDigits(unit);
    HexReadsBack(unit / 0x1000);
    HexReadsBack(unit / 0x100 % 16);
    HexReadsBack(unit / 16 % 16);
    HexReadsBack(unit % 16);
  }

  lemma PairDigits(v: nat)
    requires v < 0x100000
    ensures v / 0x400 < 0x400 && v == v / 0x400 * 0x400 + v % 0x400
  {
  }

  lemma PairCombines(t: string, tail: string, rest: string, high: nat, low: nat)
    requires high < 0x400 && low < 0x400
    requires ReadUnit(t) == Some(Parsed(0xD800 + high, tail)) && ReadUnit(tail) == Some(Parsed(0xDC00 + low, rest))
    ensures ReadUnicode(t) == Some(Parsed((0x10000 + high * 0x400 + low) as char, rest))
  {
  }

  lemma PairEscape(c: char, high: nat, low: nat)
    requires c as int == 0x10000 + high * 0x400 + low && high < 0x400 && low < 0x400
    ensures Escape(c) == UnicodeEscape(0xD800 + high) + UnicodeEscape(0xDC00 + low)
  {
  }

  lemma PairIsRead(high: nat, low: nat, rest: string)
    requires high < 0x400 && low < 0x400
    ensures ReadUnicode(UnicodeEscape(0xD800 + high) + (UnicodeEscape(0xDC00 + low) + rest))
         == Some(Parsed((0x10000 + high * 0x400 + low) as char, rest))
  {
    UnitReadsBack(0xDC00 + low, rest);
    UnitReadsBack(0xD800 + high, UnicodeEscape(0xDC00 + low) + rest);
    PairCombines(UnicodeEscape(0xD800 + high) + (UnicodeEscape(0xDC00 + low) + rest),
                 UnicodeEscape(0xDC00 + low) + rest, rest, high, low);
  }

  /** A character outside the basic plane comes back from its surrogate pair. */
  lemma PairReadsBack(c: char, high: nat, low: nat, rest: string)
    requires c as int == 0x10000 + high * 0x400 + low && high < 0x400 && low < 0x400
    ensures ReadUnicode(Escape(c) + rest) == Some(Parsed(c, rest))
  {
    PairEscape(c, high, low);
    PairIsRead(high, low, rest);
    Associate(UnicodeEscape(0xD800 + high), UnicodeEscape(0xDC00 + low), rest);
  }

  lemma Associate(a: string, b: string, c: string)
    ensures (a + b) + c == a + (b + c)
  {
  }

  lemma EscapeForm(c: char)
    requires |Escape(c)| > 2
    ensures c as int < 0x10000 ==> Escape(c) == UnicodeEscape(c as int)
    ensures Escape(c)[0] == '\\' && Escape(c)[1] == 'u'
  {
  }

  lemma UnicodeReadsBack(c: char, rest: string)
    requires |Escape(c)| > 2
    ensures ReadUnicode(Escape(c) + rest) == Some(Parsed(c, rest))
  {
    EscapeForm(c);
    if c as int >= 0x10000 {
      PairDigits(c as int - 0x10000);
      PairReadsBack(c, (c as int - 0x10000) / 0x400, (c as int - 0x10000) % 0x400, rest);
    } else {
      UnitReadsBack(c as int, rest);
    }
  }

  lemma LetterReadsBack(c: char)
    requires |Escape(c)| == 2
    ensures Escape(c)[0] == '\\' && Escape(c)[1] != 'u' && Unescape(Escape(c)[1]) == Some(c)
  {
  }

  lemma CharReadsBack(c: char, rest: string)
    ensures Escape(c) != "" && (Escape(c) + rest)[0] != '\"'
    ensures ReadChar(Escape(c) + rest) == Some(Parsed(c, rest))
  {
    var e := Escape(c);
    var t := e + rest;
    assert t[|e|..] == rest && t[..|e|] == e;
    if |e| > 2 {
      EscapeForm(c);
      UnicodeReadsBack(c, rest);
      assert t[0] == e[0] && t[1] == e[1];
    } else if |e| == 2 {
      LetterReadsBack(c);
      assert t[0] == e[0] && t[1] == e[1];
    } else {
      assert e == [c] && t[0] == c;
    }
  }

  lemma {:induction false} CharsReadBack(s: string, rest: string)
    ensures ReadChars(EmitChars(s, "\"" + rest)) == Some(Parsed(s, rest))
  {
    if s == "" {
      assert ("\"" + rest)[1..] == rest;
    } else {
      CharReadsBack(s[0], EmitChars(s[1..], "\"" + rest));
      CharsReadBack(s[1..], rest);
      assert s == [s[0]] + s[1..];
    }
  }

  lemma StrReadsBack(s: string, rest: string)
    ensures EmitStr(s, rest) != "" && EmitStr(s, rest)[0] == '\"'
    ensures ReadStr(EmitStr(s, rest)) == Some(Parsed(s, rest))
  {
    CharsReadBack(s, rest);
    assert EmitStr(s, rest)[1..] == EmitChars(s, "\"" + rest);
  }

  lemma EmitHead(v: Json, rest: string)
    ensures Emit(v, rest) != "" && Emit(v, rest)[0] != ']'
  {
    match v
    case Int(n) => NatReadsBack(if n < 0 then -n else n, rest);
    case Decimal(h) =>
      NatReadsBack(h / 100, ['.', Digit(h / 10 % 10)] + (if h % 10 == 0 then rest else [Digit(h % 10)] + rest));
    case _ =>
  }

  lemma LiteralReadsBack(v: Json, rest: string)
    requires v.Null? || v.Bool?
    ensures ReadLiteral(Emit(v, rest)) == Some(Parsed(v, rest))
    ensures Emit(v, rest)[0] in {'n', 't', 'f'}
  {
    var t := Emit(v, rest);
    match v
    case Null => assert t[0] == 'n' && t[..4] == "null" && t[4..] == rest;
    case Bool(b) =>
      if b {
        assert t[0] == 't' && t[..4] == "true" && t[4..] == rest;
      } else {
        assert t[0] == 'f' && t[..5] == "false" && t[5..] == rest;
      }
  }

  /** What a number starts with. */
  predicate StartsNumber(t: string) {
    t != "" && (t[0] == '-' || IsDigit(t[0]))
  }

  lemma ScalarReadsBack(v: Json, rest: string)
    requires Delimited(rest) && !v.Arr? && !v.Obj?
    ensures ReadValue(Emit(v, rest)) == Some(Parsed(v, rest))
  {
    match v
    case Str(s) => StrReadsBack(s, rest);
    case Int(n) => IntReadsBack(n, rest);
    case Decimal(h) => DecimalReadsBack(h, rest);
    case _ => LiteralReadsBack(v, rest);
  }

  lemma ArrayIsRead(u: string, items: seq<Json>, rest: string)
    requires u != "" && u[0] != ']' && ReadItems(u) == Some(Parsed(items, rest))
    ensures ReadValue("[" + u) == Some(Parsed(Arr(items), rest))
  {
    var t := "[" + u;
    assert t[0] == '[' && t[1] == u[0] && t[1..] == u;
  }

  lemma ObjectIsRead(u: string, members: seq<Entry>, rest: string)
    requires u != "" && u[0] != '}' && ReadMembers(u) == Some(Parsed(members, rest))
    ensures ReadValue("{" + u) == Some(Parsed(Obj(members), rest))
  {
    var t := "{" + u;
    assert t[0] == '{' && t[1] == u[0] && t[1..] == u;
  }

  /** Whatever is written is read back, member order included. */
  lemma {:induction false} ValueReadsBack(v: Json, rest: string)
    requires Delimited(rest)
    ensures ReadValue(Emit(v, rest)) == Some(Parsed(v, rest))
    decreases v, 1
  {
    match v
    case Arr(items) =>
      if items == [] {
        assert ("[]" + rest)[2..] == rest;
      } else {
        ItemsReadBack(items, rest);
        EmitHead(items[0], if |items| == 1 then "]" + rest else "," + EmitItems(items[1..], rest));
        ArrayIsRead(EmitItems(items, rest), items, rest);
      }
    case Obj(members) =>
      if members == [] {
        assert ("{}" + rest)[2..] == rest;
      } else {
        MembersReadBack(members, rest);
        ObjectIsRead(EmitMembers(members, rest), members, rest);
      }
    case _ => ScalarReadsBack(v, rest);
  }

  lemma {:induction false} ItemsReadBack(items: seq<Json>, rest: string)
    requires items != []
    ensures ReadItems(EmitItems(items, rest)) == Some(Parsed(items, rest))
    decreases items, 0
  {
    var r := if |items| == 1 then "]" + rest else "," + EmitItems(items[1..], rest);
    ValueReadsBack(items[0], r);
    if |items| == 1 {
      assert r[1..] == rest && items == [items[0]];
    } else {
      ItemsReadBack(items[1..], rest);
      assert r[1..] == EmitItems(items[1..], rest);
      assert items == [items[0]] + items[1..];
    }
  }

  /** One member, when its value reads back from `u`: the last one, or one with a tail after it. */
  lemma MemberIsRead(m: Entry, u: string, r: string)
    requires ReadValue(u) == Some(Parsed(m.value, r)) && r != ""
    ensures var t := EmitStr(m.key, ":" + u);
      && (r[0] == '}' ==> ReadMembers(t) == Some(Parsed([m], r[1..])))
      && (r[0] == ',' && ReadMembers(r[1..]).Some? ==>
            ReadMembers(t) == Some(Parsed([m] + ReadMembers(r[1..]).value.value, ReadMembers(r[1..]).value.rest)))
  {
    var t := EmitStr(m.key, ":" + u);
    StrReadsBack(m.key, ":" + u);
    var key := ReadStr(t).value;
    assert key == Parsed(m.key, ":" + u);
    assert key.rest[0] == ':' && key.rest[1..] == u;
  }

  lemma {:induction false} MembersReadBack(members: seq<Entry>, rest: string)
    requires members != []
    ensures ReadMembers(EmitMembers(members, rest)) == Some(Parsed(members, rest))
    ensures EmitMembers(members, rest)[0] == '\"'
    decreases members, 0
  {
    if |members| == 1 {
      var r := "}" + rest;
      ValueReadsBack(members[0].value, r);
      MemberIsRead(members[0], Emit(members[0].value, r), r);
      assert r[1..] == rest && members == [members[0]];
    } else {
      var tail := EmitMembers(members[1..], rest);
      var r := "," + tail;
      ValueReadsBack(members[0].value, r);
      MembersReadBack(members[1..], rest);
      assert r[1..] == tail;
      MemberIsRead(members[0], Emit(members[0].value, r), r);
      assert members == [members[0]] + members[1..];
    }
  }

  // ---------------------------------------------------------------- main results

  /** The reader of a whole text. */
  function Read(t: string): Option<Json> {
    var p := ReadValue(t);
    if p.Some? && p.value.rest == "" then Some(p.value.value) else None
  }

  /** The canonical text reads back to the same dictionary. */
  lemma TextReadsBack(v: Json)
    requires IsDict(v)
    ensures Read(Text(v)).Some? && Denote(Read(Text(v)).value) == Denote(v)
  {
    ValueReadsBack(Normal(v), "");
    NormalKeeps(v);
  }

  /** Two dictionaries have the same canonical text exactly when they are equal, whatever their key order. */
  lemma TextIdentifies(a: Json, b: Json)
    requires IsDict(a) && IsDict(b)
    ensures Text(a) == Text(b) <==> Denote(a) == Denote(b)
  {
    if Text(a) == Text(b) {
      TextReadsBack(a);
      TextReadsBack(b);
    }
    if Denote(a) == Denote(b) {
      NormalIsDetermined(a, b);
    }
  }
}
