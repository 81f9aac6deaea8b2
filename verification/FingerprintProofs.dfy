/** The canonical text of a body determines its meaning, and the other way round. */
module FingerprintProofs {
  import opened Fingerprint

  // ---------- Taking texts apart ----------

  lemma SameLength(a: Text, x: Text, b: Text, y: Text)
    requires a + x == b + y && |a| == |b|
    ensures a == b && x == y
  {
    assert a == (a + x)[..|a|] && b == (b + y)[..|b|];
    assert x == (a + x)[|a|..] && y == (b + y)[|b|..];
  }

  lemma NextUnit(a: Text, x: Text, b: Text, y: Text)
    requires a + x == b + y && |a| < |b|
    ensures x != [] && x[0] == b[|a|]
  {
    assert (a + x)[|a|] == (b + y)[|a|];
  }

  // Drop the opening unit of two bracketed texts.
  lemma Peel(u: Unit, p: Text, q: Text, z: Text, x: Text, y: Text)
    requires [u] + p + z + x == [u] + q + z + y
    ensures p + z + x == q + z + y
  {
    assert [u] + p + z + x == [u] + (p + z + x);
    assert [u] + q + z + y == [u] + (q + z + y);
    SameLength([u], p + z + x, [u], q + z + y);
  }

  // ---------- Reading back numbers ----------

  function DigitValue(s: Text): int {
    if s == [] then 0
    else
      var d: int := s[|s| - 1];
      10 * DigitValue(s[..|s| - 1]) + d - 48
  }

  lemma {:induction false} DigitsValue(n: nat)
    ensures Digits(n) != [] && DigitValue(Digits(n)) == n
    ensures forall i :: 0 <= i < |Digits(n)| ==> IsDigit(Digits(n)[i])
  {
    if n >= 10 {
      DigitsValue(n / 10);
      assert Digits(n)[..|Digits(n)| - 1] == Digits(n / 10);
    }
  }

  // A number ends where no digit follows.
  predicate Stops(rest: Text) {
    rest == [] || !IsDigit(rest[0])
  }

  lemma DigitsUnique(m: nat, n: nat, x: Text, y: Text)
    requires Stops(x) && Stops(y) && Digits(m) + x == Digits(n) + y
    ensures m == n && x == y
  {
    DigitsValue(m);
    DigitsValue(n);
    var a, b := Digits(m), Digits(n);
    if |a| < |b| {
      NextUnit(a, x, b, y);
      assert false;
    }
    if |b| < |a| {
      NextUnit(b, y, a, x);
      assert false;
    }
    SameLength(a, x, b, y);
  }

  lemma DecimalHead(n: int, x: Text)
    ensures Decimal(n) + x != []
    ensures n < 0 ==> (Decimal(n) + x)[0] == MINUS && Decimal(n) + x == [MINUS] + (Digits(-n) + x)
    ensures n >= 0 ==> IsDigit((Decimal(n) + x)[0])
  {
    DigitsValue(if n < 0 then -n else n);
    if n < 0 { assert [MINUS] + Digits(-n) + x == [MINUS] + (Digits(-n) + x); }
  }

  lemma DecimalUnique(m: int, n: int, x: Text, y: Text)
    requires Stops(x) && Stops(y) && Decimal(m) + x == Decimal(n) + y
    ensures m == n && x == y
  {
    DecimalHead(m, x);
    DecimalHead(n, y);
    if m < 0 {
      SameLength([MINUS], Digits(-m) + x, [MINUS], Digits(-n) + y);
      DigitsUnique(-m, -n, x, y);
    } else {
      DigitsUnique(m, n, x, y);
    }
  }

  // ---------- Reading back strings ----------

  function UnHex(u: Unit): int {
    if u <= 57 then u - 48 else u - 87
  }

  function UnShort(u: Unit): int {
    if u == 98 then 8 else if u == 116 then 9 else if u == 110 then 10 else if u == 102 then 12
    else if u == 114 then 13 else u
  }

  // The code unit at the head of an escaped text, and how much text it takes.
  function Decode(t: Text): (r: (int, nat))
    requires |t| >= 6 || (|t| >= 2 && t[1] != 117) || (|t| >= 1 && t[0] != BACKSLASH)
  {
    if t[0] != BACKSLASH then (t[0], 1)
    else if t[1] != 117 then (UnShort(t[1]), 2)
    else (UnHex(t[2]) * 4096 + UnHex(t[3]) * 256 + UnHex(t[4]) * 16 + UnHex(t[5]), 6)
  }

  lemma HexValue(u: Unit)
    ensures UnHex(Hex(u / 4096)) * 4096 + UnHex(Hex(u / 256 % 16)) * 256
      + UnHex(Hex(u / 16 % 16)) * 16 + UnHex(Hex(u % 16)) == u
  {
    assert u == u / 16 * 16 + u % 16;
    assert u / 16 == u / 16 / 16 * 16 + u / 16 % 16 && u / 16 / 16 == u / 256;
    assert u / 256 == u / 256 / 16 * 16 + u / 256 % 16 && u / 256 / 16 == u / 4096;
  }

  lemma EscapeDecodes(s: Text, i: nat, x: Text)
    requires i < |s|
    ensures var e := Escape(s, i);
      && |e| > 0 && e[0] != QUOTE
      && (|e| == 6 || (|e| == 2 && e[1] != 117) || (|e| == 1 && e[0] != BACKSLASH))
      && Decode(e + x) == (s[i], |e|)
  {
    HexValue(s[i]);
  }

  // What an escaped string looks like from position i on, up to what follows it.
  function Remainder(s: Text, i: nat, x: Text): Text
    requires i <= |s|
  {
    EscapeFrom(s, i) + [QUOTE] + x
  }

  lemma RemainderSplit(s: Text, i: nat, x: Text)
    requires i < |s|
    ensures Remainder(s, i, x) == Escape(s, i) + Remainder(s, i + 1, x)
  {
    GroupFour(Escape(s, i), EscapeFrom(s, i + 1), [QUOTE], x);
  }

  lemma GroupFour(a: Text, b: Text, c: Text, d: Text)
    ensures (a + b) + c + d == a + (b + c + d)
  {
  }

  lemma RemainderHead(s: Text, i: nat, x: Text)
    requires i <= |s|
    ensures i == |s| ==> Remainder(s, i, x) == [QUOTE] + x
    ensures Remainder(s, i, x) != [] && (Remainder(s, i, x)[0] == QUOTE <==> i == |s|)
  {
    if i < |s| {
      RemainderSplit(s, i, x);
      EscapeDecodes(s, i, []);
    }
  }

  lemma {:induction false} EscapeUnique(s: Text, i: nat, t: Text, j: nat, x: Text, y: Text)
    requires i <= |s| && j <= |t| && Remainder(s, i, x) == Remainder(t, j, y)
    ensures s[i..] == t[j..] && x == y
    decreases |s| - i
  {
    RemainderHead(s, i, x);
    RemainderHead(t, j, y);
    if i == |s| {
      SameLength([QUOTE], x, [QUOTE], y);
    } else {
      RemainderSplit(s, i, x);
      RemainderSplit(t, j, y);
      var p, q := Remainder(s, i + 1, x), Remainder(t, j + 1, y);
      EscapeDecodes(s, i, p);
      EscapeDecodes(t, j, q);
      SameLength(Escape(s, i), p, Escape(t, j), q);
      EscapeUnique(s, i + 1, t, j + 1, x, y);
      assert s[i..] == [s[i]] + s[i + 1..] && t[j..] == [t[j]] + t[j + 1..];
    }
  }

  lemma QuoteUnique(s: Text, t: Text, x: Text, y: Text)
    requires Quote(s) + x == Quote(t) + y
    ensures s == t && x == y
  {
    Peel(QUOTE, EscapeFrom(s, 0), EscapeFrom(t, 0), [QUOTE], x, y);
    EscapeUnique(s, 0, t, 0, x, y);
    assert s[0..] == s && t[0..] == t;
  }

  // ---------- Members as a map ----------

  predicate AllPresent(members: seq<Member>) {
    forall m :: m in members ==> !m.value.Undefined?
  }

  lemma RestDiffers(members: seq<Member>)
    requires members != [] && DistinctKeys(members)
    ensures DistinctKeys(members[1..])
    ensures forall m :: m in members <==> m == members[0] || m in members[1..]
    ensures forall m :: m in members[1..] ==> m.key != members[0].key
  {
    assert members == [members[0]] + members[1..];
    forall m | m in members[1..] ensures m.key != members[0].key {
      var i :| 0 <= i < |members| - 1 && members[1..][i] == m;
      assert members[i + 1] == m;
    }
  }

  lemma ConsDistinct(m: Member, rest: seq<Member>)
    requires DistinctKeys(rest) && forall x :: x in rest ==> x.key != m.key
    ensures DistinctKeys([m] + rest)
  {
    forall i, j | 0 <= i < j < |rest| + 1 ensures ([m] + rest)[i].key != ([m] + rest)[j].key {
      assert ([m] + rest)[j] == rest[j - 1] && rest[j - 1] in rest;
    }
  }

  // Every present member is in the map a list with distinct keys means.
  lemma {:induction false} MeanHas(members: seq<Member>, m: Member)
    requires DistinctKeys(members) && m in members && !m.value.Undefined?
    ensures m.key in MeanMembers(members) && MeanMembers(members)[m.key] == Mean(m.value)
  {
    RestDiffers(members);
    if m != members[0] { MeanHas(members[1..], m); }
  }

  // And nothing else is.
  lemma {:induction false} MeanFrom(members: seq<Member>, k: Text)
    requires k in MeanMembers(members)
    ensures exists m :: m in members && !m.value.Undefined? && m.key == k
  {
    if members[0].value.Undefined? || members[0].key != k {
      MeanFrom(members[1..], k);
      var m :| m in members[1..] && !m.value.Undefined? && m.key == k;
      assert m in members;
    }
  }

  // Only which members there are matters.
  lemma SameElementsSameMeaning(a: seq<Member>, b: seq<Member>)
    requires DistinctKeys(a) && DistinctKeys(b)
    requires forall m: Member :: !m.value.Undefined? ==> (m in a <==> m in b)
    ensures MeanMembers(a) == MeanMembers(b)
  {
    forall k | k in MeanMembers(a) ensures k in MeanMembers(b) && MeanMembers(b)[k] == MeanMembers(a)[k] {
      MeanFrom(a, k);
      var m :| m in a && !m.value.Undefined? && m.key == k;
      MeanHas(a, m);
      MeanHas(b, m);
    }
    forall k | k in MeanMembers(b) ensures k in MeanMembers(a) {
      MeanFrom(b, k);
      var m :| m in b && !m.value.Undefined? && m.key == k;
      MeanHas(a, m);
    }
  }

  lemma {:induction false} InsertElements(m: Member, sorted: seq<Member>, leq: Order)
    requires DistinctKeys(sorted) && forall x :: x in sorted ==> x.key != m.key
    ensures forall x :: x in Insert(m, sorted, leq) <==> x == m || x in sorted
    ensures DistinctKeys(Insert(m, sorted, leq))
  {
    if sorted == [] || leq(m.key, sorted[0].key) {
      ConsDistinct(m, sorted);
    } else {
      RestDiffers(sorted);
      InsertElements(m, sorted[1..], leq);
      ConsDistinct(sorted[0], Insert(m, sorted[1..], leq));
    }
  }

  lemma {:induction false} SortElements(members: seq<Member>, leq: Order)
    requires DistinctKeys(members)
    ensures forall x :: x in Sort(members, leq) <==> x in members
    ensures DistinctKeys(Sort(members, leq))
  {
    if members != [] {
      RestDiffers(members);
      SortElements(members[1..], leq);
      InsertElements(members[0], Sort(members[1..], leq), leq);
    }
  }

  lemma {:induction false} PresentElements(members: seq<Member>)
    requires DistinctKeys(members)
    ensures forall x :: x in Present(members) <==> x in members && !x.value.Undefined?
    ensures DistinctKeys(Present(members))
  {
    if members != [] {
      RestDiffers(members);
      PresentElements(members[1..]);
      if members[0].value.Undefined? {
        assert Present(members) == Present(members[1..]);
      } else {
        ConsDistinct(members[0], Present(members[1..]));
      }
    }
  }

  lemma CanonicalMeans(members: seq<Member>, leq: Order)
    requires DistinctKeys(members)
    ensures var sorted := Canonical(members, leq);
      && MeanMembers(sorted) == MeanMembers(members)
      && DistinctKeys(sorted) && AllPresent(sorted)
      && (forall m :: m in sorted ==> m in members)
      && (ValidMembers(members) ==> ValidValues(sorted))
  {
    PresentElements(members);
    SortElements(Present(members), leq);
    SameElementsSameMeaning(Canonical(members, leq), members);
    if ValidMembers(members) {
      forall m | m in Canonical(members, leq) ensures Valid(m.value) { ValidMember(members, m); }
    }
  }

  lemma {:induction false} ValidMember(members: seq<Member>, m: Member)
    requires ValidMembers(members) && m in members
    ensures Valid(m.value)
  {
    if m != members[0] { ValidMember(members[1..], m); }
  }

  // ---------- Unambiguity ----------

  // What kind of value a text starts.
  function Kind(u: Unit): int {
    if u == 110 then 0 else if u == 116 then 1 else if u == 102 then 2
    else if IsDigit(u) || u == MINUS then 3
    else if u == QUOTE then 4 else if u == OPEN_BRACKET then 5 else if u == OPEN_BRACE then 6 else 7
  }

  function KindOf(v: Value): int {
    match v
    case Undefined => 0
    case Null => 0
    case Bool(b) => if b then 1 else 2
    case Num(_) => 3
    case Str(_) => 4
    case Arr(_) => 5
    case Obj(_) => 6
  }

  lemma PrintHead(v: Value, leq: Order)
    ensures |Print(v, leq)| > 0 && Kind(Print(v, leq)[0]) == KindOf(v)
  {
    if v.Num? { DigitsValue(if v.n < 0 then -v.n else v.n); }
  }

  lemma {:induction false} PrintUnique(v: Value, w: Value, leq: Order, x: Text, y: Text)
    requires Valid(v) && Valid(w) && Stops(x) && Stops(y)
    requires Print(v, leq) + x == Print(w, leq) + y
    ensures Mean(v) == Mean(w) && x == y
    decreases Size(v), 1
  {
    SameKind(v, w, leq, x, y);
    match v
    case Num(n) => DecimalUnique(n, w.n, x, y);
    case Str(s) => QuoteUnique(s, w.s, x, y);
    case Arr(items) =>
      Peel(OPEN_BRACKET, PrintItems(items, leq), PrintItems(w.items, leq), [CLOSE_BRACKET], x, y);
      ItemsUnique(items, w.items, leq, x, y);
    case Obj(members) =>
      var ms, ns := Canonical(members, leq), Canonical(w.members, leq);
      Peel(OPEN_BRACE, PrintMembers(ms, leq), PrintMembers(ns, leq), [CLOSE_BRACE], x, y);
      CanonicalMeans(members, leq);
      CanonicalMeans(w.members, leq);
      MembersUnique(ms, ns, leq, x, y);
      SameListSameMap(ms, ns);
    case _ => SameLength(Print(v, leq), x, Print(w, leq), y);
  }

  lemma SameKind(v: Value, w: Value, leq: Order, x: Text, y: Text)
    requires Print(v, leq) + x == Print(w, leq) + y
    ensures KindOf(v) == KindOf(w)
  {
    PrintHead(v, leq);
    PrintHead(w, leq);
    assert (Print(v, leq) + x)[0] == (Print(w, leq) + y)[0];
  }

  // What follows the first of several comma-separated parts: the closing unit, or a comma.
  lemma TailsAgree(last: bool, also: bool, close: Unit, s: Text, t: Text, x: Text, y: Text)
    requires close != COMMA
    requires (if last then [close] + x else [COMMA] + s) == (if also then [close] + y else [COMMA] + t)
    ensures last == also && (if last then x == y else s == t)
  {
    var a, b := if last then [close] + x else [COMMA] + s, if also then [close] + y else [COMMA] + t;
    assert a[0] == b[0];
    if last { SameLength([close], x, [close], y); } else { SameLength([COMMA], s, [COMMA], t); }
  }

  function ItemsText(items: seq<Value>, leq: Order, x: Text): Text {
    PrintItems(items, leq) + [CLOSE_BRACKET] + x
  }

  function ItemsTail(items: seq<Value>, leq: Order, x: Text): Text
    requires items != []
  {
    if |items| == 1 then [CLOSE_BRACKET] + x else [COMMA] + ItemsText(items[1..], leq, x)
  }

  lemma ItemsSplit(items: seq<Value>, leq: Order, x: Text)
    ensures items == [] ==> ItemsText(items, leq, x) == [CLOSE_BRACKET] + x
    ensures items != [] ==> ItemsText(items, leq, x) == Print(items[0], leq) + ItemsTail(items, leq, x)
    ensures ItemsText(items, leq, x) != []
    ensures ItemsText(items, leq, x)[0] == CLOSE_BRACKET <==> items == []
  {
    if items != [] {
      PrintHead(items[0], leq);
      if |items| > 1 {
        var p, q := Print(items[0], leq), PrintItems(items[1..], leq);
        assert p + [COMMA] + q + [CLOSE_BRACKET] + x == p + ([COMMA] + (q + [CLOSE_BRACKET] + x));
      } else {
        assert Print(items[0], leq) + [CLOSE_BRACKET] + x == Print(items[0], leq) + ([CLOSE_BRACKET] + x);
      }
    }
  }

  lemma {:induction false} ItemsUnique(items: seq<Value>, others: seq<Value>, leq: Order, x: Text, y: Text)
    requires ValidItems(items) && ValidItems(others)
    requires ItemsText(items, leq, x) == ItemsText(others, leq, y)
    ensures MeanItems(items) == MeanItems(others) && x == y
    decreases SizeItems(items), 0
  {
    ItemsSplit(items, leq, x);
    ItemsSplit(others, leq, y);
    if items == [] {
      SameLength([CLOSE_BRACKET], x, [CLOSE_BRACKET], y);
    } else {
      PrintUnique(items[0], others[0], leq, ItemsTail(items, leq, x), ItemsTail(others, leq, y));
      TailsAgree(|items| == 1, |others| == 1, CLOSE_BRACKET, ItemsText(items[1..], leq, x),
                 ItemsText(others[1..], leq, y), x, y);
      if |items| == 1 {
        assert items[1..] == [] && others[1..] == [];
      } else {
        ItemsUnique(items[1..], others[1..], leq, x, y);
      }
    }
  }

  ghost predicate SameList(ms: seq<Member>, ns: seq<Member>) {
    |ms| == |ns| && forall i :: 0 <= i < |ms| ==> ms[i].key == ns[i].key && Mean(ms[i].value) == Mean(ns[i].value)
  }

  lemma ConsSameList(ms: seq<Member>, ns: seq<Member>)
    requires ms != [] && ns != [] && ms[0].key == ns[0].key && Mean(ms[0].value) == Mean(ns[0].value)
    requires SameList(ms[1..], ns[1..])
    ensures SameList(ms, ns)
  {
    forall i | 1 <= i < |ms| ensures ms[i] == ms[1..][i - 1] && ns[i] == ns[1..][i - 1] {}
  }

  lemma {:induction false} SameListSameMap(ms: seq<Member>, ns: seq<Member>)
    requires SameList(ms, ns) && AllPresent(ms) && AllPresent(ns)
    ensures MeanMembers(ms) == MeanMembers(ns)
  {
    if ms != [] {
      assert ms[0] in ms && ns[0] in ns;
      SameListSameMap(ms[1..], ns[1..]);
    }
  }

  function MembersText(ms: seq<Member>, leq: Order, x: Text): Text {
    PrintMembers(ms, leq) + [CLOSE_BRACE] + x
  }

  function MembersTail(ms: seq<Member>, leq: Order, x: Text): Text
    requires ms != []
  {
    if |ms| == 1 then [CLOSE_BRACE] + x else [COMMA] + MembersText(ms[1..], leq, x)
  }

  lemma GroupLast(k: Text, p: Text, x: Text)
    ensures k + [COLON] + p + [CLOSE_BRACE] + x == k + ([COLON] + (p + ([CLOSE_BRACE] + x)))
  {
    assert p + [CLOSE_BRACE] + x == p + ([CLOSE_BRACE] + x);
    GroupThree(k, [COLON], p + [CLOSE_BRACE] + x);
  }

  lemma GroupMore(k: Text, p: Text, q: Text, x: Text)
    ensures k + [COLON] + p + [COMMA] + q + [CLOSE_BRACE] + x
      == k + ([COLON] + (p + ([COMMA] + (q + [CLOSE_BRACE] + x))))
  {
    assert p + [COMMA] + q + [CLOSE_BRACE] + x == p + ([COMMA] + (q + [CLOSE_BRACE] + x));
    GroupThree(k, [COLON], p + [COMMA] + q + [CLOSE_BRACE] + x);
    assert k + [COLON] + p + [COMMA] + q + [CLOSE_BRACE] + x == k + [COLON] + (p + [COMMA] + q + [CLOSE_BRACE] + x);
  }

  lemma GroupThree(a: Text, b: Text, c: Text)
    ensures a + b + c == a + (b + c)
  {
  }

  lemma MembersSplit(ms: seq<Member>, leq: Order, x: Text)
    ensures ms == [] ==> MembersText(ms, leq, x) == [CLOSE_BRACE] + x
    ensures ms != [] ==>
      MembersText(ms, leq, x) == Quote(ms[0].key) + ([COLON] + (Print(ms[0].value, leq) + MembersTail(ms, leq, x)))
  {
    if ms != [] {
      var k, p := Quote(ms[0].key), Print(ms[0].value, leq);
      assert PrintMember(ms[0], leq) == k + [COLON] + p;
      if |ms| > 1 {
        var q := PrintMembers(ms[1..], leq);
        assert PrintMembers(ms, leq) == k + [COLON] + p + [COMMA] + q;
        GroupMore(k, p, q, x);
      } else {
        GroupLast(k, p, x);
      }
    }
  }

  lemma MembersHead(ms: seq<Member>, leq: Order, x: Text)
    ensures MembersText(ms, leq, x) != []
    ensures MembersText(ms, leq, x)[0] == CLOSE_BRACE <==> ms == []
  {
    MembersSplit(ms, leq, x);
    if ms != [] { assert Quote(ms[0].key)[0] == QUOTE; }
  }

  ghost predicate ValidValues(ms: seq<Member>) {
    forall m :: m in ms ==> Valid(m.value)
  }

  lemma {:induction false} MembersUnique(ms: seq<Member>, ns: seq<Member>, leq: Order, x: Text, y: Text)
    requires ValidValues(ms) && ValidValues(ns)
    requires MembersText(ms, leq, x) == MembersText(ns, leq, y)
    ensures SameList(ms, ns) && x == y
    decreases SizeMembers(ms), 0
  {
    MembersSplit(ms, leq, x);
    MembersSplit(ns, leq, y);
    MembersHead(ms, leq, x);
    MembersHead(ns, leq, y);
    if ms == [] {
      SameLength([CLOSE_BRACE], x, [CLOSE_BRACE], y);
    } else {
      assert ms[0] in ms && ns[0] in ns;
      var s, t := MembersTail(ms, leq, x), MembersTail(ns, leq, y);
      var p, q := Print(ms[0].value, leq) + s, Print(ns[0].value, leq) + t;
      QuoteUnique(ms[0].key, ns[0].key, [COLON] + p, [COLON] + q);
      SameLength([COLON], p, [COLON], q);
      PrintUnique(ms[0].value, ns[0].value, leq, s, t);
      TailsAgree(|ms| == 1, |ns| == 1, CLOSE_BRACE, MembersText(ms[1..], leq, x), MembersText(ns[1..], leq, y), x, y);
      if |ms| > 1 { MembersUnique(ms[1..], ns[1..], leq, x, y); }
      ConsSameList(ms, ns);
    }
  }

  // Whatever the collation does, two bodies with one canonical text mean the same.
  lemma TextDeterminesMeaning(v: Value, w: Value, leq: Order)
    requires Valid(v) && Valid(w) && Print(v, leq) == Print(w, leq)
    ensures Mean(v) == Mean(w)
  {
    PrintUnique(v, w, leq, [], []);
  }
}
