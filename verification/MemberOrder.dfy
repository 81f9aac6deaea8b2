/**
 The canonical text and the order of members: independent of it exactly for the bodies whose keys
 the collation tells apart.
 */
module MemberOrder {
  import opened Fingerprint
  import opened FingerprintProofs

  ghost predicate SortedBy(ms: seq<Member>, leq: Order) {
    forall i, j :: 0 <= i < j < |ms| ==> leq(ms[i].key, ms[j].key)
  }

  lemma {:induction false} InsertSorted(m: Member, sorted: seq<Member>, leq: Order)
    requires TotalPreorder(leq) && SortedBy(sorted, leq)
    requires DistinctKeys(sorted) && forall x :: x in sorted ==> x.key != m.key
    ensures SortedBy(Insert(m, sorted, leq), leq)
  {
    if sorted == [] {
    } else if leq(m.key, sorted[0].key) {
      var all := [m] + sorted;
      forall i, j | 0 <= i < j < |all| ensures leq(all[i].key, all[j].key) {
        assert leq(sorted[0].key, sorted[j - 1].key);
        if i > 0 { assert leq(sorted[i - 1].key, sorted[j - 1].key); }
      }
    } else {
      RestDiffers(sorted);
      var rest := Insert(m, sorted[1..], leq);
      InsertSorted(m, sorted[1..], leq);
      InsertElements(m, sorted[1..], leq);
      var all := [sorted[0]] + rest;
      forall i, j | 0 <= i < j < |all| ensures leq(all[i].key, all[j].key) {
        if i == 0 {
          assert all[j] in rest;
          if all[j] != m {
            var k :| 0 <= k < |sorted| - 1 && sorted[1..][k] == all[j];
            assert leq(sorted[0].key, sorted[k + 1].key);
          }
        } else {
          assert leq(rest[i - 1].key, rest[j - 1].key);
        }
      }
    }
  }

  lemma {:induction false} SortSorts(members: seq<Member>, leq: Order)
    requires TotalPreorder(leq) && DistinctKeys(members)
    ensures SortedBy(Sort(members, leq), leq)
  {
    if members != [] {
      RestDiffers(members);
      SortSorts(members[1..], leq);
      SortElements(members[1..], leq);
      InsertSorted(members[0], Sort(members[1..], leq), leq);
    }
  }

  lemma CanonicalSorted(members: seq<Member>, leq: Order)
    requires TotalPreorder(leq) && DistinctKeys(members)
    ensures SortedBy(Canonical(members, leq), leq)
  {
    PresentElements(members);
    SortSorts(Present(members), leq);
  }

  // No two different keys of the list tie.
  ghost predicate Apart(ms: seq<Member>, leq: Order) {
    forall x, y :: x in ms && y in ms && x.key != y.key ==> !Tie(leq, x.key, y.key)
  }

  // Two sorted lists that mean one map have the same keys in the same order.
  lemma SameHead(ms: seq<Member>, ns: seq<Member>, leq: Order)
    requires TotalPreorder(leq) && Apart(ms, leq) && SortedBy(ms, leq) && SortedBy(ns, leq)
    requires DistinctKeys(ms) && DistinctKeys(ns) && AllPresent(ms) && AllPresent(ns)
    requires MeanMembers(ms) == MeanMembers(ns) && ms != []
    ensures ns != [] && ms[0].key == ns[0].key && Mean(ms[0].value) == Mean(ns[0].value)
    ensures MeanMembers(ms[1..]) == MeanMembers(ns[1..])
  {
    assert ms[0] in ms;
    MeanHas(ms, ms[0]);
    MeanFrom(ns, ms[0].key);
    var n :| n in ns && n.key == ms[0].key;
    assert ns[0] in ns;
    MeanHas(ns, ns[0]);
    MeanFrom(ms, ns[0].key);
    var m :| m in ms && m.key == ns[0].key;
    FirstIsLeast(ms, m, leq);
    FirstIsLeast(ns, n, leq);
    assert Tie(leq, ms[0].key, m.key);
    RestOfMap(ms);
    RestOfMap(ns);
  }

  lemma Reflexive(leq: Order, a: Text)
    requires TotalPreorder(leq)
    ensures leq(a, a)
  {
  }

  lemma FirstIsLeast(ms: seq<Member>, m: Member, leq: Order)
    requires TotalPreorder(leq) && SortedBy(ms, leq) && m in ms
    ensures leq(ms[0].key, m.key)
  {
    var i :| 0 <= i < |ms| && ms[i] == m;
    assert i > 0 ==> leq(ms[0].key, ms[i].key);
    Reflexive(leq, ms[0].key);
  }

  lemma RestOfMap(ms: seq<Member>)
    requires ms != [] && DistinctKeys(ms) && AllPresent(ms)
    ensures MeanMembers(ms[1..]) == MeanMembers(ms) - {ms[0].key}
  {
    RestDiffers(ms);
    assert ms[0] in ms;
    if ms[0].key in MeanMembers(ms[1..]) {
      MeanFrom(ms[1..], ms[0].key);
      assert false;
    }
  }

  lemma RestSorted(ms: seq<Member>, leq: Order)
    requires ms != [] && SortedBy(ms, leq) && DistinctKeys(ms) && AllPresent(ms)
    ensures SortedBy(ms[1..], leq) && DistinctKeys(ms[1..]) && AllPresent(ms[1..])
    ensures Apart(ms, leq) ==> Apart(ms[1..], leq)
  {
    RestDiffers(ms);
    forall i, j | 0 <= i < j < |ms| - 1 ensures leq(ms[1..][i].key, ms[1..][j].key) {
      assert leq(ms[i + 1].key, ms[j + 1].key);
    }
  }

  // What is printed of a body whose keys are told apart is told apart.
  lemma CanonicalApart(members: seq<Member>, leq: Order)
    requires DistinctKeys(members) && KeysApart(Obj(members), leq)
    ensures Apart(Canonical(members, leq), leq)
    ensures forall m :: m in Canonical(members, leq) ==> KeysApart(m.value, leq)
  {
    CanonicalMeans(members, leq);
    var ms := Canonical(members, leq);
    forall x, y | x in ms && y in ms && x.key != y.key ensures !Tie(leq, x.key, y.key) {
      var i :| 0 <= i < |members| && members[i] == x;
      var j :| 0 <= j < |members| && members[j] == y;
    }
    forall m | m in ms ensures KeysApart(m.value, leq) {
      var i :| 0 <= i < |members| && members[i] == m;
      assert KeysApart(members[i].value, leq);
    }
  }

  lemma {:induction false} MeaningDeterminesPrint(v: Value, w: Value, leq: Order)
    requires TotalPreorder(leq) && KeysApart(v, leq) && Valid(v) && Valid(w) && Mean(v) == Mean(w)
    ensures Print(v, leq) == Print(w, leq)
    decreases Size(v), 1
  {
    match v
    case Arr(items) => ItemsPrint(items, w.items, leq);
    case Obj(members) =>
      var ms, ns := Canonical(members, leq), Canonical(w.members, leq);
      CanonicalMeans(members, leq);
      CanonicalMeans(w.members, leq);
      CanonicalSorted(members, leq);
      CanonicalSorted(w.members, leq);
      CanonicalApart(members, leq);
      MembersPrint(ms, ns, leq);
    case _ =>
  }

  lemma {:induction false} ItemsPrint(items: seq<Value>, others: seq<Value>, leq: Order)
    requires TotalPreorder(leq) && ValidItems(items) && ValidItems(others)
    requires forall i :: 0 <= i < |items| ==> KeysApart(items[i], leq)
    requires MeanItems(items) == MeanItems(others)
    ensures PrintItems(items, leq) == PrintItems(others, leq)
    decreases SizeItems(items), 0
  {
    if items != [] {
      assert MeanItems(items)[0] == MeanItems(others)[0];
      assert MeanItems(items)[1..] == MeanItems(others)[1..];
      MeaningDeterminesPrint(items[0], others[0], leq);
      ItemsPrint(items[1..], others[1..], leq);
    }
  }

  lemma {:induction false} MembersPrint(ms: seq<Member>, ns: seq<Member>, leq: Order)
    requires TotalPreorder(leq) && ValidValues(ms) && ValidValues(ns)
    requires Apart(ms, leq) && forall m :: m in ms ==> KeysApart(m.value, leq)
    requires SortedBy(ms, leq) && DistinctKeys(ms) && AllPresent(ms)
    requires SortedBy(ns, leq) && DistinctKeys(ns) && AllPresent(ns)
    requires MeanMembers(ms) == MeanMembers(ns)
    ensures PrintMembers(ms, leq) == PrintMembers(ns, leq) && |ms| == |ns|
    decreases SizeMembers(ms), 0
  {
    if ms == [] {
      if ns != [] {
        assert ns[0] in ns;
        MeanHas(ns, ns[0]);
      }
    } else {
      SameHead(ms, ns, leq);
      assert ms[0] in ms && ns[0] in ns;
      MeaningDeterminesPrint(ms[0].value, ns[0].value, leq);
      RestSorted(ms, leq);
      RestSorted(ns, leq);
      MembersPrint(ms[1..], ns[1..], leq);
      assert PrintMember(ms[0], leq) == PrintMember(ns[0], leq);
    }
  }

  // For a body whose keys the collation tells apart, canonical text and meaning determine each
  // other, whatever the other body is.
  lemma SameTextIffSameMeaning(v: Value, w: Value, leq: Order)
    requires TotalPreorder(leq) && KeysApart(v, leq) && Valid(v) && Valid(w)
    ensures Print(v, leq) == Print(w, leq) <==> Mean(v) == Mean(w)
  {
    if Print(v, leq) == Print(w, leq) { TextDeterminesMeaning(v, w, leq); }
    if Mean(v) == Mean(w) { MeaningDeterminesPrint(v, w, leq); }
  }

  // In particular, its members may be listed in any order.
  lemma MemberOrderIsIrrelevant(ms: seq<Member>, ns: seq<Member>, leq: Order)
    requires TotalPreorder(leq) && KeysApart(Obj(ms), leq) && Valid(Obj(ms)) && Valid(Obj(ns))
    requires multiset(ms) == multiset(ns)
    ensures Print(Obj(ms), leq) == Print(Obj(ns), leq)
  {
    forall m ensures m in ms <==> m in ns { assert m in multiset(ms) <==> m in multiset(ns); }
    SameElementsSameMeaning(ms, ns);
    MeaningDeterminesPrint(Obj(ms), Obj(ns), leq);
  }

  // ---------- Tied keys show ----------

  lemma {:induction false} SortedStays(ms: seq<Member>, leq: Order)
    requires SortedBy(ms, leq)
    ensures Sort(ms, leq) == ms
  {
    if ms != [] {
      forall i, j | 0 <= i < j < |ms| - 1 ensures leq(ms[1..][i].key, ms[1..][j].key) {
        assert leq(ms[i + 1].key, ms[j + 1].key);
      }
      SortedStays(ms[1..], leq);
      assert [ms[0]] + ms[1..] == ms;
      if |ms| > 1 { assert leq(ms[0].key, ms[1].key) && ms[1..][0] == ms[1]; }
    }
  }

  lemma {:induction false} PresentStays(ms: seq<Member>)
    requires AllPresent(ms)
    ensures Present(ms) == ms
  {
    if ms != [] {
      assert ms[0] in ms;
      PresentStays(ms[1..]);
      assert [ms[0]] + ms[1..] == ms;
    }
  }

  // A list that is already as it is printed stays so.
  lemma CanonicalStays(ms: seq<Member>, leq: Order)
    requires SortedBy(ms, leq) && AllPresent(ms)
    ensures Canonical(ms, leq) == ms
  {
    PresentStays(ms);
    SortedStays(ms, leq);
  }

  lemma {:induction false} ValidList(ms: seq<Member>)
    requires ValidValues(ms)
    ensures ValidMembers(ms)
  {
    if ms != [] {
      assert ms[0] in ms;
      ValidList(ms[1..]);
    }
  }

  // Two bracketed texts differ in what they enclose.
  lemma Enclosed(open: Unit, p: Text, q: Text, close: Unit)
    requires [open] + p + [close] == [open] + q + [close]
    ensures p == q
  {
    var s, t := [open] + p + [close], [open] + q + [close];
    assert s[1..|s| - 1] == p && t[1..|t| - 1] == q;
  }

  // Of two bodies that mean what v means and print differently, one prints differently from v.
  function Other(v: Value, a: Value, b: Value, leq: Order): (w: Value)
    requires Mean(a) == Mean(v) == Mean(b) && Valid(a) && Valid(b) && Print(a, leq) != Print(b, leq)
    ensures Valid(w) && Mean(w) == Mean(v) && Print(w, leq) != Print(v, leq)
  {
    if Print(a, leq) != Print(v, leq) then a else b
  }

  // Swapping two neighbours that tie leaves the list sorted, and the text shows it.
  lemma SwapText(ms: seq<Member>, p: nat, leq: Order)
    requires TotalPreorder(leq) && SortedBy(ms, leq) && DistinctKeys(ms) && AllPresent(ms) && ValidValues(ms)
    requires p + 1 < |ms| && Tie(leq, ms[p].key, ms[p + 1].key)
    ensures var v, w := Obj(ms), Obj(ms[p := ms[p + 1]][p + 1 := ms[p]]);
      Valid(v) && Valid(w) && Mean(v) == Mean(w) && Print(v, leq) != Print(w, leq)
  {
    var ns := ms[p := ms[p + 1]][p + 1 := ms[p]];
    SwapSorted(ms, p, leq);
    CanonicalStays(ms, leq);
    CanonicalStays(ns, leq);
    SameElementsSameMeaning(ms, ns);
    ValidList(ms);
    ValidList(ns);
    DifferentKeysDiffer(ms, ns, p, leq);
  }

  lemma DifferentKeysDiffer(ms: seq<Member>, ns: seq<Member>, p: nat, leq: Order)
    requires ValidValues(ms) && ValidValues(ns) && p < |ms| && p < |ns| && ms[p].key != ns[p].key
    ensures [OPEN_BRACE] + PrintMembers(ms, leq) + [CLOSE_BRACE] != [OPEN_BRACE] + PrintMembers(ns, leq) + [CLOSE_BRACE]
  {
    var a, b := PrintMembers(ms, leq), PrintMembers(ns, leq);
    assert !SameList(ms, ns);
    if [OPEN_BRACE] + a + [CLOSE_BRACE] == [OPEN_BRACE] + b + [CLOSE_BRACE] {
      Enclosed(OPEN_BRACE, a, b, CLOSE_BRACE);
      MembersUnique(ms, ns, leq, [], []);
      assert false;
    }
  }

  lemma SwapShows(members: seq<Member>, leq: Order) returns (w: Value)
    requires TotalPreorder(leq) && Valid(Obj(members)) && !Untied(members, leq)
    ensures Valid(w) && Mean(w) == Mean(Obj(members)) && Print(w, leq) != Print(Obj(members), leq)
  {
    var ms := Canonical(members, leq);
    CanonicalMeans(members, leq);
    CanonicalSorted(members, leq);
    var p := TiedNeighbours(members, leq);
    SwapText(ms, p, leq);
    w := Other(Obj(members), Obj(ms), Obj(ms[p := ms[p + 1]][p + 1 := ms[p]]), leq);
  }

  // What is printed of an object is its present members.
  lemma CanonicalElements(members: seq<Member>, leq: Order)
    requires DistinctKeys(members)
    ensures forall m :: m in Canonical(members, leq) <==> m in members && !m.value.Undefined?
  {
    PresentElements(members);
    SortElements(Present(members), leq);
  }

  // In the sorted list two tied keys have two tied neighbours between them.
  lemma TiedNeighbours(members: seq<Member>, leq: Order) returns (p: nat)
    requires TotalPreorder(leq) && DistinctKeys(members) && !Untied(members, leq)
    ensures var ms := Canonical(members, leq);
      p + 1 < |ms| && Tie(leq, ms[p].key, ms[p + 1].key)
  {
    var i, j :| 0 <= i < |members| && 0 <= j < |members| && members[i].key != members[j].key
      && !members[i].value.Undefined? && !members[j].value.Undefined?
      && Tie(leq, members[i].key, members[j].key);
    CanonicalElements(members, leq);
    CanonicalSorted(members, leq);
    p := NeighboursBetween(Canonical(members, leq), members[i], members[j], leq);
  }

  lemma NeighboursBetween(ms: seq<Member>, x: Member, y: Member, leq: Order) returns (p: nat)
    requires TotalPreorder(leq) && SortedBy(ms, leq) && x in ms && y in ms && x.key != y.key && Tie(leq, x.key, y.key)
    ensures p + 1 < |ms| && Tie(leq, ms[p].key, ms[p + 1].key)
  {
    var a :| 0 <= a < |ms| && ms[a] == x;
    var b :| 0 <= b < |ms| && ms[b] == y;
    p := if a < b then a else b;
    var q := if a < b then b else a;
    assert leq(ms[p].key, ms[p + 1].key);
    if p + 1 < q { assert leq(ms[p + 1].key, ms[q].key); }
    assert leq(ms[q].key, ms[p].key);
  }

  lemma SwapSorted(ms: seq<Member>, p: nat, leq: Order)
    requires TotalPreorder(leq) && SortedBy(ms, leq) && DistinctKeys(ms) && AllPresent(ms) && ValidValues(ms)
    requires p + 1 < |ms| && Tie(leq, ms[p].key, ms[p + 1].key)
    ensures var ns := ms[p := ms[p + 1]][p + 1 := ms[p]];
      && SortedBy(ns, leq) && DistinctKeys(ns) && AllPresent(ns) && ValidValues(ns)
      && (forall m :: m in ns <==> m in ms) && ns[p].key != ms[p].key
  {
    var ns := ms[p := ms[p + 1]][p + 1 := ms[p]];
    forall i, j | 0 <= i < j < |ns| ensures leq(ns[i].key, ns[j].key) {
      var a, b := Swapped(i, p), Swapped(j, p);
      if a < b { assert leq(ms[a].key, ms[b].key); }
    }
    SwapKeepsMembers(ms, p);
  }

  lemma SwapKeepsMembers(ms: seq<Member>, p: nat)
    requires p + 1 < |ms|
    ensures forall m :: m in ms[p := ms[p + 1]][p + 1 := ms[p]] <==> m in ms
  {
    var ns := ms[p := ms[p + 1]][p + 1 := ms[p]];
    forall m ensures m in ns <==> m in ms {
      if m in ms {
        var i :| 0 <= i < |ms| && ms[i] == m;
        assert ns[Swapped(i, p)] == m;
      }
    }
  }

  function Swapped(i: int, p: int): int {
    if i == p then p + 1 else if i == p + 1 then p else i
  }

  lemma {:induction false} ItemShows(items: seq<Value>, i: nat, u: Value, leq: Order)
    requires i < |items| && ValidItems(items) && Valid(u) && Mean(u) == Mean(items[i])
    requires Print(u, leq) != Print(items[i], leq)
    ensures var others := items[i := u];
      ValidItems(others) && MeanItems(others) == MeanItems(items) && PrintItems(others, leq) != PrintItems(items, leq)
  {
    var others := items[i := u];
    var p, q := Print(items[0], leq), Print(others[0], leq);
    if i > 0 {
      ItemShows(items[1..], i - 1, u, leq);
      assert items[1..][i - 1 := u] == others[1..];
      SameStart(p, PrintItems(items[1..], leq), PrintItems(others[1..], leq));
    } else {
      assert others[1..] == items[1..];
      if |items| > 1 { SameEnd(p, q, PrintItems(items[1..], leq)); }
    }
  }

  // Texts that differ still differ behind one start and a comma, or before a comma and one end.
  lemma SameStart(a: Text, x: Text, y: Text)
    requires x != y
    ensures a + [COMMA] + x != a + [COMMA] + y
  {
    if a + [COMMA] + x == a + [COMMA] + y { SameLength(a + [COMMA], x, a + [COMMA], y); }
  }

  lemma SameEnd(a: Text, b: Text, x: Text)
    requires a != b
    ensures a + [COMMA] + x != b + [COMMA] + x
  {
    assert a + [COMMA] + x == a + ([COMMA] + x) && b + [COMMA] + x == b + ([COMMA] + x);
    if a + ([COMMA] + x) == b + ([COMMA] + x) {
      assert |a| + 1 + |x| == |b| + 1 + |x|;
      SameLength(a, [COMMA] + x, b, [COMMA] + x);
    }
  }

  lemma {:induction false} ValidItem(items: seq<Value>, i: nat)
    requires ValidItems(items) && i < |items|
    ensures Valid(items[i])
  {
    if i > 0 { ValidItem(items[1..], i - 1); }
  }

  lemma MemberTextShows(m: Member, u: Value, leq: Order)
    requires Print(u, leq) != Print(m.value, leq)
    ensures PrintMember(Member(m.key, u), leq) != PrintMember(m, leq)
  {
    var k := Quote(m.key) + [COLON];
    if k + Print(u, leq) == k + Print(m.value, leq) {
      SameLength(k, Print(u, leq), k, Print(m.value, leq));
    }
  }

  lemma {:induction false} MemberShows(ms: seq<Member>, i: nat, u: Value, leq: Order)
    requires i < |ms| && Print(u, leq) != Print(ms[i].value, leq)
    ensures PrintMembers(ms[i := Member(ms[i].key, u)], leq) != PrintMembers(ms, leq)
  {
    var ns := ms[i := Member(ms[i].key, u)];
    var p, q := PrintMember(ms[0], leq), PrintMember(ns[0], leq);
    if i > 0 {
      MemberShows(ms[1..], i - 1, u, leq);
      assert ms[1..][i - 1 := Member(ms[i].key, u)] == ns[1..];
      SameStart(p, PrintMembers(ms[1..], leq), PrintMembers(ns[1..], leq));
    } else {
      MemberTextShows(ms[0], u, leq);
      assert ns[1..] == ms[1..];
      if |ms| > 1 { SameEnd(p, q, PrintMembers(ms[1..], leq)); }
    }
  }

  // A value inside that can be printed in two ways makes the object printable in two ways.
  lemma InsideShows(members: seq<Member>, m: Member, u: Value, leq: Order) returns (w: Value)
    requires TotalPreorder(leq) && Valid(Obj(members)) && m in members && !m.value.Undefined? && !u.Undefined?
    requires Valid(u) && Mean(u) == Mean(m.value) && Print(u, leq) != Print(m.value, leq)
    ensures Valid(w) && Mean(w) == Mean(Obj(members)) && Print(w, leq) != Print(Obj(members), leq)
  {
    var ms := Canonical(members, leq);
    CanonicalMeans(members, leq);
    CanonicalSorted(members, leq);
    CanonicalElements(members, leq);
    var i :| 0 <= i < |ms| && ms[i] == m;
    InsideSorted(ms, i, u, leq);
    w := Other(Obj(members), Obj(ms), Obj(ms[i := Member(m.key, u)]), leq);
  }

  lemma InsideSorted(ms: seq<Member>, i: nat, u: Value, leq: Order)
    requires TotalPreorder(leq) && SortedBy(ms, leq) && DistinctKeys(ms) && AllPresent(ms) && ValidValues(ms)
    requires i < |ms| && !u.Undefined? && Valid(u)
    requires Mean(u) == Mean(ms[i].value) && Print(u, leq) != Print(ms[i].value, leq)
    ensures var v, w := Obj(ms), Obj(ms[i := Member(ms[i].key, u)]);
      Valid(v) && Valid(w) && Mean(v) == Mean(w) && Print(v, leq) != Print(w, leq)
  {
    var ns := ms[i := Member(ms[i].key, u)];
    KeptKeys(ms, i, u, leq);
    CanonicalStays(ms, leq);
    CanonicalStays(ns, leq);
    SameListSameMap(ms, ns);
    ValidList(ms);
    ValidList(ns);
    MemberShows(ms, i, u, leq);
    if Print(Obj(ms), leq) == Print(Obj(ns), leq) {
      Enclosed(OPEN_BRACE, PrintMembers(ms, leq), PrintMembers(ns, leq), CLOSE_BRACE);
      assert false;
    }
  }

  lemma KeptKeys(ms: seq<Member>, i: nat, u: Value, leq: Order)
    requires i < |ms| && SortedBy(ms, leq) && DistinctKeys(ms) && AllPresent(ms) && ValidValues(ms)
    requires Valid(u) && !u.Undefined? && Mean(u) == Mean(ms[i].value)
    ensures var ns := ms[i := Member(ms[i].key, u)];
      SortedBy(ns, leq) && DistinctKeys(ns) && AllPresent(ns) && ValidValues(ns) && SameList(ms, ns)
  {
    var ns := ms[i := Member(ms[i].key, u)];
    forall m | m in ns ensures Valid(m.value) && !m.value.Undefined? {
      var k :| 0 <= k < |ns| && ns[k] == m;
      assert ms[k] in ms;
    }
    forall a, b | 0 <= a < b < |ns| ensures leq(ns[a].key, ns[b].key) { assert leq(ms[a].key, ms[b].key); }
  }

  // If two printed keys tie anywhere in a body, another body with the same meaning prints
  // differently: some order of the members shows.
  lemma {:induction false} TiesShow(v: Value, leq: Order) returns (w: Value)
    requires TotalPreorder(leq) && Valid(v) && !KeysApart(v, leq)
    ensures Valid(w) && Mean(w) == Mean(v) && Print(w, leq) != Print(v, leq)
    decreases v
  {
    match v
    case Arr(items) =>
      var i :| 0 <= i < |items| && !KeysApart(items[i], leq);
      ValidItem(items, i);
      var u := TiesShow(items[i], leq);
      ItemShows(items, i, u, leq);
      w := Arr(items[i := u]);
      if Print(w, leq) == Print(v, leq) {
        Enclosed(OPEN_BRACKET, PrintItems(w.items, leq), PrintItems(items, leq), CLOSE_BRACKET);
        assert false;
      }
    case Obj(members) =>
      if Untied(members, leq) {
        var i :| 0 <= i < |members| && !KeysApart(members[i].value, leq);
        ValidMember(members, members[i]);
        var u := TiesShow(members[i].value, leq);
        w := InsideShows(members, members[i], u, leq);
      } else {
        w := SwapShows(members, leq);
      }
  }

  // The condition is exact for every body: its text is the text of everything that means the same
  // if and only if the collation tells its keys apart.
  lemma OrderIndependentIffKeysApart(v: Value, leq: Order)
    requires TotalPreorder(leq) && Valid(v)
    ensures KeysApart(v, leq) <==> forall w :: Valid(w) && Mean(w) == Mean(v) ==> Print(w, leq) == Print(v, leq)
  {
    if KeysApart(v, leq) {
      forall w | Valid(w) && Mean(w) == Mean(v) ensures Print(w, leq) == Print(v, leq) {
        MeaningDeterminesPrint(v, w, leq);
      }
    } else {
      var w := TiesShow(v, leq);
    }
  }

  // Over all bodies: no collation but one that separates all texts makes order irrelevant to every
  // body. A locale's collation is not such a one, which is why the condition above is per body.
  lemma OrderIndependentIffSeparates(leq: Order)
    requires TotalPreorder(leq)
    ensures (forall v, w :: Valid(v) && Valid(w) && Mean(v) == Mean(w) ==> Print(v, leq) == Print(w, leq))
      <==> Separates(leq)
  {
    if Separates(leq) {
      forall v, w | Valid(v) && Valid(w) && Mean(v) == Mean(w) ensures Print(v, leq) == Print(w, leq) {
        SeparatedAreApart(v, leq);
        MeaningDeterminesPrint(v, w, leq);
      }
    } else {
      var a, b :| leq(a, b) && leq(b, a) && a != b;
      UnseparatedKeysShow(a, b, leq);
    }
  }

  lemma {:induction false} SeparatedAreApart(v: Value, leq: Order)
    requires Separates(leq)
    ensures KeysApart(v, leq)
    decreases v
  {
    match v
    case Arr(items) =>
      forall i | 0 <= i < |items| ensures KeysApart(items[i], leq) { SeparatedAreApart(items[i], leq); }
    case Obj(members) =>
      forall i | 0 <= i < |members| ensures KeysApart(members[i].value, leq) {
        SeparatedAreApart(members[i].value, leq);
      }
    case _ =>
  }

  // The smallest case: two keys that tie, in either order.
  lemma UnseparatedKeysShow(a: Text, b: Text, leq: Order)
    requires TotalPreorder(leq) && a != b && Tie(leq, a, b)
    ensures var v := Obj([Member(a, Null), Member(b, Null)]);
      var w := Obj([Member(b, Null), Member(a, Null)]);
      Valid(v) && Valid(w) && Mean(v) == Mean(w) && Print(v, leq) != Print(w, leq)
  {
    var x, y := Member(a, Null), Member(b, Null);
    SwapText([x, y], 0, leq);
    assert [x, y][0 := y][1 := x] == [y, x];
  }
}
