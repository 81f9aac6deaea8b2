/** Value types and arithmetic shared by the models. */
module Wrappers {
  datatype Option<+T> = None | Some(value: T)
}

module Arithmetic {
  function Pow2(n: nat): nat {
    if n == 0 then 1 else 2 * Pow2(n - 1)
  }

  function Min(a: int, b: int): int {
    if b < a then b else a
  }

  function Max(a: int, b: int): int {
    if b > a then b else a
  }

  lemma ProductSign(a: real, b: real)
    requires a >= 0.0 && b >= 0.0
    ensures a * b >= 0.0
    ensures a > 0.0 && b > 0.0 ==> a * b > 0.0
  {
  }

  lemma Complement(a: real, b: real)
    ensures (1.0 - a) * b == b - a * b
  {
  }

  // A draw from [0, 1) scaled to `width`, rounded down.
  lemma DrawBelow(random: real, width: nat)
    requires 0.0 <= random < 1.0
    ensures 0 <= (random * width as real).Floor <= width
    ensures width > 0 ==> (random * width as real).Floor < width
  {
    var w := width as real;
    ProductSign(random, w);
    ProductSign(1.0 - random, w);
    Complement(random, w);
    FloorBetween(random * w, width);
  }

  lemma FloorBetween(x: real, width: nat)
    requires 0.0 <= x <= width as real && (width > 0 ==> x < width as real)
    ensures 0 <= x.Floor <= width && (width > 0 ==> x.Floor < width)
  {
  }

  // Some draw gives any number below `width`.
  lemma DrawReaches(width: nat, n: nat) returns (random: real)
    requires n < width
    ensures 0.0 <= random < 1.0 && (random * width as real).Floor == n
  {
    random := n as real / width as real;
    assert random * width as real == n as real;
  }

  // A number above all of them.
  lemma {:induction false} SpareId(used: set<nat>) returns (r: nat)
    ensures r !in used && forall s :: s in used ==> s < r
  {
    if used == {} {
      r := 0;
    } else {
      var s :| s in used;
      var t := SpareId(used - {s});
      assert forall u :: u in used ==> u == s || u in used - {s};
      r := if s < t then t else s + 1;
    }
  }
}
