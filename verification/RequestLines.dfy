/** The line that is hashed names one method, one target and one body. */
module RequestLines {
  import opened Fingerprint
  import opened FingerprintProofs
  import opened MemberOrder

  predicate NoSpace(s: Text) {
    SPACE !in s
  }

  lemma SpaceInside(a: Text, x: Text, b: Text, y: Text)
    requires a + [SPACE] + x == b + [SPACE] + y && |a| < |b|
    ensures SPACE in b
  {
    assert a + [SPACE] + x == a + ([SPACE] + x) && b + [SPACE] + y == b + ([SPACE] + y);
    NextUnit(a, [SPACE] + x, b, [SPACE] + y);
  }

  lemma SplitAtSpace(a: Text, x: Text, b: Text, y: Text)
    requires NoSpace(a) && NoSpace(b) && a + [SPACE] + x == b + [SPACE] + y
    ensures a == b && x == y
  {
    if |a| < |b| { SpaceInside(a, x, b, y); }
    if |b| < |a| { SpaceInside(b, y, a, x); }
    SameLength(a + [SPACE], x, b + [SPACE], y);
    assert a == (a + [SPACE])[..|a|] && b == (b + [SPACE])[..|b|];
  }

  // The line that is hashed names one method, one target and one body, up to member order: two
  // requests, the keys of one of them told apart, share it exactly when they are the same request.
  lemma SameLineIffSameRequest(m1: Text, p1: Text, v: Value, m2: Text, p2: Text, w: Value, leq: Order)
    requires TotalPreorder(leq) && KeysApart(v, leq) && Valid(v) && Valid(w)
    requires NoSpace(Upper(m1)) && NoSpace(Upper(m2)) && NoSpace(p1) && NoSpace(p2)
    ensures RequestLine(m1, p1, v, leq) == RequestLine(m2, p2, w, leq)
      <==> Upper(m1) == Upper(m2) && p1 == p2 && Mean(v) == Mean(w)
  {
    if RequestLine(m1, p1, v, leq) == RequestLine(m2, p2, w, leq) {
      LineDeterminesRequest(m1, p1, v, m2, p2, w, leq);
    } else if Mean(v) == Mean(w) {
      MeaningDeterminesPrint(v, w, leq);
    }
  }

  // And that condition is exact for every request: it is recognised in every order of its members
  // if and only if the collation tells its keys apart.
  lemma RecognisedIffKeysApart(httpMethod: Text, path: Text, v: Value, leq: Order)
    requires TotalPreorder(leq) && Valid(v)
    ensures KeysApart(v, leq) <==> forall w :: Valid(w) && Mean(w) == Mean(v) ==>
      RequestLine(httpMethod, path, w, leq) == RequestLine(httpMethod, path, v, leq)
  {
    if KeysApart(v, leq) {
      forall w | Valid(w) && Mean(w) == Mean(v)
        ensures RequestLine(httpMethod, path, w, leq) == RequestLine(httpMethod, path, v, leq)
      {
        MeaningDeterminesPrint(v, w, leq);
      }
    } else {
      var w := TiesShow(v, leq);
      var start := Upper(httpMethod) + [SPACE] + path + [SPACE];
      if start + Print(w, leq) == start + Print(v, leq) {
        SameLength(start, Print(w, leq), start, Print(v, leq));
        assert false;
      }
    }
  }

  // For any collation at all, one line means one request.
  lemma LineDeterminesRequest(m1: Text, p1: Text, v: Value, m2: Text, p2: Text, w: Value, leq: Order)
    requires Valid(v) && Valid(w)
    requires NoSpace(Upper(m1)) && NoSpace(Upper(m2)) && NoSpace(p1) && NoSpace(p2)
    requires RequestLine(m1, p1, v, leq) == RequestLine(m2, p2, w, leq)
    ensures Upper(m1) == Upper(m2) && p1 == p2 && Mean(v) == Mean(w)
  {
    LineShape(m1, p1, v, leq);
    LineShape(m2, p2, w, leq);
    SplitAtSpace(Upper(m1), p1 + [SPACE] + Print(v, leq), Upper(m2), p2 + [SPACE] + Print(w, leq));
    SplitAtSpace(p1, Print(v, leq), p2, Print(w, leq));
    TextDeterminesMeaning(v, w, leq);
  }

  lemma LineShape(httpMethod: Text, path: Text, v: Value, leq: Order)
    ensures RequestLine(httpMethod, path, v, leq) == Upper(httpMethod) + [SPACE] + (path + [SPACE] + Print(v, leq))
  {
  }
}
