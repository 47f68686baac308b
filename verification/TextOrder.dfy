/** The byte order in which the store compares text columns. */
module TextOrder {

  predicate Less(a: string, b: string)
    decreases |b|
  {
    |b| > 0 && (|a| == 0 || a[0] < b[0] || (a[0] == b[0] && Less(a[1..], b[1..])))
  }

  predicate AtMost(a: string, b: string) {
    a == b || Less(a, b)
  }

  lemma {:induction false} Trichotomy(a: string, b: string)
    ensures Less(a, b) || a == b || Less(b, a)
    decreases |b|
  {
    if a != [] && b != [] && a[0] == b[0] {
      Trichotomy(a[1..], b[1..]);
      assert a == [a[0]] + a[1..] && b == [b[0]] + b[1..];
    }
  }

  lemma {:induction false} Transitive(a: string, b: string, c: string)
    requires Less(a, b) && Less(b, c)
    ensures Less(a, c)
    decreases |c|
  {
    if a != [] && a[0] == b[0] == c[0] {
      Transitive(a[1..], b[1..], c[1..]);
    }
  }

  lemma {:induction false} Irreflexive(a: string)
    ensures !Less(a, a)
    decreases |a|
  {
    if a != [] {
      Irreflexive(a[1..]);
    }
  }

  lemma StrictTotalOrder()
    ensures forall a: string :: !Less(a, a)
    ensures forall a: string, b: string :: Less(a, b) || a == b || Less(b, a)
    ensures forall a: string, b: string, c: string :: Less(a, b) && Less(b, c) ==> Less(a, c)
  {
    forall a: string ensures !Less(a, a) {
      Irreflexive(a);
    }
    forall a: string, b: string ensures Less(a, b) || a == b || Less(b, a) {
      Trichotomy(a, b);
    }
    forall a: string, b: string, c: string | Less(a, b) && Less(b, c) ensures Less(a, c) {
      Transitive(a, b, c);
    }
  }

  lemma AtMostIffNotAfter(a: string, b: string)
    ensures AtMost(a, b) <==> !Less(b, a)
  {
    hide Less;
    StrictTotalOrder();
  }

  /** A shared prefix does not influence the order. */
  lemma {:induction false} SharedPrefix(p: string, a: string, b: string)
    ensures Less(p + a, p + b) <==> Less(a, b)
    decreases |p|
  {
    if p == [] {
      assert p + a == a && p + b == b;
    } else {
      assert (p + a)[1..] == p[1..] + a && (p + b)[1..] == p[1..] + b;
      SharedPrefix(p[1..], a, b);
    }
  }

  /** Texts whose equally long heads differ are ordered by those heads. */
  lemma {:induction false} HeadsDecide(p: string, q: string, a: string, b: string)
    requires |p| == |q| && p != q
    ensures Less(p + a, q + b) <==> Less(p, q)
    decreases |p|
  {
    assert (p + a)[1..] == p[1..] + a && (q + b)[1..] == q[1..] + b;
    if p[0] == q[0] {
      assert p == [p[0]] + p[1..] && q == [q[0]] + q[1..];
      HeadsDecide(p[1..], q[1..], a, b);
    }
  }
}
