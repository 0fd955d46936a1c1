/** Byte-wise order on text: how the table compares two TEXT values with `<=`. */
module TextOrder {

  predicate Less(a: string, b: string) {
    if b == "" then false
    else if a == "" then true
    else if a[0] != b[0] then a[0] < b[0]
    else Less(a[1..], b[1..])
  }

  predicate Leq(a: string, b: string) {
    !Less(b, a)
  }

  // The first position where two texts differ decides their order.
  lemma {:induction false} FirstDifference(a: string, b: string, i: nat)
    requires i < |a| && i < |b|
    requires a[..i] == b[..i] && a[i] != b[i]
    ensures Less(a, b) <==> a[i] < b[i]
  {
    if i > 0 {
      assert a[0] == a[..i][0] == b[..i][0] == b[0];
      assert a[1..][..i - 1] == a[..i][1..] == b[..i][1..] == b[1..][..i - 1];
      FirstDifference(a[1..], b[1..], i - 1);
    }
  }

  lemma {:induction false} CommonPrefix(p: string, a: string, b: string)
    ensures Less(p + a, p + b) == Less(a, b)
  {
    if p == "" {
      assert p + a == a && p + b == b;
    } else {
      assert (p + a)[1..] == p[1..] + a && (p + b)[1..] == p[1..] + b;
      CommonPrefix(p[1..], a, b);
    }
  }

  // Two different heads of the same length decide the order of what they start.
  lemma {:induction false} HeadsDecide(a: string, b: string, x: string, y: string)
    requires |a| == |b| && a != b
    ensures Less(a + x, b + y) == Less(a, b)
  {
    if a[0] == b[0] {
      assert (a + x)[1..] == a[1..] + x && (b + y)[1..] == b[1..] + y;
      assert a == [a[0]] + a[1..] && b == [b[0]] + b[1..];
      HeadsDecide(a[1..], b[1..], x, y);
    }
  }

  lemma {:induction false} Trichotomy(a: string, b: string)
    ensures Less(a, b) ==> a != b && !Less(b, a)
    ensures !Less(a, b) && !Less(b, a) ==> a == b
  {
    if a != "" && b != "" && a[0] == b[0] {
      Trichotomy(a[1..], b[1..]);
      assert a == [a[0]] + a[1..] && b == [b[0]] + b[1..];
    }
  }

  lemma {:induction false} LeqTransitive(a: string, b: string, c: string)
    requires Leq(a, b) && Leq(b, c)
    ensures Leq(a, c)
  {
    if a != "" && b != "" && c != "" && a[0] == b[0] == c[0] {
      LeqTransitive(a[1..], b[1..], c[1..]);
    }
  }
}
