/** Pods of a StatefulSet are named by their index.  The operator compares names as
    strings; here is when that is the order of the indices. */
module Names {
  import opened Decimal
  import opened Selection

  /** An index in decimal, without leading zeros. */
  function Index(i: nat): (s: string)
    ensures s != [] && AllDigits(s) && ValueOf(s) == i
  {
    var last := ['0' + (i % 10) as char];
    if i < 10 then
      assert last[..0] == [];
      last
    else
      assert (Index(i / 10) + last)[..|Index(i / 10)|] == Index(i / 10);
      Index(i / 10) + last
  }

  function PodName(base: string, i: nat): string { base + "-" + Index(i) }

  lemma {:induction false} LessPrefix(p: string, a: string, b: string)
    ensures Less(p + a, p + b) <==> Less(a, b)
  {
    if p == [] {
      assert p + a == a && p + b == b;
    } else {
      LessPrefix(p[1..], a, b);
      assert (p + a)[1..] == p[1..] + a && (p + b)[1..] == p[1..] + b;
    }
  }

  lemma {:induction false} LessSuffix(a: string, x: char, b: string, y: char)
    requires |a| == |b|
    ensures Less(a + [x], b + [y]) <==> Less(a, b) || (a == b && x < y)
  {
    if a != [] {
      LessSuffix(a[1..], x, b[1..], y);
      assert (a + [x])[1..] == a[1..] + [x] && (b + [y])[1..] == b[1..] + [y];
      assert a == [a[0]] + a[1..] && b == [b[0]] + b[1..];
    }
  }

  /** Numbers with equally many digits compare as numbers do. */
  lemma {:induction false} SameLength(a: string, b: string)
    requires AllDigits(a) && AllDigits(b) && |a| == |b|
    ensures Less(a, b) <==> ValueOf(a) < ValueOf(b)
    ensures a == b <==> ValueOf(a) == ValueOf(b)
  {
    if a != [] {
      var k := |a| - 1;
      SameLength(a[..k], b[..k]);
      LessSuffix(a[..k], a[k], b[..k], b[k]);
      assert a == a[..k] + [a[k]] && b == b[..k] + [b[k]];
    }
  }

  /** Pods whose indices have equally many digits are ordered by index. */
  lemma PodNameOrder(base: string, i: nat, j: nat)
    requires |Index(i)| == |Index(j)|
    ensures Less(PodName(base, i), PodName(base, j)) <==> i < j
  {
    LessPrefix(base + "-", Index(i), Index(j));
    SameLength(Index(i), Index(j));
  }

  lemma TwoAndTen(base: string)
    ensures !Less(PodName(base, 2), PodName(base, 10))
  {
    assert Index(2) == "2" && Index(10) == "10" by { assert Index(1) == "1"; }
    LessPrefix(base + "-", "2", "10");
  }

  /** The pods of a StatefulSet of size `n` are ordered by index if and only if there are
      at most ten. */
  lemma NameOrderExact(base: string, n: nat)
    ensures (forall i: nat, j: nat | i < n && j < n :: Less(PodName(base, i), PodName(base, j)) <==> i < j) <==> n <= 10
  {
    if n <= 10 {
      forall i: nat, j: nat | i < n && j < n ensures Less(PodName(base, i), PodName(base, j)) <==> i < j {
        PodNameOrder(base, i, j);
      }
    } else {
      TwoAndTen(base);
    }
  }

  /** The last-named of some pods is the one with the highest index, as documented, if
      there are at most ten pods. */
  lemma HighestIndexStopped(base: string, n: nat, pods: set<nat>, i: nat)
    requires n <= 10 && i in pods && forall j | j in pods :: j < n
    requires LastNamed(PodName(base, i), set j | j in pods :: PodName(base, j))
    ensures forall j | j in pods :: j <= i
  {
    var names := set j | j in pods :: PodName(base, j);
    NameOrderExact(base, n);
    forall j | j in pods ensures j <= i {
      assert PodName(base, j) in names;
      LessTotal(PodName(base, i), PodName(base, i));
      if PodName(base, j) != PodName(base, i) { assert Less(PodName(base, j), PodName(base, i)); }
    }
  }

  /** For instance: number nine is stopped before number ten. */
  lemma NineAfterTen()
    ensures LastNamed("app-9", {"app-9", "app-10"})
  {
    assert "app-9" == "app-" + "9" && "app-10" == "app-" + "10";
    LessPrefix("app-", "10", "9");
  }
}
