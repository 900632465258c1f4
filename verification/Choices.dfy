/** Exactly which members chooseMember may return.  Its comparison is not an order, so
    the answer can depend on the map order, and can even be a member that another
    candidate beats on both counts. */
module Choices {
  import opened Views
  import opened Selection

  /** Some candidate is named before `n`, and all of those are at least as recent as all
      candidates from `n` on. */
  ghost predicate Cut(v: View, n: string) {
    && (exists l :: l in Candidates(v) && Less(l, n))
    && forall l, u | l in Candidates(v) && u in Candidates(v) && Less(l, n) && !Less(u, n) ::
         v[l].sequence >= v[u].sequence
  }

  /** No cut lies at or before `t`. */
  ghost predicate NoCutUpTo(v: View, t: string) {
    forall n {:trigger Cut(v, n)} | n in Candidates(v) && (n == t || Less(n, t)) :: !Cut(v, n)
  }

  // ---- nobody from a cut on can win ----

  lemma LessThrough(l: string, n: string, u: string)
    requires Less(l, n) && !Less(u, n)
    ensures Less(l, u) && !Less(u, l)
  {
    LessTotal(u, n);
    if u != n { LessTransitive(l, n, u); }
    LessTotal(l, u);
  }

  /** Once a candidate from before the cut has been met, the scan stays before the cut. */
  lemma {:induction false} StaysBeforeCut(v: View, n: string, order: seq<string>, l: string)
    requires forall m | m in order :: m in v
    requires Cut(v, n) && l in order && l in Candidates(v) && Less(l, n)
    ensures var r := ScanMember(v, order); r.Some? && Less(r.value, n)
  {
    var k := |order| - 1;
    var init, m := order[..k], order[k];
    assert order == init + [m];
    var best := ScanMember(v, init);
    if l in init {
      StaysBeforeCut(v, n, init, l);
      if m in Candidates(v) && !Less(m, n) { LessThrough(best.value, n, m); }
    } else if best.Some? && !Less(best.value, n) {
      LessThrough(l, n, best.value);
    }
  }

  // ---- everybody else can ----

  ghost predicate BeatenBy(v: View, x: string, y: string) {
    x in v && y in Candidates(v) && Beats(v, y, x)
  }

  ghost predicate BeatenAfter(v: View, order: seq<string>, i: nat)
    requires i < |order|
  {
    exists j :: i < j < |order| && BeatenBy(v, order[i], order[j])
  }

  /** Every candidate on the list but the last is beaten by a later one. */
  ghost predicate Chained(v: View, order: seq<string>) {
    forall i {:trigger BeatenAfter(v, order, i)} | 0 <= i < |order| - 1 && order[i] in Candidates(v) ::
      BeatenAfter(v, order, i)
  }

  /** The winner of a scan is beaten by nobody met after it. */
  lemma {:induction false} WinnerUnbeaten(v: View, order: seq<string>, i: nat)
    requires forall m | m in order :: m in v
    requires forall a, b | 0 <= a < b < |order| :: order[a] != order[b]
    requires i < |order| && ScanMember(v, order) == Some(order[i])
    ensures forall j | i < j < |order| && order[j] in Candidates(v) :: !Beats(v, order[j], order[i])
  {
    var k := |order| - 1;
    if i < k {
      var init := order[..k];
      assert order == init + [order[k]];
      WinnerUnbeaten(v, init, i);
    }
  }

  lemma ChainedLastWins(v: View, order: seq<string>)
    requires IsOrder(order, v.Keys) && order != [] && Chained(v, order)
    requires order[|order| - 1] in Candidates(v)
    ensures ScanMember(v, order) == Some(order[|order| - 1])
  {
    var k := |order| - 1;
    var init := order[..k];
    assert order == init + [order[k]];
    var best := ScanMember(v, init);
    if best.Some? {
      var i :| 0 <= i < k && init[i] == best.value;
      WinnerUnbeaten(v, init, i);
      forall j | i < j < k && order[j] in Candidates(v) ensures !BeatenBy(v, order[i], order[j]) {
        assert init[j] == order[j];
      }
      LastBeats(v, order, i);
    }
  }

  /** In a chain, a name that nobody but the last can beat is beaten by the last. */
  lemma LastBeats(v: View, order: seq<string>, i: nat)
    requires Chained(v, order) && i < |order| - 1 && order[i] in Candidates(v)
    requires forall j | i < j < |order| - 1 && order[j] in Candidates(v) :: !BeatenBy(v, order[i], order[j])
    ensures BeatenBy(v, order[i], order[|order| - 1])
  {
    assert BeatenAfter(v, order, i);
  }

  /** A name put in front must be no candidate, or beaten by somebody behind it. */
  lemma ChainedPrepend(v: View, x: string, order: seq<string>)
    requires Chained(v, order) && order != []
    requires x in Candidates(v) ==> exists j | 0 <= j < |order| :: BeatenBy(v, x, order[j])
    ensures Chained(v, [x] + order)
  {
    var all := [x] + order;
    forall i | 0 <= i < |all| - 1 && all[i] in Candidates(v) ensures BeatenAfter(v, all, i) {
      if i == 0 {
        var j :| 0 <= j < |order| && BeatenBy(v, x, order[j]);
        assert all[j + 1] == order[j];
      } else {
        assert BeatenAfter(v, order, i - 1);
        var j :| i - 1 < j < |order| && BeatenBy(v, order[i - 1], order[j]);
        assert all[j + 1] == order[j];
      }
    }
  }

  /** The first name of a nonempty set. */
  lemma {:induction false} FirstName(s: set<string>) returns (n: string)
    requires s != {}
    ensures n in s && forall m | m in s :: !Less(m, n)
  {
    n :| n in s;
    LessTotal(n, n);
    if s != {n} {
      var first := n;
      var rest := FirstName(s - {n});
      LessTotal(first, rest);
      if Less(rest, first) {
        n := rest;
      } else {
        forall m | m in s - {first} ensures !Less(m, first) {
          if Less(m, first) { LessTransitive(m, first, rest); }
        }
      }
    }
  }

  /** A set of candidates that beats nobody outside starts at a cut. */
  lemma NobodyBeaten(v: View, inside: set<string>, n: string)
    requires inside < Candidates(v) && n in inside && forall m | m in inside :: !Less(m, n)
    requires forall l, u | l in Candidates(v) - inside && u in inside :: !BeatenBy(v, l, u)
    ensures Cut(v, n)
  {
    var outside := Candidates(v) - inside;
    forall l | l in outside ensures Less(l, n) {
      assert !BeatenBy(v, l, n);
      LessTotal(l, n);
    }
    var l :| l in Candidates(v) && l !in inside;
    forall l, u | l in Candidates(v) && u in Candidates(v) && Less(l, n) && !Less(u, n)
      ensures v[l].sequence >= v[u].sequence
    {
      assert l in outside && u in inside;
      assert !BeatenBy(v, l, u);
    }
  }

  /** Without a cut up to `t`, some candidate `x` outside `inside` is beaten by some `y` inside. */
  lemma NextInChain(v: View, t: string, inside: set<string>) returns (x: string, y: string)
    requires t in inside && inside < Candidates(v)
    requires NoCutUpTo(v, t)
    ensures x in Candidates(v) - inside && y in inside && BeatenBy(v, x, y)
  {
    var n := FirstName(inside);
    LessTotal(n, t);
    var outside := Candidates(v) - inside;
    if l, u :| l in outside && u in inside && BeatenBy(v, l, u) {
      x, y := l, u;
    } else {
      NobodyBeaten(v, inside, n);
    }
  }

  lemma ExtendChain(v: View, order: seq<string>, inside: set<string>, x: string, y: string)
    requires IsOrder(order, inside) && Chained(v, order) && order != []
    requires x !in inside && y in inside && BeatenBy(v, x, y)
    ensures IsOrder([x] + order, inside + {x}) && Chained(v, [x] + order)
  {
    var j :| 0 <= j < |order| && order[j] == y;
    ChainedPrepend(v, x, order);
    OrderPrepend(order, inside, x);
  }

  /** Grows a chain ending in `t` until it covers all candidates. */
  lemma {:induction false} GrowChain(v: View, t: string, order: seq<string>, inside: set<string>) returns (all: seq<string>)
    requires IsOrder(order, inside) && t in inside && inside <= Candidates(v)
    requires Chained(v, order) && order != [] && order[|order| - 1] == t
    requires NoCutUpTo(v, t)
    ensures IsOrder(all, Candidates(v)) && Chained(v, all) && all != [] && all[|all| - 1] == t
    decreases Candidates(v) - inside
  {
    if inside == Candidates(v) {
      all := order;
    } else {
      var x, y := NextInChain(v, t, inside);
      ExtendChain(v, order, inside, x, y);
      all := GrowChain(v, t, [x] + order, inside + {x});
    }
  }

  /** Puts the other members in front, where the scan ignores them. */
  lemma {:induction false} FillChain(v: View, order: seq<string>, inside: set<string>) returns (all: seq<string>)
    requires IsOrder(order, inside) && Candidates(v) <= inside <= v.Keys && Chained(v, order) && order != []
    ensures IsOrder(all, v.Keys) && Chained(v, all) && all != [] && all[|all| - 1] == order[|order| - 1]
    decreases v.Keys - inside
  {
    if inside == v.Keys {
      all := order;
    } else {
      var x :| x in v.Keys && x !in inside;
      ChainedPrepend(v, x, order);
      OrderPrepend(order, inside, x);
      all := FillChain(v, [x] + order, inside + {x});
    }
  }

  /** chooseMember may return `t` if and only if `t` is a candidate and no cut in the
      name order lies at or before it. */
  lemma ChoosableExact(v: View, t: string)
    ensures Choosable(v, t) <==> t in Candidates(v) && NoCutUpTo(v, t)
  {
    if t in Candidates(v) && NoCutUpTo(v, t) {
      assert IsOrder([t], {t});
      var chain := GrowChain(v, t, [t], {t});
      var order := FillChain(v, chain, Candidates(v));
      ChainedLastWins(v, order);
    }
    if Choosable(v, t) {
      var order :| IsOrder(order, v.Keys) && ScanMember(v, order) == Some(t);
      forall n | n in Candidates(v) && (n == t || Less(n, t)) ensures !Cut(v, n) {
        if Cut(v, n) {
          var l :| l in Candidates(v) && Less(l, n);
          StaysBeforeCut(v, n, order, l);
          LessTotal(n, t);
        }
      }
    }
  }
}
