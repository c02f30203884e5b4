/** What the amount calculator guarantees: exact conservation of the contract total, a bound
    on the residual, and that the residual moves a single milestone. */
module PaymentLaws {
  import opened PaymentMilestones
  import opened Rounding
  import opened Sequences

  lemma {:induction false} TotalUpdate(ms: seq<Milestone>, cents: seq<real>, count: Milestone -> bool, k: nat, v: real)
    requires |ms| == |cents| && k < |ms|
    ensures TotalOf(ms, cents[k := v], count) == TotalOf(ms, cents, count) + if count(ms[k]) then v - cents[k] else 0.0
  {
    var n := |ms| - 1;
    if k < n {
      TotalUpdate(ms[..n], cents[..n], count, k, v);
      assert cents[k := v][..n] == cents[..n][k := v];
    } else {
      assert cents[k := v][..n] == cents[..n];
    }
  }

  lemma {:induction false} CountedIsFixedPlusPercent(ms: seq<Milestone>, cents: seq<real>)
    requires |ms| == |cents|
    ensures CountedTotal(ms, cents) == FixedTotal(ms, cents) + TotalOf(ms, cents, IsPercentShare)
  {
    if ms != [] {
      var n := |ms| - 1;
      CountedIsFixedPlusPercent(ms[..n], cents[..n]);
    }
  }

  /** Whatever the residual, adding it makes the counted cents add up to the contract exactly. */
  lemma Conservation(ms: seq<Milestone>, total: real)
    requires Reconciles(ms, total)
    ensures CountedTotal(ms, Amounts(ms, total)) == total
  {
    var raw := RawAmounts(ms, total);
    var k := ResidualIndex(ms);
    TotalUpdate(ms, raw, IsCounted, k, raw[k] + Residual(ms, total));
  }

  /** Every milestone but one keeps the rounded share computed from it alone; the one that may
      differ is the latest percent share of greatest sort order, and only when reconciling. */
  lemma OnlyLastShareMoves(ms: seq<Milestone>, total: real, i: nat)
    requires i < |ms| && Amounts(ms, total)[i] != RawAmount(ms[i], total)
    ensures Reconciles(ms, total) && LatestMax(ms, IsPercentShare, SortOrder, i)
    ensures Amounts(ms, total)[i] == RawAmount(ms[i], total) + Residual(ms, total)
  {
  }

  lemma ShareSum(t: real, a: real, b: real)
    ensures Share(t, a + b) == Share(t, a) + Share(t, b)
  {
    assert (a + b) / 100.0 == a / 100.0 + b / 100.0;
  }

  function Half(n: nat): real { n as real / 2.0 }

  /** Rounding each of `n` shares moves their sum by at most `n/2`, and never by a full `n/2` down. */
  lemma {:induction false} SharesRound(ms: seq<Milestone>, total: real)
    ensures var exact := Share(total, PercentTotal(ms));
      var rounded := TotalOf(ms, RawAmounts(ms, total), IsPercentShare);
      && exact - Half(PercentCount(ms)) <= rounded <= exact + Half(PercentCount(ms))
      && (PercentCount(ms) > 0 ==> exact - Half(PercentCount(ms)) < rounded)
  {
    if ms != [] {
      var n := |ms| - 1;
      SharesRound(ms[..n], total);
      SharesRoundStep(ms[..n], ms[n], total);
      assert ms == ms[..n] + [ms[n]];
    }
  }

  lemma SharesRoundStep(ms: seq<Milestone>, m: Milestone, total: real)
    ensures PercentTotal(ms + [m]) == PercentTotal(ms) + if IsPercentShare(m) then m.amountValue else 0.0
    ensures PercentCount(ms + [m]) == PercentCount(ms) + if IsPercentShare(m) then 1 else 0
    ensures TotalOf(ms + [m], RawAmounts(ms + [m], total), IsPercentShare)
      == TotalOf(ms, RawAmounts(ms, total), IsPercentShare) + if IsPercentShare(m) then RawAmount(m, total) else 0.0
    ensures Share(total, PercentTotal(ms + [m])) == Share(total, PercentTotal(ms)) + if IsPercentShare(m) then Share(total, m.amountValue) else 0.0
  {
    var all, n := ms + [m], |ms|;
    assert all[..n] == ms;
    assert RawAmounts(all, total)[..n] == RawAmounts(ms, total);
    assert Values(all)[..n] == Values(ms);
    ShareSum(total, PercentTotal(ms), m.amountValue);
  }

  function Abs(x: real): real { if x < 0.0 then -x else x }

  /** What EPSILON lets the percents miss 100 by, in cents. */
  function Slack(total: real): real { Abs(total) * (EPSILON / 100.0) }

  lemma ScaledEpsilon(t: real, p: real)
    requires NearlyEqual(p, PERCENT_TOTAL)
    ensures -Slack(t) <= t - Share(t, p) <= Slack(t)
  {
    var d, e := (100.0 - p) / 100.0, EPSILON / 100.0;
    assert p / 100.0 == 1.0 - d;
    assert t - Share(t, p) == t * d;
    AbsProduct(t, d, e);
  }

  lemma AbsProduct(t: real, d: real, e: real)
    requires -e <= d <= e
    ensures -(Abs(t) * e) <= t * d <= Abs(t) * e
  {
    var a := Abs(t);
    NonNegativeProduct(a, e - d);
    NonNegativeProduct(a, e + d);
    assert a * (e - d) == a * e - a * d && a * (e + d) == a * e + a * d;
    assert if t < 0.0 then a * d == -(t * d) else a * d == t * d;
  }

  lemma NonNegativeProduct(a: real, b: real)
    requires a >= 0.0 && b >= 0.0
    ensures a * b >= 0.0
  {
  }

  /** The residual is at most half a cent per percent share, plus the slack. */
  lemma ResidualBound(ms: seq<Milestone>, total: real)
    requires Reconciles(ms, total)
    ensures Abs(Residual(ms, total)) <= Half(PercentCount(ms)) + Slack(total)
  {
    var raw := RawAmounts(ms, total);
    var rounded, exact := TotalOf(ms, raw, IsPercentShare), Share(total, PercentTotal(ms));
    assert CountedTotal(ms, raw) == rounded by { CountedIsFixedPlusPercent(ms, raw); }
    assert exact - Half(PercentCount(ms)) <= rounded <= exact + Half(PercentCount(ms)) by { SharesRound(ms, total); }
    assert -Slack(total) <= total - exact <= Slack(total) by { ScaledEpsilon(total, PercentTotal(ms)); }
  }

  /** A whole contract total gives whole cents everywhere. */
  lemma {:induction false} TotalIsInteger(ms: seq<Milestone>, cents: seq<real>, count: Milestone -> bool)
    requires |ms| == |cents| && forall i :: 0 <= i < |cents| ==> IsInteger(cents[i])
    ensures IsInteger(TotalOf(ms, cents, count))
  {
    if ms != [] {
      var n := |ms| - 1;
      TotalIsInteger(ms[..n], cents[..n], count);
      WholeSum(TotalOf(ms[..n], cents[..n], count), cents[n]);
    }
  }

  lemma WholeSum(a: real, b: real)
    requires IsInteger(a) && IsInteger(b)
    ensures IsInteger(a + b) && IsInteger(a - b)
  {
    var i, j := a.Floor, b.Floor;
    assert i as real + j as real == (i + j) as real && i as real - j as real == (i - j) as real;
    assert ((i + j) as real).Floor == i + j && ((i - j) as real).Floor == i - j;
  }

  lemma WholeCents(ms: seq<Milestone>, total: real)
    requires IsInteger(total)
    ensures forall i :: 0 <= i < |ms| ==> IsInteger(Amounts(ms, total)[i])
  {
    var raw := RawAmounts(ms, total);
    TotalIsInteger(ms, raw, IsCounted);
    WholeSum(total, CountedTotal(ms, raw));
    var k := ResidualIndex(ms);
    if k >= 0 {
      WholeSum(raw[k], Residual(ms, total));
    }
  }

  /** Everything `Amounts` reads of a milestone; a recalculation changes none of it. */
  predicate SameTerms(a: Milestone, b: Milestone) {
    && a.id == b.id && a.amountType == b.amountType && a.amountValue == b.amountValue
    && a.isExcluded == b.isExcluded && a.sortOrder == b.sortOrder
  }

  predicate SameSchedule(a: seq<Milestone>, b: seq<Milestone>) {
    |a| == |b| && forall i :: 0 <= i < |a| ==> SameTerms(a[i], b[i])
  }

  lemma {:induction false} SameTotals(a: seq<Milestone>, b: seq<Milestone>, cents: seq<real>)
    requires SameSchedule(a, b) && |cents| == |a|
    ensures CountedTotal(a, cents) == CountedTotal(b, cents)
    ensures FixedTotal(a, cents) == FixedTotal(b, cents)
    ensures TotalOf(a, cents, IsPercentShare) == TotalOf(b, cents, IsPercentShare)
    ensures ResidualIndex(a) == ResidualIndex(b)
  {
    if a != [] {
      var n := |a| - 1;
      SameTotals(a[..n], b[..n], cents[..n]);
    }
  }

  lemma SameRawAmounts(a: seq<Milestone>, b: seq<Milestone>, total: real)
    requires SameSchedule(a, b)
    ensures RawAmounts(a, total) == RawAmounts(b, total) && Values(a) == Values(b)
  {
    forall i | 0 <= i < |a| ensures RawAmounts(a, total)[i] == RawAmounts(b, total)[i] && Values(a)[i] == Values(b)[i] {
      assert SameTerms(a[i], b[i]);
    }
  }

  /** The calculator does not look at the stored amounts. */
  lemma AmountsIgnoreStored(a: seq<Milestone>, b: seq<Milestone>, total: real)
    requires SameSchedule(a, b)
    ensures Amounts(a, total) == Amounts(b, total)
    ensures HasPercent(a) == HasPercent(b) && PercentTotal(a) == PercentTotal(b)
  {
    SameRawAmounts(a, b, total);
    SameTotals(a, b, RawAmounts(a, total));
    SameTotals(a, b, Values(a));
    SameHasPercent(a, b);
  }

  lemma SameHasPercent(a: seq<Milestone>, b: seq<Milestone>)
    requires ResidualIndex(a) == ResidualIndex(b)
    ensures HasPercent(a) == HasPercent(b)
  {
  }
}
