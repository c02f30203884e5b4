/** Payment schedules (src/payments/paymentMilestones.ts): the amount calculator, which
    pushes the rounding residual of the percent shares onto one milestone.  Numbers are `real`. */
module PaymentMilestones {
  import opened Sequences
  import opened Rounding

  const PERCENT_TOTAL := 100.0
  const EPSILON := 0.000001

  datatype ParentKind = ProposalBundle | Contract | ChangeOrder | PaymentRequest | InvoiceSchedule
  datatype TriggerKind = AtSignature | CalendarDate | ScopeEvent | CompletionPct | DaysPostEvent | Custom
  datatype AmountType = PercentOfContract | FixedDollars

  datatype Milestone = Milestone(
    id: string, bundleId: string, parentKind: ParentKind, sortOrder: real, name: string,
    triggerKind: TriggerKind, amountType: AmountType, amountValue: real, computedAmountCents: real,
    isExcluded: bool, requiresAcknowledgment: bool, lastRecalculatedAt: Option<string>)

  datatype ComputedAmount = ComputedAmount(
    id: string, amountType: AmountType, amountValue: real, computedAmountCents: real,
    previousComputedAmountCents: real, isExcluded: bool, changed: bool)

  // ---------------------------------------------------------------- arithmetic

  predicate IsInteger(x: real) { x == x.Floor as real }

  predicate IsValidCents(x: real) { IsInteger(x) && x >= 0.0 }

  predicate NearlyEqual(a: real, b: real) { -EPSILON <= a - b <= EPSILON }

  predicate HasCentPrecision(x: real) { NearlyEqual(x * 100.0, Round(x * 100.0) as real) }

  // ---------------------------------------------------------------- what a schedule computes

  predicate IsPercentShare(m: Milestone) { !m.isExcluded && m.amountType == PercentOfContract }

  predicate IsFixedShare(m: Milestone) { !m.isExcluded && m.amountType == FixedDollars }

  function Share(total: real, percent: real): real { total * (percent / 100.0) }

  /** The amount of one milestone by itself. */
  function RawAmount(m: Milestone, total: real): (r: real)
    ensures IsInteger(r)
  {
    match m.amountType
    case PercentOfContract => Round(Share(total, m.amountValue)) as real
    case FixedDollars => Round(m.amountValue * 100.0) as real
  }

  function RawAmounts(ms: seq<Milestone>, total: real): (r: seq<real>)
    ensures |r| == |ms| && forall i :: 0 <= i < |ms| ==> r[i] == RawAmount(ms[i], total)
  {
    seq(|ms|, i requires 0 <= i < |ms| => RawAmount(ms[i], total))
  }

  /** The sum of `cents[i]` over the milestones that `count`. */
  function TotalOf(ms: seq<Milestone>, cents: seq<real>, count: Milestone -> bool): real
    requires |ms| == |cents|
  {
    if ms == [] then 0.0
    else
      var n := |ms| - 1;
      TotalOf(ms[..n], cents[..n], count) + if count(ms[n]) then cents[n] else 0.0
  }

  predicate IsCounted(m: Milestone) { !m.isExcluded }

  function CountedTotal(ms: seq<Milestone>, cents: seq<real>): real
    requires |ms| == |cents|
  {
    TotalOf(ms, cents, IsCounted)
  }

  function FixedTotal(ms: seq<Milestone>, cents: seq<real>): real
    requires |ms| == |cents|
  {
    TotalOf(ms, cents, IsFixedShare)
  }

  function Values(ms: seq<Milestone>): (r: seq<real>)
    ensures |r| == |ms| && forall i :: 0 <= i < |ms| ==> r[i] == ms[i].amountValue
  {
    seq(|ms|, i requires 0 <= i < |ms| => ms[i].amountValue)
  }

  function PercentTotal(ms: seq<Milestone>): real {
    TotalOf(ms, Values(ms), IsPercentShare)
  }

  function PercentCount(ms: seq<Milestone>): (n: nat)
    ensures n > 0 <==> HasPercent(ms)
  {
    if ms == [] then 0
    else
      assert ms == ms[..|ms| - 1] + [ms[|ms| - 1]];
      PercentCount(ms[..|ms| - 1]) + if IsPercentShare(ms[|ms| - 1]) then 1 else 0
  }

  predicate HasPercent(ms: seq<Milestone>) { exists m :: m in ms && IsPercentShare(m) }

  /** Which milestone takes the residual: the percent share with the greatest sort order,
      the latest in the input when several share it. */
  function ResidualIndex(ms: seq<Milestone>): (k: int)
    ensures -1 <= k < |ms|
    ensures k == -1 <==> !HasPercent(ms)
    ensures k >= 0 ==> LatestMax(ms, IsPercentShare, SortOrder, k)
  {
    if ms == [] then -1
    else
      var n := |ms| - 1;
      var k := ResidualIndex(ms[..n]);
      assert ms == ms[..n] + [ms[n]];
      if IsPercentShare(ms[n]) && (k == -1 || ms[n].sortOrder >= ms[k].sortOrder) then n else k
  }

  function SortOrder(m: Milestone): real { m.sortOrder }

  predicate Reconciles(ms: seq<Milestone>, total: real) {
    && HasPercent(ms)
    && FixedTotal(ms, RawAmounts(ms, total)) == 0.0
    && NearlyEqual(PercentTotal(ms), PERCENT_TOTAL)
  }

  function Residual(ms: seq<Milestone>, total: real): real {
    total - CountedTotal(ms, RawAmounts(ms, total))
  }

  /** The cents of every milestone, in input order. */
  function Amounts(ms: seq<Milestone>, total: real): (r: seq<real>)
    ensures |r| == |ms|
  {
    var raw := RawAmounts(ms, total);
    var k := ResidualIndex(ms);
    if Reconciles(ms, total) then raw[k := raw[k] + Residual(ms, total)] else raw
  }

  function Computed(m: Milestone, cents: real): ComputedAmount {
    ComputedAmount(m.id, m.amountType, m.amountValue, cents, m.computedAmountCents, m.isExcluded,
                   cents != m.computedAmountCents)
  }

  function ComputedAmounts(ms: seq<Milestone>, total: real): (r: seq<ComputedAmount>)
    ensures |r| == |ms|
    ensures forall i :: 0 <= i < |ms| ==> r[i] == Computed(ms[i], Amounts(ms, total)[i])
  {
    var cents := Amounts(ms, total);
    seq(|ms|, i requires 0 <= i < |ms| => Computed(ms[i], cents[i]))
  }

  /** `cents` is the whole number nearest to `exact`, the greater one of two. */
  predicate NearestCent(exact: real, cents: real) { cents.Floor as real == cents && exact - 0.5 < cents <= exact + 0.5 }

  /** Milestone `i` is the one that takes a residual: a percent milestone that is not excluded, none
      of which has a greater sort order, and none behind it the same. */
  predicate TakesResidual(ms: seq<Milestone>, i: nat)
    requires i < |ms|
  {
    && !ms[i].isExcluded && ms[i].amountType == PercentOfContract
    && forall j :: 0 <= j < |ms| && !ms[j].isExcluded && ms[j].amountType == PercentOfContract ==>
         ms[j].sortOrder < ms[i].sortOrder || (ms[j].sortOrder == ms[i].sortOrder && j <= i)
  }

  /** Every amount but the one that takes the residual is the nearest cent to what its milestone says. */
  lemma AmountsAreNearest(ms: seq<Milestone>, total: real)
    ensures forall i :: 0 <= i < |ms| && ms[i].amountType == FixedDollars ==>
      NearestCent(100.0 * ms[i].amountValue, Amounts(ms, total)[i])
    ensures forall i :: 0 <= i < |ms| && ms[i].amountType == PercentOfContract && !TakesResidual(ms, i) ==>
      NearestCent(total * (ms[i].amountValue / 100.0), Amounts(ms, total)[i])
    ensures forall i :: 0 <= i < |ms| && ms[i].amountType == PercentOfContract && !Reconciles(ms, total) ==>
      NearestCent(total * (ms[i].amountValue / 100.0), Amounts(ms, total)[i])
  {
    forall i | 0 <= i < |ms| ensures NearestCent(ExactCents(ms[i], total), RawAmounts(ms, total)[i]) {
    }
    if HasPercent(ms) {
      assert TakesResidual(ms, ResidualIndex(ms));
    }
  }

  function ExactCents(m: Milestone, total: real): real {
    if m.amountType == FixedDollars then 100.0 * m.amountValue else total * (m.amountValue / 100.0)
  }

  // ---------------------------------------------------------------- the calculator

  /** The calculator's scratch record, shared between the list and its sorted view. */
  class Expected {
    const milestone: Milestone
    var cents: real

    constructor (m: Milestone, c: real)
      ensures milestone == m && cents == c
    {
      milestone, cents := m, c;
    }
  }

  predicate EntryIsPercent(e: Expected) { IsPercentShare(e.milestone) }

  function EntryOrder(e: Expected): real { e.milestone.sortOrder }

  /** The scratch records: one per milestone, in input order, all distinct. */
  ghost predicate Entries(ms: seq<Milestone>, es: seq<Expected>) {
    && |es| == |ms|
    && (forall j :: 0 <= j < |ms| ==> es[j].milestone == ms[j])
    && (forall j, k :: 0 <= j < k < |es| ==> es[j] != es[k])
  }

  method RawEntries(ms: seq<Milestone>, total: real) returns (es: seq<Expected>)
    ensures Entries(ms, es)
    ensures forall j :: 0 <= j < |es| ==> fresh(es[j]) && es[j].cents == RawAmount(ms[j], total)
  {
    es := [];
    for i := 0 to |ms|
      invariant Entries(ms[..i], es)
      invariant forall j :: 0 <= j < i ==> fresh(es[j]) && es[j].cents == RawAmount(ms[j], total)
    {
      var e := new Expected(ms[i], RawAmount(ms[i], total));
      es := es + [e];
    }
    assert ms[..|ms|] == ms;
  }

  method TotalsOf(es: seq<Expected>, ghost ms: seq<Milestone>, ghost cents: seq<real>)
    returns (fixedTotal: real, countedTotal: real)
    requires |cents| == |ms| && Entries(ms, es) && forall j :: 0 <= j < |es| ==> es[j].cents == cents[j]
    ensures fixedTotal == FixedTotal(ms, cents) && countedTotal == CountedTotal(ms, cents)
  {
    fixedTotal, countedTotal := 0.0, 0.0;
    for i := 0 to |es|
      invariant fixedTotal == FixedTotal(ms[..i], cents[..i]) && countedTotal == CountedTotal(ms[..i], cents[..i])
    {
      assert ms[..i + 1][..i] == ms[..i] && cents[..i + 1][..i] == cents[..i];
      if !es[i].milestone.isExcluded {
        countedTotal := countedTotal + es[i].cents;
        if es[i].milestone.amountType == FixedDollars {
          fixedTotal := fixedTotal + es[i].cents;
        }
      }
    }
    assert ms[..|ms|] == ms && cents[..|ms|] == cents;
  }

  lemma AmountsAre(ms: seq<Milestone>, total: real)
    ensures var raw, k := RawAmounts(ms, total), ResidualIndex(ms);
      Amounts(ms, total) ==
        if Reconciles(ms, total) && Residual(ms, total) != 0.0 then raw[k := raw[k] + Residual(ms, total)] else raw
  {
  }

  /** What is reported of milestone `i`: its own terms, and the cents nearest to what it says
      unless it takes the residual. */
  predicate Explains(ms: seq<Milestone>, total: real, i: nat, r: ComputedAmount)
    requires i < |ms|
  {
    var m := ms[i];
    && r.id == m.id && r.amountType == m.amountType && r.amountValue == m.amountValue && r.isExcluded == m.isExcluded
    && r.previousComputedAmountCents == m.computedAmountCents && (r.changed <==> r.computedAmountCents != m.computedAmountCents)
    && (m.amountType == FixedDollars ==> NearestCent(100.0 * m.amountValue, r.computedAmountCents))
    && (m.amountType == PercentOfContract && !TakesResidual(ms, i) ==>
          NearestCent(total * (m.amountValue / 100.0), r.computedAmountCents))
  }

  method ComputePaymentScheduleAmounts(ms: seq<Milestone>, total: real) returns (out: seq<ComputedAmount>)
    ensures out == ComputedAmounts(ms, total)
    ensures |out| == |ms| && forall i :: 0 <= i < |ms| ==> Explains(ms, total, i, out[i])
  {
    var expected := RawEntries(ms, total);
    Reconcile(expected, ms, total);
    out := Publish(expected, ms, Amounts(ms, total));
    AmountsAreNearest(ms, total);
  }

  /** The residual goes to the last record of the sorted view, and so to one of the list. */
  method Reconcile(expected: seq<Expected>, ghost ms: seq<Milestone>, total: real)
    requires Entries(ms, expected) && forall j :: 0 <= j < |expected| ==> expected[j].cents == RawAmounts(ms, total)[j]
    modifies set e | e in expected
    ensures forall j :: 0 <= j < |expected| ==> expected[j].cents == Amounts(ms, total)[j]
  {
    ghost var raw := RawAmounts(ms, total);
    var fixedTotal, countedTotal := TotalsOf(expected, ms, raw);
    var percentMilestones, percentTotal := PercentView(expected, ms);
    AmountsAre(ms, total);
    if |percentMilestones| > 0 && fixedTotal == 0.0 && NearlyEqual(percentTotal, PERCENT_TOTAL) {
      var residual := total - countedTotal;
      if residual != 0.0 {
        PushResidual(percentMilestones[|percentMilestones| - 1], residual, expected, ms, raw, ResidualIndex(ms));
      }
    }
  }

  /** The filtered and sorted view of the list: it ends with the record that takes the residual. */
  method PercentView(es: seq<Expected>, ghost ms: seq<Milestone>) returns (view: seq<Expected>, percentTotal: real)
    requires Entries(ms, es)
    ensures view == [] <==> !HasPercent(ms)
    ensures view != [] ==> view[|view| - 1] == es[ResidualIndex(ms)]
    ensures percentTotal == PercentTotal(ms)
  {
    view := StableSort(Filter(es, EntryIsPercent), By(EntryOrder));
    percentTotal := SumValues(view);
    PercentTotalOfEntries(ms, es);
    if HasPercent(ms) {
      LastEntry(ms, es);
    }
  }

  /** Changing the record that the sorted view ends with changes that record of the list. */
  method PushResidual(last: Expected, residual: real, ghost es: seq<Expected>, ghost ms: seq<Milestone>, ghost raw: seq<real>, ghost k: nat)
    requires |raw| == |ms| && Entries(ms, es) && k < |es| && es[k] == last
    requires forall j :: 0 <= j < |es| ==> es[j].cents == raw[j]
    modifies last
    ensures forall j :: 0 <= j < |es| ==> es[j].cents == raw[k := raw[k] + residual][j]
  {
    last.cents := last.cents + residual;
  }

  method Publish(es: seq<Expected>, ghost ms: seq<Milestone>, ghost cents: seq<real>) returns (out: seq<ComputedAmount>)
    requires |cents| == |ms| && Entries(ms, es) && forall j :: 0 <= j < |es| ==> es[j].cents == cents[j]
    ensures |out| == |ms| && forall j :: 0 <= j < |ms| ==> out[j] == Computed(ms[j], cents[j])
  {
    out := [];
    for i := 0 to |es|
      invariant |out| == i
      invariant forall j :: 0 <= j < i ==> out[j] == Computed(ms[j], cents[j])
    {
      out := out + [Computed(es[i].milestone, es[i].cents)];
    }
  }

  function SumValues(es: seq<Expected>): real {
    if es == [] then 0.0 else es[0].milestone.amountValue + SumValues(es[1..])
  }

  lemma {:induction false} SumInsert(e: Expected, es: seq<Expected>)
    ensures SumValues(Insert(e, es, By(EntryOrder))) == e.milestone.amountValue + SumValues(es)
  {
    if es != [] && By(EntryOrder)(es[0], e) {
      SumInsert(e, es[1..]);
    }
  }

  lemma {:induction false} SumSort(es: seq<Expected>)
    ensures SumValues(StableSort(es, By(EntryOrder))) == SumValues(es)
  {
    if es != [] {
      SumSort(es[1..]);
      SumInsert(es[0], StableSort(es[1..], By(EntryOrder)));
    }
  }

  lemma {:induction false} SumConcat(a: seq<Expected>, b: seq<Expected>)
    ensures SumValues(a + b) == SumValues(a) + SumValues(b)
  {
    if a == [] {
      assert a + b == b;
    } else {
      assert (a + b)[1..] == a[1..] + b;
      SumConcat(a[1..], b);
    }
  }

  /** The percent total and emptiness of the sorted view are those of the schedule. */
  lemma PercentTotalOfEntries(ms: seq<Milestone>, es: seq<Expected>)
    requires |es| == |ms| && forall j :: 0 <= j < |ms| ==> es[j].milestone == ms[j]
    ensures SumValues(StableSort(Filter(es, EntryIsPercent), By(EntryOrder))) == PercentTotal(ms)
    ensures StableSort(Filter(es, EntryIsPercent), By(EntryOrder)) == [] <==> !HasPercent(ms)
  {
    SumSort(Filter(es, EntryIsPercent));
    SumFilter(ms, es);
    var f := Filter(es, EntryIsPercent);
    if f != [] {
      assert f[0] in es;
      var j :| 0 <= j < |es| && es[j] == f[0];
      assert ms[j] in ms;
    }
    if HasPercent(ms) {
      var j :| 0 <= j < |ms| && IsPercentShare(ms[j]);
      assert es[j] in es && es[j] in f;
    }
  }

  lemma PercentTotalGrows(ms: seq<Milestone>)
    requires ms != []
    ensures var n := |ms| - 1;
      PercentTotal(ms) == PercentTotal(ms[..n]) + if IsPercentShare(ms[n]) then ms[n].amountValue else 0.0
  {
    assert Values(ms)[..|ms| - 1] == Values(ms[..|ms| - 1]);
  }

  lemma SumFilter(ms: seq<Milestone>, es: seq<Expected>)
    requires |es| == |ms| && forall j :: 0 <= j < |ms| ==> es[j].milestone == ms[j]
    ensures SumValues(Filter(es, EntryIsPercent)) == PercentTotal(ms)
  {
    SumFilterUpTo(ms, es, |ms|);
    assert ms[..|ms|] == ms && es[..|ms|] == es;
  }

  lemma {:induction false} SumFilterUpTo(ms: seq<Milestone>, es: seq<Expected>, n: nat)
    requires n <= |es| == |ms| && forall j :: 0 <= j < |ms| ==> es[j].milestone == ms[j]
    ensures SumValues(Filter(es[..n], EntryIsPercent)) == PercentTotal(ms[..n])
  {
    if n > 0 {
      SumFilterUpTo(ms, es, n - 1);
      SumFilterStep(ms[..n - 1], ms[n - 1], es[..n - 1], es[n - 1]);
      assert es[..n] == es[..n - 1] + [es[n - 1]] && ms[..n] == ms[..n - 1] + [ms[n - 1]];
    }
  }

  lemma SumFilterStep(ms: seq<Milestone>, m: Milestone, es: seq<Expected>, e: Expected)
    requires SumValues(Filter(es, EntryIsPercent)) == PercentTotal(ms) && e.milestone == m
    ensures SumValues(Filter(es + [e], EntryIsPercent)) == PercentTotal(ms + [m])
  {
    SumFilterGrows(es, e);
    PercentTotalGrows(ms + [m]);
    assert (ms + [m])[..|ms|] == ms;
  }

  lemma SumFilterGrows(es: seq<Expected>, e: Expected)
    ensures SumValues(Filter(es + [e], EntryIsPercent)) ==
      SumValues(Filter(es, EntryIsPercent)) + if EntryIsPercent(e) then e.milestone.amountValue else 0.0
  {
    FilterConcat(es, [e], EntryIsPercent);
    assert [e][1..] == [];
    SumConcat(Filter(es, EntryIsPercent), Filter([e], EntryIsPercent));
  }

  /** Through the filter and the sort, the last element is the record at `ResidualIndex`. */
  lemma LastEntry(ms: seq<Milestone>, es: seq<Expected>)
    requires |es| == |ms| && forall j :: 0 <= j < |ms| ==> es[j].milestone == ms[j]
    requires HasPercent(ms)
    ensures var r := StableSort(Filter(es, EntryIsPercent), By(EntryOrder));
      |r| > 0 && r[|r| - 1] == es[ResidualIndex(ms)]
  {
    var k := ResidualIndex(ms);
    assert LatestMax(es, EntryIsPercent, EntryOrder, k);
    SortedFilterLast(es, EntryIsPercent, EntryOrder, k);
  }
}
