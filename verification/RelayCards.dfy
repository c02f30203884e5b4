/** From a day's extracted facts to a drift signal (src/persistence/driftAdapter.ts) and from
    drift signals to relay cards (src/persistence/relayCardSurfacer.ts).  Times are integer
    milliseconds. */
module RelayCards {
  import opened Sequences

  const DAY := 24 * 60 * 60 * 1000
  const CAP := 3

  datatype Facts = Facts(behind: bool, moneyRisks: seq<string>, scopeChanges: seq<string>,
                         clientDecisions: seq<string>, blockedWork: seq<string>, newTasks: seq<string>)

  datatype Severity = Info | Caution | Warn | Block

  /** One sentence of the description, with the (at most three) items it lists. */
  datatype Part =
    | SlippingAndShifting
    | Behind
    | MoneyRisk(items: seq<string>)
    | ScopeChange(items: seq<string>)
    | ClientDecision(items: seq<string>)
    | BlockedWork(items: seq<string>)
    | NewTasks(items: seq<string>)

  datatype Classification = Classification(severity: Severity, parts: seq<Part>)

  // ---------------------------------------------------------------- drift

  function Capped(items: seq<string>): seq<string> { if |items| <= CAP then items else items[..CAP] }

  predicate Shifting(f: Facts) { f.moneyRisks != [] || f.scopeChanges != [] }

  /** The severity of a day: the highest rule that fires. */
  function SeverityOf(f: Facts): Option<Severity> {
    if f.behind && Shifting(f) then Some(Block)
    else if f.behind || f.moneyRisks != [] then Some(Warn)
    else if f.scopeChanges != [] || f.clientDecisions != [] || f.blockedWork != [] then Some(Caution)
    else if f.newTasks != [] then Some(Info)
    else None
  }

  /** The rules a description of that severity reports, in order of precedence. */
  function Reported(f: Facts, s: Severity): seq<Part> {
    var money := if f.moneyRisks != [] then [MoneyRisk(Capped(f.moneyRisks))] else [];
    var scope := if f.scopeChanges != [] then [ScopeChange(Capped(f.scopeChanges))] else [];
    match s
    case Block => [SlippingAndShifting] + money + scope
    case Warn => (if f.behind then [Behind] else []) + money
    case Caution =>
      scope + (if f.clientDecisions != [] then [ClientDecision(Capped(f.clientDecisions))] else [])
      + (if f.blockedWork != [] then [BlockedWork(Capped(f.blockedWork))] else [])
    case Info => [NewTasks(Capped(f.newTasks))]
  }

  method ClassifyDailyLogDrift(f: Facts) returns (r: Option<Classification>)
    ensures r.None? <==> SeverityOf(f).None?
    ensures r.Some? ==> Some(r.value.severity) == SeverityOf(f) && r.value.parts == Reported(f, r.value.severity)
    ensures r.Some? ==> r.value.parts != []
  {
    var parts: seq<Part> := [];
    if f.behind && (|f.moneyRisks| > 0 || |f.scopeChanges| > 0) {
      parts := parts + [SlippingAndShifting];
      if |f.moneyRisks| > 0 {
        parts := parts + [MoneyRisk(Capped(f.moneyRisks))];
      }
      if |f.scopeChanges| > 0 {
        parts := parts + [ScopeChange(Capped(f.scopeChanges))];
      }
      return Some(Classification(Block, parts));
    }
    if f.behind {
      parts := parts + [Behind];
    }
    if |f.moneyRisks| > 0 {
      parts := parts + [MoneyRisk(Capped(f.moneyRisks))];
    }
    if |parts| > 0 {
      return Some(Classification(Warn, parts));
    }
    if |f.scopeChanges| > 0 {
      parts := parts + [ScopeChange(Capped(f.scopeChanges))];
    }
    if |f.clientDecisions| > 0 {
      parts := parts + [ClientDecision(Capped(f.clientDecisions))];
    }
    if |f.blockedWork| > 0 {
      parts := parts + [BlockedWork(Capped(f.blockedWork))];
    }
    if |parts| > 0 {
      return Some(Classification(Caution, parts));
    }
    if |f.newTasks| > 0 {
      return Some(Classification(Info, [NewTasks(Capped(f.newTasks))]));
    }
    r := None;
  }

  // ---------------------------------------------------------------- surfacing

  /** A drift signal, with the facts it came from and the time it is processed. */
  datatype Drift = Drift(entry: string, severity: Severity, facts: Facts, now: int)

  datatype Reason = BlockAlways | WarnFirstIn24h | CautionWithDecision | CautionWithScope

  /** A surfaced card; `cause` is the severity of the drift that surfaced it. */
  datatype Card = Card(entry: string, at: int, cause: Severity)

  /** A card for the entry that is not yet older than 24 hours. */
  predicate HasRecent(history: seq<Card>, entry: string, now: int) {
    exists c :: c in history && c.entry == entry && c.at >= now - DAY
  }

  function ClassifySurfacing(d: Drift, history: seq<Card>): Option<Reason> {
    match d.severity
    case Block => Some(BlockAlways)
    case Warn => if HasRecent(history, d.entry, d.now) then None else Some(WarnFirstIn24h)
    case Caution =>
      if d.facts.clientDecisions != [] then Some(CautionWithDecision)
      else if d.facts.scopeChanges != [] then Some(CautionWithScope)
      else None
    case Info => None
  }

  /** `runRelayCardSurfacingPlay` */
  function Play(d: Drift, history: seq<Card>): Option<Card> {
    if ClassifySurfacing(d, history).None? then None else Some(Card(d.entry, d.now, d.severity))
  }

  /** The cards after processing drifts one after another, each seeing all earlier cards. */
  function Surface(history: seq<Card>, drifts: seq<Drift>): (cards: seq<Card>)
    ensures |cards| >= |history| && cards[..|history|] == history
  {
    if drifts == [] then history
    else
      var n := |drifts| - 1;
      var before := Surface(history, drifts[..n]);
      var card := Play(drifts[n], before);
      if card.Some? then before + [card.value] else before
  }

  /** From facts to card: which days reach the office. */
  lemma DayReachesOffice(f: Facts, entry: string, history: seq<Card>, now: int)
    ensures (SeverityOf(f).Some? && Play(Drift(entry, SeverityOf(f).value, f, now), history).Some?) <==>
      || (f.behind && Shifting(f))
      || ((f.behind || f.moneyRisks != []) && !HasRecent(history, entry, now))
      || (!f.behind && f.moneyRisks == [] && (f.scopeChanges != [] || f.clientDecisions != []))
  {
  }

  // ---------------------------------------------------------------- whole runs

  /** A warn-caused card comes more than 24 hours after every earlier card of its entry. */
  ghost predicate Spaced(cards: seq<Card>, from: nat) {
    forall i, j :: 0 <= i < j < |cards| && from <= j && cards[j].cause == Warn && cards[i].entry == cards[j].entry ==>
      cards[j].at - cards[i].at > DAY
  }

  /** ... in every run, whatever the clock does, and whatever cards were there before. */
  lemma {:induction false} WarnCardsAreSpaced(history: seq<Card>, drifts: seq<Drift>)
    ensures Spaced(Surface(history, drifts), |history|)
  {
    if drifts != [] {
      var n := |drifts| - 1;
      WarnCardsAreSpaced(history, drifts[..n]);
      var before, d := Surface(history, drifts[..n]), drifts[n];
      var cards := Surface(history, drifts);
      if Play(d, before).Some? && d.severity == Warn {
        forall i | 0 <= i < |before| && before[i].entry == d.entry ensures d.now - before[i].at > DAY {
          assert before[i] in before;
        }
      }
    }
  }

  function WarnIn(entry: string, lo: int, hi: int): Card -> bool {
    (c: Card) => c.entry == entry && c.cause == Warn && lo <= c.at <= hi
  }

  const SPACING := DAY + 1

  /** Consecutive elements are at least `SPACING` apart. */
  ghost predicate Ladder(cards: seq<Card>) {
    forall i, j :: 0 <= i < j < |cards| ==> cards[j].at - cards[i].at >= SPACING
  }

  lemma {:induction false} FilterIsLadder(cards: seq<Card>, entry: string, lo: int, hi: int)
    requires Spaced(cards, 0)
    ensures Ladder(Filter(cards, WarnIn(entry, lo, hi)))
  {
    if cards != [] {
      var n := |cards| - 1;
      var rest, last := cards[..n], cards[n];
      assert Spaced(rest, 0);
      FilterIsLadder(rest, entry, lo, hi);
      assert cards == rest + [last];
      FilterStep(rest, last, WarnIn(entry, lo, hi));
      if WarnIn(entry, lo, hi)(last) {
        LadderStep(rest, last, entry, lo, hi);
      }
    }
  }

  lemma FilterStep(rest: seq<Card>, last: Card, keep: Card -> bool)
    ensures Filter(rest + [last], keep) == if keep(last) then Filter(rest, keep) + [last] else Filter(rest, keep)
  {
    FilterConcat(rest, [last], keep);
    assert [last][1..] == [];
  }

  lemma LadderStep(rest: seq<Card>, last: Card, entry: string, lo: int, hi: int)
    requires Spaced(rest + [last], 0) && WarnIn(entry, lo, hi)(last)
    requires Ladder(Filter(rest, WarnIn(entry, lo, hi)))
    ensures Ladder(Filter(rest, WarnIn(entry, lo, hi)) + [last])
  {
    var f := Filter(rest, WarnIn(entry, lo, hi));
    SpacedLast(rest, last);
    assert forall c :: c in f ==> c in rest && c.entry == last.entry;
    LadderAppend(f, last);
  }

  lemma SpacedLast(rest: seq<Card>, last: Card)
    requires Spaced(rest + [last], 0) && last.cause == Warn
    ensures forall c :: c in rest && c.entry == last.entry ==> last.at - c.at >= SPACING
  {
    var cards := rest + [last];
    forall c | c in rest && c.entry == last.entry ensures last.at - c.at >= SPACING {
      var k :| 0 <= k < |rest| && rest[k] == c;
      assert cards[k] == c && cards[|rest|] == last;
    }
  }

  lemma LadderAppend(f: seq<Card>, last: Card)
    requires Ladder(f) && forall c :: c in f ==> last.at - c.at >= SPACING
    ensures Ladder(f + [last])
  {
  }

  lemma {:induction false} LadderClimbs(cards: seq<Card>)
    requires Ladder(cards) && cards != []
    ensures cards[|cards| - 1].at - cards[0].at >= (|cards| - 1) * SPACING
  {
    var n := |cards| - 1;
    if n > 0 {
      LadderClimbs(cards[..n]);
      assert cards[n].at - cards[n - 1].at >= SPACING;
    }
  }

  /** A window of `w` milliseconds holds at most `1 + w / 86400001` warn-caused cards per entry. */
  lemma WarnCardsPerWindow(drifts: seq<Drift>, entry: string, lo: int, w: nat)
    ensures |Filter(Surface([], drifts), WarnIn(entry, lo, lo + w))| <= 1 + w / SPACING
  {
    WarnCardsAreSpaced([], drifts);
    var cards := Surface([], drifts);
    FilterIsLadder(cards, entry, lo, lo + w);
    var f := Filter(cards, WarnIn(entry, lo, lo + w));
    if f != [] {
      LadderFits(f, lo, w);
    }
  }

  lemma LadderFits(f: seq<Card>, lo: int, w: nat)
    requires Ladder(f) && f != [] && forall c :: c in f ==> lo <= c.at <= lo + w
    ensures |f| <= 1 + w / SPACING
  {
    LadderClimbs(f);
    assert f[0] in f && f[|f| - 1] in f;
    DivideBound(|f| - 1, w);
  }

  lemma DivideBound(n: nat, w: nat)
    requires n * SPACING <= w
    ensures n <= w / SPACING
  {
  }

  /** The bound is reached: drifts exactly 24 hours and a millisecond apart all surface. */
  lemma WindowBoundIsTight(f: Facts, entry: string)
    ensures |Surface([], [Drift(entry, Warn, f, 0), Drift(entry, Warn, f, SPACING)])| == 2
    ensures |Surface([], [Drift(entry, Warn, f, 0), Drift(entry, Warn, f, DAY)])| == 1
  {
    var a, b, c := Drift(entry, Warn, f, 0), Drift(entry, Warn, f, SPACING), Drift(entry, Warn, f, DAY);
    assert [a][..0] == [] && [a, b][..1] == [a] && [a, c][..1] == [a];
    var one := [Card(entry, 0, Warn)];
    assert Surface([], [a]) == one;
    assert one[0] in one;
  }

  predicate Ordered(drifts: seq<Drift>) {
    forall i, j :: 0 <= i < j < |drifts| ==> drifts[i].now <= drifts[j].now
  }

  lemma {:induction false} CardsAreNotInTheFuture(drifts: seq<Drift>, now: int)
    requires forall d :: d in drifts ==> d.now <= now
    ensures forall c :: c in Surface([], drifts) ==> c.at <= now
  {
    if drifts != [] {
      var n := |drifts| - 1;
      assert drifts[n] in drifts;
      CardsAreNotInTheFuture(drifts[..n], now);
    }
  }

  /** Once a warn or block drift has been processed there is a card for its entry dated within
      the last 24 hours: the new one, or the one that suppressed it. */
  lemma SeriousDriftIsCovered(drifts: seq<Drift>, k: nat)
    requires Ordered(drifts) && k < |drifts| && drifts[k].severity in {Warn, Block}
    ensures exists c :: (c in Surface([], drifts[..k + 1]) && c.entry == drifts[k].entry
                         && drifts[k].now - DAY <= c.at <= drifts[k].now)
  {
    var d, before := drifts[k], Surface([], drifts[..k]);
    assert drifts[..k + 1][..k] == drifts[..k];
    var cards := Surface([], drifts[..k + 1]);
    CardsAreNotInTheFuture(drifts[..k], d.now);
    if Play(d, before).Some? {
      assert cards[|cards| - 1] in cards;
    } else {
      var c :| c in before && c.entry == d.entry && c.at >= d.now - DAY;
      assert c in cards;
    }
  }

  // ---------------------------------------------------------------- what a day and a drift say

  /** How grave a day is. */
  lemma SeverityMeans(f: Facts)
    ensures var money, scope := |f.moneyRisks| > 0, |f.scopeChanges| > 0;
      && (SeverityOf(f) == Some(Block) <==> f.behind && (money || scope))
      && (SeverityOf(f) == Some(Warn) <==> (f.behind && !money && !scope) || (!f.behind && money))
      && (SeverityOf(f) == Some(Caution) <==>
            !f.behind && !money && (scope || |f.clientDecisions| > 0 || |f.blockedWork| > 0))
      && (SeverityOf(f) == Some(Info) <==>
            !f.behind && !money && !scope && |f.clientDecisions| == 0 && |f.blockedWork| == 0 && |f.newTasks| > 0)
  {
  }

  /** The first items of a list, three at most. */
  predicate FirstThree(items: seq<string>, of: seq<string>) {
    items <= of && |items| == if |of| < 3 then |of| else 3
  }

  /** Which sentences a description of severity `s` holds. */
  predicate Tells(f: Facts, s: Severity, part: Part) {
    match part
    case SlippingAndShifting => s == Block
    case Behind => s == Warn && f.behind
    case MoneyRisk(items) => (s == Block || s == Warn) && |f.moneyRisks| > 0 && FirstThree(items, f.moneyRisks)
    case ScopeChange(items) => (s == Block || s == Caution) && |f.scopeChanges| > 0 && FirstThree(items, f.scopeChanges)
    case ClientDecision(items) => s == Caution && |f.clientDecisions| > 0 && FirstThree(items, f.clientDecisions)
    case BlockedWork(items) => s == Caution && |f.blockedWork| > 0 && FirstThree(items, f.blockedWork)
    case NewTasks(items) => s == Info && FirstThree(items, f.newTasks)
  }

  function Place(part: Part): nat {
    match part
    case SlippingAndShifting => 0
    case Behind => 0
    case MoneyRisk(_) => 1
    case ScopeChange(_) => 2
    case ClientDecision(_) => 3
    case BlockedWork(_) => 4
    case NewTasks(_) => 5
  }

  lemma CappedIsFirstThree(items: seq<string>, of: seq<string>)
    ensures FirstThree(items, of) <==> items == Capped(of)
  {
    if FirstThree(items, of) {
      assert items == of[..|items|];
    }
  }

  /** A description holds exactly the sentences of its severity, ... */
  lemma ReportedMeans(f: Facts, s: Severity, part: Part)
    ensures part in Reported(f, s) <==> Tells(f, s, part)
  {
    match part
    case MoneyRisk(items) => CappedIsFirstThree(items, f.moneyRisks);
    case ScopeChange(items) => CappedIsFirstThree(items, f.scopeChanges);
    case ClientDecision(items) => CappedIsFirstThree(items, f.clientDecisions);
    case BlockedWork(items) => CappedIsFirstThree(items, f.blockedWork);
    case NewTasks(items) => CappedIsFirstThree(items, f.newTasks);
    case _ =>
  }

  /** The parts stand in the order of their kinds, each kind once. */
  predicate InPlaces(parts: seq<Part>) { forall i, j :: 0 <= i < j < |parts| ==> Place(parts[i]) < Place(parts[j]) }

  lemma AppendInPlace(parts: seq<Part>, more: seq<Part>)
    requires InPlaces(parts) && |more| <= 1
    requires forall a, b :: a in parts && b in more ==> Place(a) < Place(b)
    ensures InPlaces(parts + more)
  {
  }

  /** ... each once and in order. */
  lemma ReportedInOrder(f: Facts, s: Severity)
    ensures InPlaces(Reported(f, s))
  {
    var money := if f.moneyRisks != [] then [MoneyRisk(Capped(f.moneyRisks))] else [];
    var scope := if f.scopeChanges != [] then [ScopeChange(Capped(f.scopeChanges))] else [];
    var client := if f.clientDecisions != [] then [ClientDecision(Capped(f.clientDecisions))] else [];
    var blocked := if f.blockedWork != [] then [BlockedWork(Capped(f.blockedWork))] else [];
    match s
    case Block =>
      AppendInPlace([SlippingAndShifting], money);
      AppendInPlace([SlippingAndShifting] + money, scope);
    case Warn =>
      AppendInPlace(if f.behind then [Behind] else [], money);
    case Caution =>
      AppendInPlace(scope, client);
      AppendInPlace(scope + client, blocked);
    case Info =>
  }

  /** Why a drift surfaces, and the card it leaves. */
  lemma SurfacingMeans(d: Drift, history: seq<Card>)
    ensures var recent := exists c :: c in history && c.entry == d.entry && d.now - c.at <= 86400000;
      var decision, scope := |d.facts.clientDecisions| > 0, |d.facts.scopeChanges| > 0;
      && (ClassifySurfacing(d, history) == Some(BlockAlways) <==> d.severity == Block)
      && (ClassifySurfacing(d, history) == Some(WarnFirstIn24h) <==> d.severity == Warn && !recent)
      && (ClassifySurfacing(d, history) == Some(CautionWithDecision) <==> d.severity == Caution && decision)
      && (ClassifySurfacing(d, history) == Some(CautionWithScope) <==> d.severity == Caution && !decision && scope)
    ensures ClassifySurfacing(d, history).Some? <==> Play(d, history).Some?
    ensures Play(d, history).Some? ==>
      var c := Play(d, history).value; c.entry == d.entry && c.at == d.now && c.cause == d.severity
  {
  }
}
