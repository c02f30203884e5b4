/** The home attention sections (src/attention/attentionArtifact.ts): one thing, on deck and
    pulse, filled greedily from live and fallback items without repeating an id. */
module Attention {
  import opened Sequences

  datatype Placement = OneThing | OnDeck | Pulse | InlineResult | ReviewPlacement

  datatype Item = Item(id: string, placement: Placement, priority: int, createdAt: Option<int>, needsUser: bool)

  datatype Sections = Sections(oneThing: Option<Item>, onDeck: seq<Item>, pulse: seq<Item>)

  /** How ids collate: `a.localeCompare(b) < 0`, a strict weak order. */
  type Collation = (string, string) -> bool

  ghost predicate Collates(before: Collation) {
    && (forall a :: !before(a, a))
    && (forall a, b, c :: before(a, c) ==> before(a, b) || before(b, c))
    && (forall a, b, c :: before(a, b) && before(b, c) ==> before(a, c))
  }

  function Created(i: Item): int { if i.createdAt.Some? then i.createdAt.value else 0 }

  /** `a` is shown before `b`: higher priority, then newer, then by id. */
  predicate Precedes(before: Collation, a: Item, b: Item) {
    if a.priority != b.priority then a.priority > b.priority
    else if Created(a) != Created(b) then Created(a) > Created(b)
    else before(a.id, b.id)
  }

  function Order(before: Collation): (Item, Item) -> bool { (a: Item, b: Item) => Precedes(before, a, b) }

  predicate HigherPriority(a: Item, b: Item) { a.priority > b.priority }

  function SortAttention(items: seq<Item>, before: Collation): seq<Item> { StableSort(items, Order(before)) }

  function HasPlacement(p: Placement): Item -> bool { (i: Item) => i.placement == p }

  function ForPlacement(items: seq<Item>, p: Placement): seq<Item> { StableSort(Filter(items, HasPlacement(p)), HigherPriority) }

  predicate NeedsUser(i: Item) { i.needsUser }

  // ---------------------------------------------------------------- the greedy specification

  function IdsOf(items: seq<Item>): set<string> { set i | i in items :: i.id }

  /** The items whose ids are new: not in `seen` and not of an earlier item. */
  function Fresh(items: seq<Item>, seen: set<string>): seq<Item> {
    if items == [] then []
    else if items[0].id in seen then Fresh(items[1..], seen)
    else [items[0]] + Fresh(items[1..], seen + {items[0].id})
  }

  function Take(items: seq<Item>, limit: int): (r: seq<Item>)
    ensures |r| <= |items|
    ensures limit >= 0 ==> |r| <= limit
  {
    if limit <= 0 then [] else if |items| <= limit then items else items[..limit]
  }

  /** A section: the first `limit` fresh items of the candidates. */
  function Section(candidates: seq<Item>, seen: set<string>, limit: int): seq<Item> { Take(Fresh(candidates, seen), limit) }

  function OptionIds(i: Option<Item>): set<string> { if i.Some? then {i.value.id} else {} }

  function OneThingOf(live: seq<Item>, fallback: seq<Item>, before: Collation): Option<Item> {
    var needing := SortAttention(Filter(live, NeedsUser), before);
    var placed := ForPlacement(fallback, OneThing);
    if needing != [] then Some(needing[0]) else if placed != [] then Some(placed[0]) else None
  }

  function DeckCandidates(live: seq<Item>, fallback: seq<Item>, before: Collation): seq<Item> {
    SortAttention(Filter(live, NeedsUser), before) + ForPlacement(fallback, OnDeck)
  }

  function PulseCandidates(live: seq<Item>, fallback: seq<Item>, before: Collation): seq<Item> {
    SortAttention(live, before) + ForPlacement(fallback, Pulse)
  }

  function Compose(live: seq<Item>, fallback: seq<Item>, onDeckLimit: int, pulseLimit: int, before: Collation): Sections {
    var oneThing := OneThingOf(live, fallback, before);
    var onDeck := Section(DeckCandidates(live, fallback, before), OptionIds(oneThing), onDeckLimit);
    Sections(oneThing, onDeck, Section(PulseCandidates(live, fallback, before), OptionIds(oneThing) + IdsOf(onDeck), pulseLimit))
  }

  // ---------------------------------------------------------------- the loop

  lemma {:induction false} FreshConcat(a: seq<Item>, b: seq<Item>, seen: set<string>)
    ensures Fresh(a + b, seen) == Fresh(a, seen) + Fresh(b, seen + IdsOf(Fresh(a, seen)))
  {
    if a == [] {
      assert a + b == b && seen + IdsOf([]) == seen;
    } else {
      assert (a + b)[0] == a[0] && (a + b)[1..] == a[1..] + b;
      if a[0].id in seen {
        FreshConcat(a[1..], b, seen);
      } else {
        FreshConcat(a[1..], b, seen + {a[0].id});
        var rest := Fresh(a[1..], seen + {a[0].id});
        assert IdsOf([a[0]] + rest) == {a[0].id} + IdsOf(rest);
        assert seen + IdsOf([a[0]] + rest) == seen + {a[0].id} + IdsOf(rest);
      }
    }
  }

  lemma IdsConcat(a: seq<Item>, b: seq<Item>)
    ensures IdsOf(a + b) == IdsOf(a) + IdsOf(b)
  {
  }

  /** The array that `appendUnique` pushes onto. */
  class ItemList {
    var items: seq<Item>
    constructor () ensures items == [] { items := []; }
  }

  /** The `Set` of the ids shown so far, shared by all the sections. */
  class IdSet {
    var ids: set<string>
    constructor () ensures ids == {} { ids := {}; }
  }

  lemma TakeFull(taken: seq<Item>, rest: seq<Item>, n: int)
    requires taken == [] || |taken| <= n
    requires |taken| >= n || rest == []
    ensures Take(taken + rest, n) == taken
  {
  }

  /** Regrouping when a fresh item moves from the rest to what is taken. */
  lemma TakeOneMore(target: seq<Item>, taken: seq<Item>, i: Item, rest: seq<Item>, seen: set<string>)
    ensures taken + ([i] + rest) == (taken + [i]) + rest
    ensures target + taken + [i] == target + (taken + [i])
    ensures seen + IdsOf(taken) + {i.id} == seen + IdsOf(taken + [i])
  {
    IdsConcat(taken, [i]);
  }

  lemma FreshAt(items: seq<Item>, i: nat, seen: set<string>)
    requires i < |items|
    ensures Fresh(items[i..], seen) ==
      if items[i].id in seen then Fresh(items[i + 1..], seen) else [items[i]] + Fresh(items[i + 1..], seen + {items[i].id})
  {
    assert items[i..][0] == items[i] && items[i..][1..] == items[i + 1..];
  }

  /** `appendUnique`: adds fresh items until the target is full, remembering their ids. */
  method AppendUnique(target: ItemList, seen: IdSet, items: seq<Item>, limit: int)
    modifies target, seen
    ensures target.items == old(target.items) + Take(Fresh(items, old(seen.ids)), limit - |old(target.items)|)
    ensures seen.ids == old(seen.ids) + IdsOf(Take(Fresh(items, old(seen.ids)), limit - |old(target.items)|))
  {
    ghost var target0, seen0 := target.items, seen.ids;
    ghost var taken: seq<Item> := [];
    for i := 0 to |items|
      invariant target.items == target0 + taken && seen.ids == seen0 + IdsOf(taken)
      invariant Fresh(items, seen0) == taken + Fresh(items[i..], seen.ids)
      invariant taken == [] || |target.items| <= limit
    {
      if |target.items| >= limit {
        TakeFull(taken, Fresh(items[i..], seen.ids), limit - |target0|);
        return;
      }
      FreshAt(items, i, seen.ids);
      if items[i].id in seen.ids {
        continue;
      }
      TakeOneMore(target0, taken, items[i], Fresh(items[i + 1..], seen.ids + {items[i].id}), seen0);
      taken := taken + [items[i]];
      seen.ids := seen.ids + {items[i].id};
      target.items := target.items + [items[i]];
    }
    assert Fresh(items, seen0) == taken + [];
    TakeFull(taken, [], limit - |target0|);
  }

  /** Filling a section from two lists in turn is filling it from their concatenation. */
  lemma SectionOfTwo(a: seq<Item>, b: seq<Item>, seen: set<string>, limit: int)
    ensures var first := Take(Fresh(a, seen), limit);
      Section(a + b, seen, limit) == first + Take(Fresh(b, seen + IdsOf(first)), limit - |first|)
  {
    FreshConcat(a, b, seen);
  }

  /** The two calls of `appendUnique` that make up one section. */
  method FillSection(a: seq<Item>, b: seq<Item>, seen: IdSet, limit: int) returns (section: seq<Item>)
    modifies seen
    ensures section == Section(a + b, old(seen.ids), limit) && seen.ids == old(seen.ids) + IdsOf(section)
  {
    ghost var seen0 := seen.ids;
    var target := new ItemList();
    AppendUnique(target, seen, a, limit);
    ghost var first := target.items;
    assert first == Take(Fresh(a, seen0), limit);
    ghost var more := Take(Fresh(b, seen0 + IdsOf(first)), limit - |first|);
    assert Section(a + b, seen0, limit) == first + more by { SectionOfTwo(a, b, seen0, limit); }
    AppendUnique(target, seen, b, limit);
    assert target.items == first + more;
    IdsConcat(first, more);
    section := target.items;
  }

  /** Skipping the item that became the one thing only skips an id already seen. */
  lemma SkipOneThing(needing: seq<Item>, more: seq<Item>, seen: set<string>, limit: int)
    requires needing != [] && needing[0].id in seen
    ensures Section(needing[1..] + more, seen, limit) == Section(needing + more, seen, limit)
  {
    assert (needing + more)[0] == needing[0] && (needing + more)[1..] == needing[1..] + more;
  }

  method ComposeHomeAttentionSections(live: seq<Item>, fallback: seq<Item>, onDeckLimit: int, pulseLimit: int, before: Collation)
    returns (r: Sections)
    ensures r == Compose(live, fallback, onDeckLimit, pulseLimit, before)
  {
    var liveNeedsUser := SortAttention(Filter(live, NeedsUser), before);
    var placed := ForPlacement(fallback, OneThing);
    var oneThing := if liveNeedsUser != [] then Some(liveNeedsUser[0]) else if placed != [] then Some(placed[0]) else None;
    var seen := new IdSet();
    if oneThing.Some? {
      seen.ids := seen.ids + {oneThing.value.id};
    }
    assert oneThing == OneThingOf(live, fallback, before) && seen.ids == OptionIds(oneThing);
    var rest := liveNeedsUser;
    if oneThing.Some? && liveNeedsUser != [] && liveNeedsUser[0].id == oneThing.value.id {
      rest := liveNeedsUser[1..];
      SkipOneThing(liveNeedsUser, ForPlacement(fallback, OnDeck), seen.ids, onDeckLimit);
    }
    var onDeck := FillSection(rest, ForPlacement(fallback, OnDeck), seen, onDeckLimit);
    var pulse := FillSection(SortAttention(live, before), ForPlacement(fallback, Pulse), seen, pulseLimit);
    r := Sections(oneThing, onDeck, pulse);
  }

  // ---------------------------------------------------------------- laws

  function ItemId(i: Item): string { i.id }

  lemma {:induction false} FreshIsDistinct(items: seq<Item>, seen: set<string>)
    ensures DistinctBy(Fresh(items, seen), ItemId)
    ensures forall i :: i in Fresh(items, seen) ==> i.id !in seen && i in items
  {
    if items != [] {
      FreshIsDistinct(items[1..], seen);
      FreshIsDistinct(items[1..], seen + {items[0].id});
      assert items == [items[0]] + items[1..];
    }
  }

  lemma SectionIsDistinct(candidates: seq<Item>, seen: set<string>, limit: int)
    ensures DistinctBy(Section(candidates, seen, limit), ItemId)
    ensures forall i :: i in Section(candidates, seen, limit) ==> i.id !in seen && i in candidates
  {
    FreshIsDistinct(candidates, seen);
    assert forall i :: i in Section(candidates, seen, limit) ==> i in Fresh(candidates, seen);
  }

  /** No id is shown twice, in one section or across sections, and limits are respected. */
  lemma SectionsNeverRepeat(live: seq<Item>, fallback: seq<Item>, onDeckLimit: int, pulseLimit: int, before: Collation)
    ensures var s := Compose(live, fallback, onDeckLimit, pulseLimit, before);
      && DistinctBy(s.onDeck, ItemId) && DistinctBy(s.pulse, ItemId)
      && OptionIds(s.oneThing) !! IdsOf(s.onDeck) !! IdsOf(s.pulse)
      && |s.onDeck| <= (if onDeckLimit < 0 then 0 else onDeckLimit)
      && |s.pulse| <= (if pulseLimit < 0 then 0 else pulseLimit)
  {
    var s := Compose(live, fallback, onDeckLimit, pulseLimit, before);
    SectionIsDistinct(DeckCandidates(live, fallback, before), OptionIds(s.oneThing), onDeckLimit);
    SectionIsDistinct(PulseCandidates(live, fallback, before), OptionIds(s.oneThing) + IdsOf(s.onDeck), pulseLimit);
  }

  /** A candidate is taken, has a taken or seen id, or comes after a full section. */
  lemma {:induction false} FreshCovers(items: seq<Item>, seen: set<string>, k: nat)
    requires k < |items|
    ensures items[k].id in seen + IdsOf(Fresh(items[..k + 1], seen))
    ensures Fresh(items[..k + 1], seen) <= Fresh(items, seen)
  {
    FreshPrefix(items, seen, k + 1);
    FreshPrefix(items[..k + 1], seen, k);
    assert items[..k + 1][..k] == items[..k] && items[..k + 1] == items[..k] + [items[k]];
    FreshConcat(items[..k], [items[k]], seen);
    IdsConcat(Fresh(items[..k], seen), Fresh([items[k]], seen + IdsOf(Fresh(items[..k], seen))));
  }

  lemma FreshPrefix(items: seq<Item>, seen: set<string>, k: nat)
    requires k <= |items|
    ensures Fresh(items[..k], seen) <= Fresh(items, seen)
  {
    FreshConcat(items[..k], items[k..], seen);
    assert items == items[..k] + items[k..];
  }

  /** Order of the sorted list: what stands before does not come after. */
  lemma OrderIsStrict(items: seq<Item>, before: Collation)
    requires Collates(before)
    ensures StrictWeakOrder(items, Order(before))
  {
  }

  /** An element of the sorted head of the candidates is missing from a section only when the
      section is full of elements of that head, none of which it outranks. */
  lemma CrowdedOut(items: seq<Item>, more: seq<Item>, seen: set<string>, limit: int, before: Collation, i: Item)
    requires Collates(before) && limit >= 0 && i in items && i.id !in seen
    requires var s := Section(SortAttention(items, before) + more, seen, limit); i.id !in IdsOf(s)
    ensures var s := Section(SortAttention(items, before) + more, seen, limit);
      |s| == limit && forall d :: d in s ==> d in items && !Precedes(before, i, d)
  {
    var sorted := SortAttention(items, before);
    var candidates := sorted + more;
    var k :| 0 <= k < |sorted| && sorted[k] == i;
    assert candidates[k] == i;
    FreshCovers(candidates, seen, k);
    var upTo := Fresh(candidates[..k + 1], seen);
    assert i.id in IdsOf(upTo);
    CrowdedSection(candidates, seen, limit, upTo, i.id);
    OrderIsStrict(items, before);
    SortSorts(items, Order(before));
    FreshIsDistinct(candidates[..k + 1], seen);
    assert candidates[..k + 1] == sorted[..k + 1];
    RanksNoLower(sorted, k, before, upTo);
  }

  /** A live item that needs the user but is in neither upper section was crowded out: on deck is
      full, and everything on it is a live item that needs the user and ranks no lower. */
  lemma CrowdedOutOnlyByRank(live: seq<Item>, fallback: seq<Item>, onDeckLimit: int, pulseLimit: int, before: Collation, i: Item)
    requires Collates(before) && onDeckLimit >= 0 && i in live && i.needsUser
    requires var s := Compose(live, fallback, onDeckLimit, pulseLimit, before);
      i.id !in OptionIds(s.oneThing) && i.id !in IdsOf(s.onDeck)
    ensures var s := Compose(live, fallback, onDeckLimit, pulseLimit, before);
      && |s.onDeck| == onDeckLimit
      && forall d :: d in s.onDeck ==> d in live && d.needsUser && !Precedes(before, i, d)
  {
    var s := Compose(live, fallback, onDeckLimit, pulseLimit, before);
    CrowdedOut(Filter(live, NeedsUser), ForPlacement(fallback, OnDeck), OptionIds(s.oneThing), onDeckLimit, before, i);
  }

  /** Overflow stays available to pulse: a live item shown nowhere was crowded out of pulse as
      well, by live items it does not outrank. */
  lemma LiveItemsOverflowIntoPulse(live: seq<Item>, fallback: seq<Item>, onDeckLimit: int, pulseLimit: int, before: Collation, i: Item)
    requires Collates(before) && pulseLimit >= 0 && i in live
    requires var s := Compose(live, fallback, onDeckLimit, pulseLimit, before);
      i.id !in OptionIds(s.oneThing) + IdsOf(s.onDeck) + IdsOf(s.pulse)
    ensures var s := Compose(live, fallback, onDeckLimit, pulseLimit, before);
      && |s.pulse| == pulseLimit
      && forall d :: d in s.pulse ==> d in live && !Precedes(before, i, d)
  {
    var s := Compose(live, fallback, onDeckLimit, pulseLimit, before);
    CrowdedOut(live, ForPlacement(fallback, Pulse), OptionIds(s.oneThing) + IdsOf(s.onDeck), pulseLimit, before, i);
  }

  /** The one thing is a live item that needs the user and that no other such item outranks;
      a fallback item takes its place exactly when no live item needs the user. */
  lemma OneThingIsTop(live: seq<Item>, fallback: seq<Item>, before: Collation)
    requires Collates(before)
    ensures var top := OneThingOf(live, fallback, before);
      if exists i :: i in live && i.needsUser
      then (
        && top.Some? && top.value in live && top.value.needsUser
        && forall i :: i in live && i.needsUser ==> !Precedes(before, i, top.value))
      else if top.None? then (forall i :: i in fallback ==> i.placement != OneThing)
      else (
        && top.value in fallback && top.value.placement == OneThing
        && forall i :: i in fallback && i.placement == OneThing ==> i.priority <= top.value.priority)
  {
    var needing := SortAttention(Filter(live, NeedsUser), before);
    assert needing != [] ==> needing[0] in needing && needing[0] in live && needing[0].needsUser;
    if i :| i in live && i.needsUser {
      assert i in needing;
      OrderIsStrict(Filter(live, NeedsUser), before);
      SortSorts(Filter(live, NeedsUser), Order(before));
      assert needing[0] in needing;
      forall d | d in live && d.needsUser ensures !Precedes(before, d, needing[0]) {
        assert d in needing;
        var j :| 0 <= j < |needing| && needing[j] == d;
        if j > 0 {
          assert !Order(before)(needing[j], needing[0]);
        }
      }
    } else {
      TopPlaced(fallback, OneThing);
    }
  }

  /** The first item of a placement has the greatest priority there. */
  lemma TopPlaced(items: seq<Item>, p: Placement)
    ensures var placed := ForPlacement(items, p);
      if placed == [] then (forall i :: i in items ==> i.placement != p)
      else (
        && placed[0] in items && placed[0].placement == p
        && forall i :: i in items && i.placement == p ==> i.priority <= placed[0].priority)
  {
    var placed := ForPlacement(items, p);
    assert forall d :: d in items && d.placement == p ==> d in Filter(items, HasPlacement(p)) && d in placed;
    assert forall k :: 0 <= k < |placed| ==> placed[k] in placed && placed[k] in Filter(items, HasPlacement(p));
    SortSorts(Filter(items, HasPlacement(p)), HigherPriority);
    forall i | i in placed ensures i.priority <= placed[0].priority {
      var j :| 0 <= j < |placed| && placed[j] == i;
      if j > 0 {
        assert !HigherPriority(placed[j], placed[0]);
      }
    }
  }

  /** In a sorted list nothing up to position `k` ranks lower than what stands at `k`. */
  lemma RanksNoLower(sorted: seq<Item>, k: nat, before: Collation, some: seq<Item>)
    requires k < |sorted| && SortedBy(sorted, Order(before)) && Collates(before)
    requires forall d :: d in some ==> d in sorted[..k + 1]
    ensures forall d :: d in some ==> d in sorted && !Precedes(before, sorted[k], d)
  {
    forall d | d in some ensures d in sorted && !Precedes(before, sorted[k], d) {
      var j :| 0 <= j <= k && sorted[j] == d;
      if j < k {
        assert !Order(before)(sorted[k], sorted[j]);
      }
    }
  }

  /** A section that lacks an id which its first fresh candidates have is full of them. */
  lemma CrowdedSection(candidates: seq<Item>, seen: set<string>, limit: int, upTo: seq<Item>, id: string)
    requires limit >= 0 && upTo <= Fresh(candidates, seen) && id in IdsOf(upTo)
    requires id !in IdsOf(Section(candidates, seen, limit))
    ensures |Section(candidates, seen, limit)| == limit
    ensures forall d :: d in Section(candidates, seen, limit) ==> d in upTo
  {
    var news, section := Fresh(candidates, seen), Section(candidates, seen, limit);
    var u :| 0 <= u < |upTo| && upTo[u].id == id;
    assert news[u] == upTo[u];
    assert forall k :: 0 <= k < |section| ==> section[k] == news[k] && section[k] in section;
  }

  // ---------------------------------------------------------------- rank and origin

  /** `a` is shown before `b`: it is of higher priority, or of the same and newer, or as new and
      its id collates before; what has no time counts as oldest of those since the epoch. */
  predicate Outranks(before: Collation, a: Item, b: Item) {
    var ta := if a.createdAt == None then 0 else a.createdAt.value;
    var tb := if b.createdAt == None then 0 else b.createdAt.value;
    || b.priority < a.priority
    || (a.priority == b.priority && tb < ta)
    || (a.priority == b.priority && ta == tb && before(a.id, b.id))
  }

  lemma OutranksIff(before: Collation, a: Item, b: Item)
    ensures Precedes(before, a, b) <==> Outranks(before, a, b)
  {
  }

  /** What stands on deck and in pulse: live items, on deck those that need the user, and fallback
      items of the section. */
  lemma ShownItems(live: seq<Item>, fallback: seq<Item>, onDeckLimit: int, pulseLimit: int, before: Collation)
    ensures var s := Compose(live, fallback, onDeckLimit, pulseLimit, before);
      && (forall d :: d in s.onDeck ==> (d in live && d.needsUser) || (d in fallback && d.placement == OnDeck))
      && (forall d :: d in s.pulse ==> d in live || (d in fallback && d.placement == Pulse))
  {
    var s := Compose(live, fallback, onDeckLimit, pulseLimit, before);
    SectionIsDistinct(DeckCandidates(live, fallback, before), OptionIds(s.oneThing), onDeckLimit);
    SectionIsDistinct(PulseCandidates(live, fallback, before), OptionIds(s.oneThing) + IdsOf(s.onDeck), pulseLimit);
  }

  /** Fresh items of two lists are those of the first, in their order, and then some of the second. */
  lemma {:induction false} FreshKeepsOrder(items: seq<Item>, seen: set<string>, less: (Item, Item) -> bool)
    requires SortedBy(items, less)
    ensures SortedBy(Fresh(items, seen), less)
  {
    if items != [] {
      var rest := items[1..];
      FreshKeepsOrder(rest, seen, less);
      FreshKeepsOrder(rest, seen + {items[0].id}, less);
      FreshIsDistinct(rest, seen + {items[0].id});
      assert forall i :: i in rest ==> !less(i, items[0]);
    }
  }

  /** A section shows items of the first list, in its order, and then items of the second. */
  lemma SectionOrder(a: seq<Item>, b: seq<Item>, seen: set<string>, limit: int, less: (Item, Item) -> bool, less': (Item, Item) -> bool)
    returns (x: seq<Item>, y: seq<Item>)
    requires SortedBy(a, less) && SortedBy(b, less')
    ensures Section(a + b, seen, limit) == x + y && SortedBy(x, less) && SortedBy(y, less')
    ensures (forall i :: i in x ==> i in a) && forall i :: i in y ==> i in b
  {
    SectionOfTwo(a, b, seen, limit);
    x := Take(Fresh(a, seen), limit);
    y := Take(Fresh(b, seen + IdsOf(x)), limit - |x|);
    FreshKeepsOrder(a, seen, less);
    FreshKeepsOrder(b, seen + IdsOf(x), less');
    FreshIsDistinct(a, seen);
    FreshIsDistinct(b, seen + IdsOf(x));
    assert forall i :: i in x ==> i in Fresh(a, seen);
    assert forall i :: i in y ==> i in Fresh(b, seen + IdsOf(x));
  }

  /** Both sections show live items first, none before one that outranks it, and then fallback
      items by falling priority. */
  lemma SectionsAreRanked(live: seq<Item>, fallback: seq<Item>, onDeckLimit: int, pulseLimit: int, before: Collation)
    returns (deck: (seq<Item>, seq<Item>), pulse: (seq<Item>, seq<Item>))
    requires Collates(before)
    ensures var s := Compose(live, fallback, onDeckLimit, pulseLimit, before);
      && s.onDeck == deck.0 + deck.1 && s.pulse == pulse.0 + pulse.1
      && Ranked(before, deck.0) && (forall i :: i in deck.0 ==> i in live && i.needsUser)
      && Ranked(before, pulse.0) && (forall i :: i in pulse.0 ==> i in live)
      && Falling(deck.1) && (forall i :: i in deck.1 ==> i in fallback && i.placement == OnDeck)
      && Falling(pulse.1) && (forall i :: i in pulse.1 ==> i in fallback && i.placement == Pulse)
  {
    var needing := Filter(live, NeedsUser);
    var oneThing := OneThingOf(live, fallback, before);
    OrderIsStrict(needing, before);
    OrderIsStrict(live, before);
    SortSorts(needing, Order(before));
    SortSorts(live, Order(before));
    SortSorts(Filter(fallback, HasPlacement(OnDeck)), HigherPriority);
    SortSorts(Filter(fallback, HasPlacement(Pulse)), HigherPriority);
    var a, b := SectionOrder(SortAttention(needing, before), ForPlacement(fallback, OnDeck), OptionIds(oneThing), onDeckLimit,
                             Order(before), HigherPriority);
    var c, d := SectionOrder(SortAttention(live, before), ForPlacement(fallback, Pulse), OptionIds(oneThing) + IdsOf(a + b), pulseLimit,
                             Order(before), HigherPriority);
    SortedIsRanked(before, a);
    SortedIsRanked(before, c);
    deck, pulse := (a, b), (c, d);
  }

  lemma SortedIsRanked(before: Collation, items: seq<Item>)
    requires SortedBy(items, Order(before))
    ensures Ranked(before, items)
  {
    forall i, j | 0 <= i < j < |items| ensures !Outranks(before, items[j], items[i]) {
      assert !Order(before)(items[j], items[i]);
    }
  }

  predicate Ranked(before: Collation, items: seq<Item>) {
    forall i, j :: 0 <= i < j < |items| ==> !Outranks(before, items[j], items[i])
  }

  predicate Falling(items: seq<Item>) { forall i, j :: 0 <= i < j < |items| ==> items[j].priority <= items[i].priority }

  /** A candidate whose id is new and not shown was crowded out of a full section. */
  lemma MissingMeansFull(candidates: seq<Item>, seen: set<string>, limit: int, i: Item)
    requires limit >= 0 && i in candidates && i.id !in seen && i.id !in IdsOf(Section(candidates, seen, limit))
    ensures |Section(candidates, seen, limit)| == limit
  {
    var k :| 0 <= k < |candidates| && candidates[k] == i;
    FreshCovers(candidates, seen, k);
    CrowdedSection(candidates, seen, limit, Fresh(candidates[..k + 1], seen), i.id);
  }

  /** A fallback item of a section is missing only when it is shown further up or the section is full. */
  lemma FallbackIsShown(live: seq<Item>, fallback: seq<Item>, onDeckLimit: int, pulseLimit: int, before: Collation, i: Item)
    requires onDeckLimit >= 0 && pulseLimit >= 0 && i in fallback
    ensures var s := Compose(live, fallback, onDeckLimit, pulseLimit, before);
      && (i.placement == OnDeck && i.id !in OptionIds(s.oneThing) + IdsOf(s.onDeck) ==> |s.onDeck| == onDeckLimit)
      && (i.placement == Pulse && i.id !in OptionIds(s.oneThing) + IdsOf(s.onDeck) + IdsOf(s.pulse) ==> |s.pulse| == pulseLimit)
  {
    var s := Compose(live, fallback, onDeckLimit, pulseLimit, before);
    var deck, pulse := DeckCandidates(live, fallback, before), PulseCandidates(live, fallback, before);
    if i.placement == OnDeck && i.id !in OptionIds(s.oneThing) + IdsOf(s.onDeck) {
      assert i in ForPlacement(fallback, OnDeck) && i in deck;
      MissingMeansFull(deck, OptionIds(s.oneThing), onDeckLimit, i);
    }
    if i.placement == Pulse && i.id !in OptionIds(s.oneThing) + IdsOf(s.onDeck) + IdsOf(s.pulse) {
      assert i in ForPlacement(fallback, Pulse) && i in pulse;
      MissingMeansFull(pulse, OptionIds(s.oneThing) + IdsOf(s.onDeck), pulseLimit, i);
    }
  }
}
