/** The handlers' state machine with the real projection. */
module ProjectionCacheLaws {
  import opened Sequences
  import opened Projections
  import opened ProjectionCache

  lemma ProjectionCounts()
    ensures Counts(Projection)
  {
    forall a, b | Projection(a).Some? && Projection(a) == Projection(b) ensures |a| == |b| {
      SameCount(a, b);
    }
  }

  lemma SameCount(a: seq<Event>, b: seq<Event>)
    requires Projection(a).Some? && Projection(a) == Projection(b)
    ensures |a| == |b|
  {
    assert Projection(a).value.eventCount == Projection(b).value.eventCount;
  }

  lemma ProjectionStays()
    ensures Stays(Projection)
  {
    forall a, e | Projection(a).Some? ensures Projection(a + [e]).Some? {
      CreationStays(a, e);
    }
  }

  lemma CreationStays(a: seq<Event>, e: Event)
    requires Projection(a).Some?
    ensures Projection(a + [e]).Some?
  {
    var k := CreationIndex(a);
    assert (a + [e])[k] == a[k];
  }

  lemma ProjectionFacts()
    ensures Counts(Projection) && Stays(Projection) && Projection([]) == None
  {
    ProjectionCounts();
    ProjectionStays();
  }

  /** A visible file is never torn and never invented, in every interleaving: it is the rebuild
      of a prefix of the log, restricted to its project, and that prefix holds the writing
      handler's own events. */
  lemma VisibleFile(steps: seq<Step>, p: string)
    requires p in Run(Projection, steps).files
    ensures var s := Run(Projection, steps);
      && p in s.writer && s.writer[p] in s.handlers && s.handlers[s.writer[p]].HasRead()
      && var w := s.handlers[s.writer[p]];
        && w.project == p && w.phase.seen <= |s.log|
        && Projection(Restrict(s.log[..w.phase.seen], p)) == Some(s.files[p])
        && (forall i :: i in w.appended ==> i < w.phase.seen && s.log[i].correlationId == p)
  {
    EveryInterleaving(Projection, steps);
    var s := Run(Projection, steps);
    assert FileOk(Projection, s, p);
    assert HandlerOk(Projection, s, s.writer[p]);
  }

  /** Overlapping handlers can leave a file behind the log; it is current exactly when no event
      of its project was appended after the writer of the file read the log. */
  lemma VisibleFileCurrentIff(steps: seq<Step>, p: string)
    requires p in Run(Projection, steps).files
    ensures var s := Run(Projection, steps);
      && p in s.writer && s.writer[p] in s.handlers && s.handlers[s.writer[p]].HasRead()
      && (Current(Projection, s, p) <==>
          forall i :: s.handlers[s.writer[p]].phase.seen <= i < |s.log| ==> s.log[i].correlationId != p)
  {
    ProjectionFacts();
    RunCurrentIff(Projection, steps, p);
  }

  /** Handlers that do not overlap keep the cache exact. */
  lemma SerialCacheIsExact(steps: seq<Step>, p: string)
    requires Serial(Projection, steps) && Idle(Run(Projection, steps))
    ensures Current(Projection, Run(Projection, steps), p)
  {
    ProjectionFacts();
    SerialIsCurrent(Projection, steps, p);
  }

  /** Both handlers append and read; the one that read less renames last. */
  function Race(a: Event, b: Event, p: string): seq<Step> {
    FirstSteps(a, p) + SecondSteps(b, p) + [Rename(1), Rename(0)]
  }

  /** `Run` over a known schedule, four or two steps at a time. */
  lemma RunFour(rebuild: Rebuilder, steps: seq<Step>, x: Step, y: Step, z: Step, w: Step)
    ensures Run(rebuild, steps + [x, y, z, w]) ==
      Do(rebuild, Do(rebuild, Do(rebuild, Do(rebuild, Run(rebuild, steps), x), y), z), w)
  {
    RunTwo(rebuild, steps, x, y);
    RunTwo(rebuild, steps + [x, y], z, w);
    assert steps + [x, y, z, w] == steps + [x, y] + [z, w];
  }

  lemma RunOne(rebuild: Rebuilder, steps: seq<Step>, x: Step)
    ensures Run(rebuild, steps + [x]) == Do(rebuild, Run(rebuild, steps), x)
  {
    assert (steps + [x])[..|steps|] == steps;
  }

  /** A new handler that appends one event, reads and stages. */
  lemma HandlerStages(rebuild: Rebuilder, s: State, h: nat, e: Event, p: string)
    requires h !in s.handlers && e.correlationId == p
    ensures Do(rebuild, Do(rebuild, Do(rebuild, Do(rebuild, s, Start(h, p)), Append(h, e)), ReadLog(h)), Stage(h)) ==
      s.(log := s.log + [e], temporary := s.temporary[h := rebuild(Restrict(s.log + [e], p))],
         handlers := s.handlers[h := Handler(p, {|s.log|}, Staged(|s.log| + 1))])
  {
    var s2 := Do(rebuild, Do(rebuild, s, Start(h, p)), Append(h, e));
    var none: set<nat> := {};
    assert none + {|s.log|} == {|s.log|};
    assert s2.handlers == s.handlers[h := Handler(p, {|s.log|}, Working)];
    assert Prefix(s2.log, |s.log| + 1) == s.log + [e];
  }

  /** The state when the first handler, and when both, have staged. */
  function FirstStaged(rebuild: Rebuilder, a: Event, p: string): State {
    INIT.(log := [a], temporary := map[0 := rebuild([a])], handlers := map[0 := Handler(p, {0}, Staged(1))])
  }

  function BothStaged(rebuild: Rebuilder, a: Event, b: Event, p: string): State {
    INIT.(log := [a, b], temporary := map[0 := rebuild([a]), 1 := rebuild(Restrict([a, b], p))],
          handlers := map[0 := Handler(p, {0}, Staged(1)), 1 := Handler(p, {1}, Staged(2))])
  }

  function FirstSteps(a: Event, p: string): seq<Step> { [Start(0, p), Append(0, a), ReadLog(0), Stage(0)] }

  function SecondSteps(b: Event, p: string): seq<Step> { [Start(1, p), Append(1, b), ReadLog(1), Stage(1)] }

  lemma FirstStages(rebuild: Rebuilder, a: Event, p: string)
    requires a.correlationId == p
    ensures Run(rebuild, FirstSteps(a, p)) == FirstStaged(rebuild, a, p)
  {
    RunFour(rebuild, [], Start(0, p), Append(0, a), ReadLog(0), Stage(0));
    HandlerStages(rebuild, INIT, 0, a, p);
    assert [] + FirstSteps(a, p) == FirstSteps(a, p);
    assert INIT.log + [a] == [a] && Restrict([a], p) == [a];
  }

  lemma SecondStages(rebuild: Rebuilder, a: Event, b: Event, p: string)
    requires a.correlationId == p && b.correlationId == p
    ensures Run(rebuild, FirstSteps(a, p) + SecondSteps(b, p)) == BothStaged(rebuild, a, b, p)
  {
    FirstStages(rebuild, a, p);
    RunFour(rebuild, FirstSteps(a, p), Start(1, p), Append(1, b), ReadLog(1), Stage(1));
    HandlerStages(rebuild, FirstStaged(rebuild, a, p), 1, b, p);
    assert [a] + [b] == [a, b];
  }

  lemma RaceRuns(rebuild: Rebuilder, a: Event, b: Event, p: string)
    requires a.correlationId == p && b.correlationId == p && rebuild([a]).Some?
    ensures var s := Run(rebuild, Race(a, b, p));
      Idle(s) && s.log == [a, b] && s.files == map[p := rebuild([a]).value]
  {
    SecondStages(rebuild, a, b, p);
    RunTwo(rebuild, FirstSteps(a, p) + SecondSteps(b, p), Rename(1), Rename(0));
    SecondRenames(rebuild, a, b, p);
    FirstRenames(rebuild, a, b, p);
  }

  lemma RunTwo(rebuild: Rebuilder, steps: seq<Step>, x: Step, y: Step)
    ensures Run(rebuild, steps + [x, y]) == Do(rebuild, Do(rebuild, Run(rebuild, steps), x), y)
  {
    RunOne(rebuild, steps, x);
    RunOne(rebuild, steps + [x], y);
    assert steps + [x, y] == steps + [x] + [y];
  }

  /** After the second handler's rename the first one is still to come. */
  lemma SecondRenames(rebuild: Rebuilder, a: Event, b: Event, p: string)
    ensures var s := Do(rebuild, BothStaged(rebuild, a, b, p), Rename(1));
      && s.log == [a, b] && s.temporary == map[0 := rebuild([a])] && s.files.Keys <= {p}
      && s.handlers == map[0 := Handler(p, {0}, Staged(1)), 1 := Handler(p, {1}, Renamed(2))]
  {
  }

  lemma FirstRenames(rebuild: Rebuilder, a: Event, b: Event, p: string)
    requires rebuild([a]).Some?
    ensures var s := Do(rebuild, Do(rebuild, BothStaged(rebuild, a, b, p), Rename(1)), Rename(0));
      Idle(s) && s.log == [a, b] && s.files == map[p := rebuild([a]).value]
  {
    SecondRenames(rebuild, a, b, p);
    LastRename(rebuild, Do(rebuild, BothStaged(rebuild, a, b, p), Rename(1)), a, p);
  }

  lemma LastRename(rebuild: Rebuilder, s: State, a: Event, p: string)
    requires rebuild([a]).Some? && s.temporary == map[0 := rebuild([a])] && s.files.Keys <= {p}
    requires s.handlers == map[0 := Handler(p, {0}, Staged(1)), 1 := Handler(p, {1}, Renamed(2))]
    ensures var r := Do(rebuild, s, Rename(0));
      Idle(r) && r.log == s.log && r.files == map[p := rebuild([a]).value]
  {
  }

  /** Without the ordering the promise fails: after this schedule no handler is at work, and
      the file lacks the second event of its project. */
  lemma LostUpdate()
    ensures exists steps: seq<Step>, p: string ::
      var s := Run(Projection, steps);
      Idle(s) && p in s.files && s.files[p].eventCount == 1 && |Restrict(s.log, p)| == 2
  {
    var a := Event(1, "t", "p", ProjectCreated("p", "n", "c", None, None));
    var b := Event(2, "t", "p", OtherEvent("note"));
    RaceRuns(Projection, a, b, "p");
    RestrictAppend([a], b, "p");
    assert [a] + [b] == [a, b];
    assert Run(Projection, Race(a, b, "p")).files["p"].eventCount == 1;
  }
}
