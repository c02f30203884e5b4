/** The request handlers of scripts/serve-v15-vertical-slice.ts as a state machine over one
    append-only log and one projection file per project.  A handler appends the events of
    its project, reads the log, writes the rebuilt projection to a temporary file and renames
    it over the visible one; steps of different handlers interleave in every order.

    The machine is given the function that rebuilds a project's view from its events;
    `ProjectionCacheLaws` instantiates it with `Projection`. */
module ProjectionCache {
  import opened Sequences
  import opened Projections

  type Rebuilder = seq<Event> -> Option<View>

  /** How far a handler is; `seen` is the length of the log it read. */
  datatype Phase = Working | Read(seen: nat) | Staged(seen: nat) | Renamed(seen: nat) | Quit

  /** `appended` are the positions of the handler's own events. */
  datatype Handler = Handler(project: string, appended: set<nat>, phase: Phase) {
    predicate Active() { !phase.Renamed? && !phase.Quit? }
    predicate HasRead() { phase.Read? || phase.Staged? || phase.Renamed? }
  }

  /** `temporary` holds the staged files, whose random names never clash; `writer` records
      which handler's rename made a file visible. */
  datatype State = State(log: seq<Event>, files: map<string, View>, temporary: map<nat, Option<View>>,
                         handlers: map<nat, Handler>, writer: map<string, nat>)

  datatype Step =
    | Start(h: nat, project: string)
    | Append(h: nat, event: Event)
    | ReadLog(h: nat)
    | Stage(h: nat)
    | Rename(h: nat)
    | GiveUp(h: nat)   // refused before any append, or served from the cache

  function OfProject(p: string): Event -> bool { (e: Event) => e.correlationId == p }

  function Restrict(log: seq<Event>, p: string): seq<Event> { Filter(log, OfProject(p)) }

  const INIT := State([], map[], map[], map[], map[])

  predicate Enabled(s: State, step: Step) {
    match step
    case Start(h, _) => h !in s.handlers
    case Append(h, e) => h in s.handlers && s.handlers[h].phase == Working && e.correlationId == s.handlers[h].project
    case ReadLog(h) => h in s.handlers && s.handlers[h].phase == Working
    case Stage(h) => h in s.handlers && s.handlers[h].phase.Read?
    case Rename(h) => h in s.handlers && s.handlers[h].phase.Staged? && h in s.temporary
    case GiveUp(h) => h in s.handlers && s.handlers[h].phase == Working && s.handlers[h].appended == {}
  }

  /** The first `n` events, for a snapshot that never exceeds the log. */
  function Prefix(log: seq<Event>, n: nat): seq<Event> { if n <= |log| then log[..n] else log }

  /** What a handler that read `n` events rebuilds for `p`. */
  function Seen(rebuild: Rebuilder, log: seq<Event>, n: nat, p: string): Option<View> {
    rebuild(Restrict(Prefix(log, n), p))
  }

  function WithPhase(s: State, h: nat, phase: Phase): State
    requires h in s.handlers
  {
    s.(handlers := s.handlers[h := s.handlers[h].(phase := phase)])
  }

  function Do(rebuild: Rebuilder, s: State, step: Step): State {
    if !Enabled(s, step) then s
    else match step
      case Start(h, p) => s.(handlers := s.handlers[h := Handler(p, {}, Working)])
      case Append(h, e) =>
        var me := s.handlers[h];
        s.(log := s.log + [e], handlers := s.handlers[h := me.(appended := me.appended + {|s.log|})])
      case ReadLog(h) => WithPhase(s, h, Read(|s.log|))
      case Stage(h) =>
        var n := s.handlers[h].phase.seen;
        WithPhase(s, h, Staged(n)).(temporary := s.temporary[h := Seen(rebuild, s.log, n, s.handlers[h].project)])
      case Rename(h) =>
        var me := s.handlers[h];
        var done := WithPhase(s, h, Renamed(me.phase.seen)).(temporary := s.temporary - {h});
        if s.temporary[h].None? then done
        else done.(files := s.files[me.project := s.temporary[h].value], writer := s.writer[me.project := h])
      case GiveUp(h) => WithPhase(s, h, Quit)
  }

  /** The state after a schedule; a step that is not enabled does nothing. */
  function Run(rebuild: Rebuilder, steps: seq<Step>): State {
    if steps == [] then INIT else Do(rebuild, Run(rebuild, steps[..|steps| - 1]), steps[|steps| - 1])
  }

  // ---------------------------------------------------------------- every interleaving

  ghost predicate HandlerOk(rebuild: Rebuilder, s: State, h: nat)
    requires h in s.handlers
  {
    var me := s.handlers[h];
    && (forall i :: i in me.appended ==> i < |s.log| && s.log[i].correlationId == me.project)
    && (me.HasRead() ==> me.phase.seen <= |s.log| && forall i :: i in me.appended ==> i < me.phase.seen)
    && (me.phase.Staged? ==>
          h in s.temporary && s.temporary[h] == Seen(rebuild, s.log, me.phase.seen, me.project))
  }

  /** The file of `p` is the rebuild of what its writer read, own events included. */
  ghost predicate FileOk(rebuild: Rebuilder, s: State, p: string)
    requires p in s.files
  {
    && p in s.writer && s.writer[p] in s.handlers
    && var w := s.handlers[s.writer[p]];
      && w.project == p && w.phase.Renamed?
      && Seen(rebuild, s.log, w.phase.seen, p) == Some(s.files[p])
  }

  ghost predicate Inv(rebuild: Rebuilder, s: State) {
    && (forall h :: h in s.handlers ==> HandlerOk(rebuild, s, h))
    && (forall p :: p in s.files ==> FileOk(rebuild, s, p))
  }

  lemma AppendKeepsSeen(rebuild: Rebuilder, log: seq<Event>, e: Event, n: nat, p: string)
    requires n <= |log|
    ensures Seen(rebuild, log + [e], n, p) == Seen(rebuild, log, n, p)
  {
    assert (log + [e])[..n] == log[..n];
  }

  lemma AppendKeepsInv(rebuild: Rebuilder, s: State, h: nat, e: Event)
    requires Inv(rebuild, s) && Enabled(s, Append(h, e))
    ensures Inv(rebuild, Do(rebuild, s, Append(h, e)))
  {
    var s' := Do(rebuild, s, Append(h, e));
    forall g | g in s'.handlers ensures HandlerOk(rebuild, s', g) {
      assert HandlerOk(rebuild, s, g);
      if s.handlers[g].HasRead() {
        AppendKeepsSeen(rebuild, s.log, e, s.handlers[g].phase.seen, s.handlers[g].project);
      }
    }
    forall p | p in s'.files ensures FileOk(rebuild, s', p) {
      assert FileOk(rebuild, s, p);
      assert HandlerOk(rebuild, s, s.writer[p]);
      AppendKeepsSeen(rebuild, s.log, e, s.handlers[s.writer[p]].phase.seen, p);
    }
  }

  lemma RenameKeepsHandlers(rebuild: Rebuilder, s: State, h: nat)
    requires Inv(rebuild, s) && Enabled(s, Rename(h))
    ensures var s' := Do(rebuild, s, Rename(h)); forall g :: g in s'.handlers ==> HandlerOk(rebuild, s', g)
  {
    var s' := Do(rebuild, s, Rename(h));
    forall g | g in s'.handlers ensures HandlerOk(rebuild, s', g) {
      assert HandlerOk(rebuild, s, g);
    }
  }

  lemma RenameKeepsFile(rebuild: Rebuilder, s: State, h: nat, p: string)
    requires Inv(rebuild, s) && Enabled(s, Rename(h)) && p in Do(rebuild, s, Rename(h)).files
    ensures FileOk(rebuild, Do(rebuild, s, Rename(h)), p)
  {
    if p == s.handlers[h].project && s.temporary[h].Some? {
      assert HandlerOk(rebuild, s, h);
    } else {
      assert FileOk(rebuild, s, p);
    }
  }

  /** A rename makes what the writer staged visible and leaves the other files alone. */
  lemma RenameKeepsInv(rebuild: Rebuilder, s: State, h: nat)
    requires Inv(rebuild, s) && Enabled(s, Rename(h))
    ensures var s' := Do(rebuild, s, Rename(h));
      && Inv(rebuild, s')
      && (forall p :: p != s.handlers[h].project ==> File(s', p) == File(s, p))
      && (s.temporary[h].Some? ==> File(s', s.handlers[h].project) == s.temporary[h])
  {
    RenameKeepsHandlers(rebuild, s, h);
    forall p | p in Do(rebuild, s, Rename(h)).files {
      RenameKeepsFile(rebuild, s, h, p);
    }
  }

  lemma OtherStepKeepsInv(rebuild: Rebuilder, s: State, step: Step)
    requires Inv(rebuild, s) && Enabled(s, step) && !step.Append? && !step.Rename?
    ensures Inv(rebuild, Do(rebuild, s, step))
  {
    var s' := Do(rebuild, s, step);
    forall g | g in s'.handlers ensures HandlerOk(rebuild, s', g) {
      assert g in s.handlers ==> HandlerOk(rebuild, s, g);
    }
    forall p | p in s'.files ensures FileOk(rebuild, s', p) {
      assert FileOk(rebuild, s, p);
    }
  }

  /** What every step of every handler keeps, in every order. */
  lemma {:induction false} EveryInterleaving(rebuild: Rebuilder, steps: seq<Step>)
    ensures Inv(rebuild, Run(rebuild, steps))
  {
    if steps != [] {
      var s, step := Run(rebuild, steps[..|steps| - 1]), steps[|steps| - 1];
      EveryInterleaving(rebuild, steps[..|steps| - 1]);
      if Enabled(s, step) {
        match step
        case Append(h, e) => AppendKeepsInv(rebuild, s, h, e);
        case Rename(h) => RenameKeepsInv(rebuild, s, h);
        case _ => OtherStepKeepsInv(rebuild, s, step);
      }
    }
  }

  // ---------------------------------------------------------------- snapshots

  /** A handler reads the whole log at once, and what it has read never changes afterwards. */
  lemma SnapshotStays(rebuild: Rebuilder, s: State, step: Step, h: nat)
    requires h in s.handlers
    ensures var s' := Do(rebuild, s, step);
      && h in s'.handlers && s'.handlers[h].project == s.handlers[h].project && s.log <= s'.log
      && (s.handlers[h].HasRead() ==>
            s'.handlers[h].HasRead() && s'.handlers[h].phase.seen == s.handlers[h].phase.seen)
      && (!s.handlers[h].HasRead() && s'.handlers[h].HasRead() ==>
            step == ReadLog(h) && s'.handlers[h].phase.seen == |s.log|)
  {
  }

  // ---------------------------------------------------------------- when a file is current

  /** What `p`'s file says of the whole log. */
  function File(s: State, p: string): Option<View> { if p in s.files then Some(s.files[p]) else None }

  predicate Current(rebuild: Rebuilder, s: State, p: string) { rebuild(Restrict(s.log, p)) == File(s, p) }

  /** Views of logs of different lengths differ. */
  ghost predicate Counts(rebuild: Rebuilder) {
    forall a, b :: rebuild(a).Some? && rebuild(a) == rebuild(b) ==> |a| == |b|
  }

  /** A project once created stays created. */
  ghost predicate Stays(rebuild: Rebuilder) {
    forall a, e :: rebuild(a).Some? ==> rebuild(a + [e]).Some?
  }

  lemma RestrictSplit(log: seq<Event>, n: nat, p: string)
    requires n <= |log|
    ensures Restrict(log, p) == Restrict(log[..n], p) + Restrict(log[n..], p)
    ensures Restrict(log[n..], p) == [] <==> forall i :: n <= i < |log| ==> log[i].correlationId != p
  {
    assert log == log[..n] + log[n..];
    FilterConcat(log[..n], log[n..], OfProject(p));
    var tail := Restrict(log[n..], p);
    if tail != [] {
      assert tail[0] in tail;
      var i :| 0 <= i < |log[n..]| && log[n..][i] == tail[0];
      assert log[n + i] == tail[0];
    }
    forall i | n <= i < |log| && log[i].correlationId == p ensures log[i] in tail {
      assert log[n..][i - n] == log[i];
      assert log[i] in log[n..];
    }
  }

  /** A visible file is current exactly when no event of its project was appended after its
      writer read the log. */
  lemma FileCurrentIff(rebuild: Rebuilder, s: State, p: string)
    requires Inv(rebuild, s) && Counts(rebuild) && p in s.files
    ensures p in s.writer && s.writer[p] in s.handlers && s.handlers[s.writer[p]].HasRead()
    ensures Current(rebuild, s, p) <==>
      forall i :: s.handlers[s.writer[p]].phase.seen <= i < |s.log| ==> s.log[i].correlationId != p
  {
    assert FileOk(rebuild, s, p);
    assert HandlerOk(rebuild, s, s.writer[p]);
    SnapshotCurrentIff(rebuild, s.log, s.handlers[s.writer[p]].phase.seen, p);
  }

  /** The same for every schedule. */
  lemma RunCurrentIff(rebuild: Rebuilder, steps: seq<Step>, p: string)
    requires Counts(rebuild) && p in Run(rebuild, steps).files
    ensures var s := Run(rebuild, steps);
      && p in s.writer && s.writer[p] in s.handlers && s.handlers[s.writer[p]].HasRead()
      && (Current(rebuild, s, p) <==>
          forall i :: s.handlers[s.writer[p]].phase.seen <= i < |s.log| ==> s.log[i].correlationId != p)
  {
    var s := Run(rebuild, steps);
    EveryInterleaving(rebuild, steps);
    FileCurrentIff(rebuild, s, p);
  }

  lemma SnapshotCurrentIff(rebuild: Rebuilder, log: seq<Event>, n: nat, p: string)
    requires Counts(rebuild) && n <= |log| && Seen(rebuild, log, n, p).Some?
    ensures Seen(rebuild, log, n, p) == rebuild(Restrict(log, p)) <==> forall i :: n <= i < |log| ==> log[i].correlationId != p
  {
    RestrictSplit(log, n, p);
    var a, b := Restrict(log[..n], p), Restrict(log[n..], p);
    if b == [] {
      assert a + b == a;
    } else {
      assert |a + b| > |a|;
    }
  }

  // ---------------------------------------------------------------- handlers that do not overlap

  ghost predicate Idle(s: State) { forall h :: h in s.handlers ==> !s.handlers[h].Active() }

  /** A handler starts only when no other is active. */
  ghost predicate Serial(rebuild: Rebuilder, steps: seq<Step>) {
    forall i :: 0 <= i < |steps| && steps[i].Start? ==> Idle(Run(rebuild, steps[..i]))
  }

  /** `h` is at work on `p` and has appended. */
  predicate Busy(s: State, h: nat, p: string) {
    h in s.handlers && s.handlers[h].Active() && s.handlers[h].project == p && s.handlers[h].appended != {}
  }

  ghost predicate OneActive(s: State) {
    forall g, h :: g in s.handlers && h in s.handlers && s.handlers[g].Active() && s.handlers[h].Active() ==> g == h
  }

  /** At most one handler is active; once it has read, it has seen the whole log; and only the
      file of the project it appended to may lag. */
  ghost predicate SerialInv(rebuild: Rebuilder, s: State) {
    && OneActive(s)
    && (forall h :: h in s.handlers && s.handlers[h].Active() && s.handlers[h].HasRead() ==> s.handlers[h].phase.seen == |s.log|)
    && (forall p :: (forall h :: !Busy(s, h, p)) ==> Current(rebuild, s, p))
    && (forall p :: p in s.files ==> rebuild(Restrict(s.log, p)).Some?)
  }

  lemma RestrictAppend(log: seq<Event>, e: Event, p: string)
    ensures Restrict(log + [e], p) == if e.correlationId == p then Restrict(log, p) + [e] else Restrict(log, p)
  {
    FilterConcat(log, [e], OfProject(p));
  }

  lemma SerialAppend(rebuild: Rebuilder, s: State, h: nat, e: Event)
    requires SerialInv(rebuild, s) && Stays(rebuild) && Enabled(s, Append(h, e))
    ensures SerialInv(rebuild, Do(rebuild, s, Append(h, e)))
  {
    var s' := Do(rebuild, s, Append(h, e));
    forall p
      ensures (forall g :: !Busy(s', g, p)) ==> Current(rebuild, s', p)
      ensures p in s'.files ==> rebuild(Restrict(s'.log, p)).Some?
    {
      RestrictAppend(s.log, e, p);
      assert |s.log| in s'.handlers[h].appended;
      assert Busy(s', h, e.correlationId);
      if p != e.correlationId {
        assert forall g :: Busy(s, g, p) ==> g == h;
        assert Current(rebuild, s, p);
      }
    }
  }

  /** A lone handler renames the rebuild of the whole log. */
  lemma LoneRenameIsCurrent(rebuild: Rebuilder, s: State, h: nat)
    requires Inv(rebuild, s) && SerialInv(rebuild, s) && Enabled(s, Rename(h))
    ensures Current(rebuild, Do(rebuild, s, Rename(h)), s.handlers[h].project)
  {
    var q := s.handlers[h].project;
    assert HandlerOk(rebuild, s, h);
    assert Prefix(s.log, |s.log|) == s.log;
    assert s.temporary[h] == rebuild(Restrict(s.log, q));
    RenameKeepsInv(rebuild, s, h);
  }

  lemma OthersStayCurrent(rebuild: Rebuilder, s: State, h: nat, p: string)
    requires Inv(rebuild, s) && SerialInv(rebuild, s) && Enabled(s, Rename(h)) && p != s.handlers[h].project
    ensures Current(rebuild, Do(rebuild, s, Rename(h)), p)
  {
    assert forall g :: Busy(s, g, p) ==> g == h;
    assert Current(rebuild, s, p);
    RenameKeepsInv(rebuild, s, h);
  }

  lemma SerialRename(rebuild: Rebuilder, s: State, h: nat)
    requires Inv(rebuild, s) && SerialInv(rebuild, s) && Enabled(s, Rename(h))
    ensures SerialInv(rebuild, Do(rebuild, s, Rename(h)))
  {
    var s' := Do(rebuild, s, Rename(h));
    forall p
      ensures Current(rebuild, s', p)
      ensures p in s'.files ==> rebuild(Restrict(s'.log, p)).Some?
    {
      if p == s.handlers[h].project {
        LoneRenameIsCurrent(rebuild, s, h);
      } else {
        OthersStayCurrent(rebuild, s, h, p);
      }
    }
  }

  lemma SerialOther(rebuild: Rebuilder, s: State, step: Step)
    requires SerialInv(rebuild, s) && Enabled(s, step) && !step.Append? && !step.Rename?
    requires step.Start? ==> Idle(s)
    ensures SerialInv(rebuild, Do(rebuild, s, step))
  {
    var s' := Do(rebuild, s, step);
    forall p | forall g :: !Busy(s', g, p) ensures Current(rebuild, s', p) {
      assert forall g :: Busy(s, g, p) ==> Busy(s', g, p);
      assert Current(rebuild, s, p);
    }
  }

  lemma {:induction false} SerialKeepsInv(rebuild: Rebuilder, steps: seq<Step>)
    requires Serial(rebuild, steps) && Stays(rebuild) && rebuild([]) == None
    ensures SerialInv(rebuild, Run(rebuild, steps))
  {
    if steps != [] {
      var n := |steps| - 1;
      var s, step := Run(rebuild, steps[..n]), steps[n];
      assert Serial(rebuild, steps[..n]) by {
        forall i | 0 <= i < n && steps[i].Start? ensures Idle(Run(rebuild, steps[..n][..i])) {
          assert steps[..n][..i] == steps[..i];
        }
      }
      SerialKeepsInv(rebuild, steps[..n]);
      EveryInterleaving(rebuild, steps[..n]);
      if Enabled(s, step) {
        match step
        case Append(h, e) => SerialAppend(rebuild, s, h, e);
        case Rename(h) => SerialRename(rebuild, s, h);
        case _ => SerialOther(rebuild, s, step);
      }
    }
  }

  /** When handlers do not overlap, every file is current whenever none is at work: it is
      there exactly when the log creates its project, and is the rebuild of the whole log. */
  lemma SerialIsCurrent(rebuild: Rebuilder, steps: seq<Step>, p: string)
    requires Serial(rebuild, steps) && Stays(rebuild) && rebuild([]) == None && Idle(Run(rebuild, steps))
    ensures Current(rebuild, Run(rebuild, steps), p)
  {
    SerialKeepsInv(rebuild, steps);
    var s := Run(rebuild, steps);
    assert forall h :: !Busy(s, h, p);
  }
}
