/** The running gate over whole runs: what every reachable state guarantees, and what no
    interleaving of steps can bring about. */
module RuntimeTheorems {
  import opened Text
  import opened Statements
  import opened Verifier
  import opened GateConfig
  import opened Deciding
  import opened Table
  import opened Gate
  import opened Runtime
  import opened RuntimeSafety

  // ---------------------------------------------------------------- every reachable state

  lemma ClockKeepsRequests(s: State, now: nat)
    requires RequestsOk(s)
    ensures RequestsOk(s.(clock := now))
  {
    var t := s.(clock := now);
    RequestsStay(s, t);
  }

  lemma InvAtClock(w: World, s: State, now: nat)
    requires TablesOk(w, now, s) && LifecycleOk(s) && ExitOk(s) && RequestsOk(s)
    requires SignalsOk(s.(clock := now)) && OrderOk(s.(clock := now))
    ensures Inv(w, s.(clock := now))
  {
    ClockKeepsRequests(s, now);
  }

  lemma StoreCurrent(w: World, now: nat, s: State)
    requires TablesOk(w, now, s)
    ensures StoreIsLast(s.published, s.store)
  {
  }

  lemma StepKeepsInv(w: World, s: State, step: Step)
    requires Inv(w, s) && Apply(w, s, step).Some?
    ensures Inv(w, Apply(w, s, step).value)
  {
    hide TablesOk, StoreIsLast, LifecycleOk, ExitOk, SignalsOk, OrderOk, RequestsOk, StepApply;
    StoreCurrent(w, s.clock, s);
    StepTables(w, s, step);
    StepLifecycle(w, s, step);
    StepSignals(w, s, step);
    StepOrder(w, s, step);
    StepRequests(w, s, step);
    InvAtClock(w, StepApply(w, s, step).value, s.clock + 1);
  }

  lemma {:induction false} RunKeepsInv(w: World, s: State, steps: seq<Step>)
    requires Inv(w, s) && Run(w, s, steps).Some?
    ensures Inv(w, Run(w, s, steps).value)
  {
    if steps == [] {
    } else {
      var n := |steps| - 1;
      RunKeepsInv(w, s, steps[..n]);
      StepKeepsInv(w, Run(w, s, steps[..n]).value, steps[n]);
    }
  }

  lemma ReachableInv(w: World, s: State)
    requires Reachable(w, s)
    ensures Inv(w, s)
  {
    var steps :| Run(w, INITIAL, steps) == Some(s);
    RunKeepsInv(w, INITIAL, steps);
  }

  lemma ReachableParts(w: World, s: State)
    requires Reachable(w, s)
    ensures TablesOk(w, s.clock, s) && LifecycleOk(s) && ExitOk(s) && SignalsOk(s) && OrderOk(s) && RequestsOk(s)
  {
    hide Reachable;
    ReachableInv(w, s);
  }

  lemma {:induction false} RunJoins(w: World, s: State, first: seq<Step>, rest: seq<Step>)
    requires Run(w, s, first).Some?
    ensures Run(w, s, first + rest) == Run(w, Run(w, s, first).value, rest)
  {
    hide Apply;
    if rest == [] {
      assert first + rest == first;
    } else {
      var n := |rest| - 1;
      var steps := first + rest;
      assert steps[..|steps| - 1] == first + rest[..n] && steps[|steps| - 1] == rest[n];
      RunJoins(w, s, first, rest[..n]);
    }
  }

  /** Where a run from a reachable state ends is reachable. */
  lemma ReachableOn(w: World, s: State, steps: seq<Step>)
    requires Reachable(w, s) && Run(w, s, steps).Some?
    ensures Reachable(w, Run(w, s, steps).value)
  {
    hide Run;
    var before :| Run(w, INITIAL, before) == Some(s);
    RunJoins(w, INITIAL, before, steps);
    assert Run(w, INITIAL, before + steps) == Some(Run(w, s, steps).value);
  }

  lemma RunOnce(w: World, s: State, step: Step)
    ensures Run(w, s, [step]) == Apply(w, s, step)
  {
    assert [step][..0] == [] && Run(w, s, []) == Some(s);
  }

  lemma ReachableOnce(w: World, s: State, step: Step)
    requires Reachable(w, s) && Apply(w, s, step).Some?
    ensures Reachable(w, Apply(w, s, step).value)
  {
    hide *;
    RunOnce(w, s, step);
    ReachableOn(w, s, [step]);
  }

  // ---------------------------------------------------------------- lifecycle

  predicate ListenerOpen(s: State) {
    s.main.Listening? || s.main.Spawned? || s.main.Serving? || s.main.Draining? || s.main.Stopping? || s.main.Joining?
  }

  lemma OpenHasTable(s: State)
    requires LifecycleOk(s) && StoreIsLast(s.published, s.store) && ListenerOpen(s)
    ensures s.store.Some? && s.handler
  {
  }

  lemma HangupKillsEarly(w: World, s: State)
    requires LifecycleOk(s) && Apply(w, s, Hangup).Some?
    ensures Apply(w, s, Hangup).value.main.Killed? <==> s.main.Starting?
  {
  }

  lemma ReturnedIsQuiet(w: World, s: State, r: ReloaderStep)
    requires LifecycleOk(s) && s.main.Returned?
    ensures Apply(w, s, ReloaderDoes(r)) == None
  {
  }

  /** While the listener is open there is a table to answer from. A hangup kills the process exactly
      before the handler goes in. Once `run` has returned, the reloader can take no further step. The
      reloader leaves only after cancellation or when it is stopped, and the server drains only after
      cancellation. */
  lemma Lifecycle(w: World, s: State)
    requires Reachable(w, s)
    ensures ListenerOpen(s) ==> s.store.Some? && s.handler
    ensures Apply(w, s, Hangup).Some? ==> (Apply(w, s, Hangup).value.main.Killed? <==> s.main.Starting?)
    ensures s.main.Returned? ==> forall r :: Apply(w, s, ReloaderDoes(r)) == None
    ensures s.main.Returned? ==> !s.handler
    ensures s.reloader.Exited? ==> s.cancelled || s.stopped
    ensures s.main.Draining? ==> s.cancelled
  {
    hide Run, Apply, Reachable, RequestsOk, SignalsOk, OrderOk, TablesOk;
    ReachableParts(w, s);
    StoreCurrent(w, s.clock, s);
    if ListenerOpen(s) {
      OpenHasTable(s);
    }
    if Apply(w, s, Hangup).Some? {
      HangupKillsEarly(w, s);
    }
    if s.main.Returned? {
      forall r ensures Apply(w, s, ReloaderDoes(r)) == None {
        ReturnedIsQuiet(w, s, r);
      }
    }
  }

  // ---------------------------------------------------------------- shutdown

  lemma RunFirst(w: World, s: State, step: Step, rest: seq<Step>)
    requires Apply(w, s, step).Some?
    ensures Run(w, s, [step] + rest) == Run(w, Apply(w, s, step).value, rest)
  {
    RunOnce(w, s, step);
    RunJoins(w, s, [step], rest);
  }

  /** The reloader is stopped, or about to be, and `run` waits for it. */
  predicate Closing(s: State) {
    s.main.Stopping? || (s.main.Joining? && s.stopped)
  }

  /** How many steps are enough for `run` to return. */
  function StepsToReturn(s: State): nat {
    if s.main.Stopping? then 6
    else
      match s.reloader
      case Reloading(Trigger) => 5
      case Reloading(Building(_, _, _, _, _, _)) => 4
      case Logging => 3
      case Selecting => 2
      case _ => 1
  }

  /** A step that brings the return of `run` closer. */
  function ClosingStep(s: State): Step {
    if s.main.Stopping? then MainDoes(StopReload)
    else
      match s.reloader
      case Reloading(_) => ReloaderDoes(Advance)
      case Logging => ReloaderDoes(Log)
      case Selecting => ReloaderDoes(Exit)
      case _ => MainDoes(Join)
  }

  lemma StoppedLoadEnds(w: World, now: nat, l: Loading)
    requires l.Building?
    ensures !Load(w, now, true, l).Continue?
  {
  }

  lemma StoppedReloadEnds(w: World, s: State)
    requires s.stopped && s.reloader.Reloading?
    ensures var t := Reloaded(s, Load(w, s.clock, s.cancelled || s.stopped, s.reloader.loading));
      && t.main == s.main && t.stopped
      && (t.reloader.Logging? ||
          (s.reloader.loading.Trigger? && t.reloader.Reloading? && t.reloader.loading.Building?))
  {
    if s.reloader.loading.Building? {
      StoppedLoadEnds(w, s.clock, s.reloader.loading);
    }
  }

  lemma ClosingStepCloser(w: World, s: State)
    requires Closing(s) && !s.reloader.NotStarted?
    ensures Apply(w, s, ClosingStep(s)).Some?
    ensures var t := Apply(w, s, ClosingStep(s)).value;
      t.main.Returned? || (Closing(t) && !t.reloader.NotStarted? && StepsToReturn(t) < StepsToReturn(s))
  {
    hide Load;
    if s.main.Joining? && s.reloader.Reloading? {
      StoppedReloadEnds(w, s);
    }
  }

  lemma {:induction false} CanReturnFrom(w: World, s: State) returns (steps: seq<Step>)
    requires Closing(s) && !s.reloader.NotStarted?
    ensures |steps| <= StepsToReturn(s)
    ensures forall step <- steps :: step.MainDoes? || step.ReloaderDoes?
    ensures Run(w, s, steps).Some? && Run(w, s, steps).value.main.Returned?
    decreases StepsToReturn(s)
  {
    hide Apply;
    ClosingStepCloser(w, s);
    var first := ClosingStep(s);
    var t := Apply(w, s, first).value;
    var rest := [];
    if !t.main.Returned? {
      rest := CanReturnFrom(w, t);
    }
    RunFirst(w, s, first, rest);
    steps := [first] + rest;
  }

  /** The join can always complete: once the server has stopped, at most six steps of `run` and the
      reloader alone bring `run` to its return, whatever the reload in progress still has to load. */
  lemma JoinCompletes(w: World, s: State) returns (steps: seq<Step>)
    requires Reachable(w, s) && (s.main.Stopping? || s.main.Joining?)
    ensures |steps| <= 6
    ensures forall step <- steps :: step.MainDoes? || step.ReloaderDoes?
    ensures Run(w, s, steps).Some? && Run(w, s, steps).value.main.Returned?
  {
    hide Run, Apply, Reachable, TablesOk, SignalsOk, OrderOk, RequestsOk;
    ReachableParts(w, s);
    steps := CanReturnFrom(w, s);
  }

  // ---------------------------------------------------------------- the store

  /** How the load that a step takes part in comes out, if it takes part in one. */
  ghost function LoadedBy(w: World, s: State, step: Step): Option<Progress> {
    if step == MainDoes(LoadFirst) && s.main.FirstLoad? then
      Some(Load(w, s.clock, s.cancelled, s.main.loading))
    else if step == ReloaderDoes(Advance) && s.reloader.Reloading? then
      Some(Load(w, s.clock, s.cancelled || s.stopped, s.reloader.loading))
    else None
  }

  /** From `s` to `t` the one complete table that a load finished is published and put in the store;
      without one, both are left alone. */
  predicate StoreFollows(complete: Publication -> bool, s: State, t: State, loaded: Option<Progress>) {
    match loaded
    case Some(Swap(p)) => complete(p) && t.published == s.published + [p] && t.store == Some(p.snap)
    case _ => t.store == s.store && t.published == s.published
  }

  lemma FirstLoadStores(complete: Publication -> bool, s: State, p: Progress)
    requires s.main.FirstLoad? && (p.Swap? ==> complete(p.table))
    ensures StoreFollows(complete, s, FirstLoaded(s, p), Some(p))
  {
  }

  lemma ReloadStores(complete: Publication -> bool, s: State, p: Progress)
    requires s.reloader.Reloading? && (p.Swap? ==> complete(p.table))
    ensures StoreFollows(complete, s, Reloaded(s, p), Some(p))
  {
  }

  /** The load a step takes part in, if it finishes, finishes a complete table. */
  lemma LoadedComplete(w: World, s: State, step: Step)
    requires TablesOk(w, s.clock, s) && LoadedBy(w, s, step).Some?
    ensures ProgressWith(GoodLoading(w, s.clock + 1), CompleteTable(w, s.clock + 1), LoadedBy(w, s, step).value)
  {
    hide Load;
    if step.MainDoes? {
      LoadProgresses(w, s.clock, s.cancelled, s.main.loading);
    } else {
      LoadProgresses(w, s.clock, s.cancelled || s.stopped, s.reloader.loading);
    }
  }

  lemma LoadStores(w: World, s: State, step: Step, complete: Publication -> bool)
    requires LoadedBy(w, s, step).Some? && StepApply(w, s, step).Some?
    requires var p := LoadedBy(w, s, step).value; p.Swap? ==> complete(p.table)
    ensures StoreFollows(complete, s, StepApply(w, s, step).value, LoadedBy(w, s, step))
  {
    hide Load;
    if step.MainDoes? {
      FirstLoadStores(complete, s, Load(w, s.clock, s.cancelled, s.main.loading));
    } else {
      ReloadStores(complete, s, Load(w, s.clock, s.cancelled || s.stopped, s.reloader.loading));
    }
  }

  lemma MainKeepsStore(w: World, s: State, m: MainStep, complete: Publication -> bool)
    requires MainApply(w, s, m).Some? && !m.LoadFirst?
    ensures StoreFollows(complete, s, MainApply(w, s, m).value, None)
  {
  }

  lemma ReloaderKeepsStore(w: World, s: State, r: ReloaderStep, complete: Publication -> bool)
    requires ReloaderApply(w, s, r).Some? && !r.Advance?
    ensures StoreFollows(complete, s, ReloaderApply(w, s, r).value, None)
  {
  }

  lemma OtherKeepsStore(w: World, s: State, step: Step, complete: Publication -> bool)
    requires LoadedBy(w, s, step).None? && StepApply(w, s, step).Some?
    ensures StoreFollows(complete, s, StepApply(w, s, step).value, None)
  {
    hide Load;
    match step
    case MainDoes(m) => MainKeepsStore(w, s, m, complete);
    case ReloaderDoes(r) => ReloaderKeepsStore(w, s, r, complete);
    case _ =>
  }

  lemma StepKeepsStore(w: World, s: State, step: Step)
    requires TablesOk(w, s.clock, s) && StepApply(w, s, step).Some?
    ensures StoreFollows(CompleteTable(w, s.clock + 1), s, StepApply(w, s, step).value, LoadedBy(w, s, step))
  {
    hide Load, LoadedBy, TablesOk, StepApply;
    if LoadedBy(w, s, step).Some? {
      LoadedComplete(w, s, step);
      LoadStores(w, s, step, CompleteTable(w, s.clock + 1));
    } else {
      OtherKeepsStore(w, s, step, CompleteTable(w, s.clock + 1));
    }
  }

  /** The table in service is replaced by exactly the steps that finish a load, each time by the one
      complete table loaded. A load that fails or is still going, and every other step, changes
      nothing; so the table, once there, is never unset. */
  lemma TableReplacedWhole(w: World, s: State, step: Step)
    requires Reachable(w, s) && Apply(w, s, step).Some?
    ensures StoreFollows(CompleteTable(w, s.clock + 1), s, Apply(w, s, step).value, LoadedBy(w, s, step))
    ensures LoadedBy(w, s, step) == Some(Failed) ==>
      Apply(w, s, step).value.store == s.store && Apply(w, s, step).value.published == s.published
  {
    hide Load, LoadedBy, TablesOk, StepApply, Reachable;
    ReachableInv(w, s);
    StepKeepsStore(w, s, step);
  }

  /** A reload fails exactly when the configuration is unusable as it is read, or when the context is
      found done with a backend still to load: cancelling during the last fetch is too late. */
  lemma ReloadFailsExactly(w: World, now: nat, done: bool, l: Loading)
    requires LoadingOk(w, now, l)
    ensures Load(w, now, done, l).Failed? <==>
      match l {
        case Trigger => !exists c :: ConfigAt(w, c, now)
        case Building(c, _, _, entries, _, _) => done && entries.Keys != c.targets.Keys
      }
  {
    match l
    case Trigger =>
      if exists c :: ConfigAt(w, c, now) {
        var c :| ConfigAt(w, c, now);
      } else if w.decoded(now).Some? {
        assert !ConfigAt(w, w.decoded(now).value, now);
      }
    case Building(c, names, k, entries, _, _) =>
      if k < |names| {
        assert names[k] in Elements(names) && names[k] !in Elements(names[..k]);
      } else {
        assert names[..k] == names;
      }
  }

  /** What the build that made a table was given for its `i`th name. */
  ghost function FetchFor(w: World, p: Publication): (nat, string) -> Loaded {
    (i: nat, source: string) => FetchAt(w, p, i, source)
  }

  ghost function FetchAt(w: World, p: Publication, i: nat, source: string): Loaded {
    var names := NamesOf(p.snap.config);
    w.load(if i < |names| && names[i] in p.loadedAt then p.loadedAt[names[i]] else 0, source)
  }

  /** A table put in service step by step, with everything else going on in between, is the one that
      a single call of `Build` returns. */
  lemma CompleteIsBuilt(w: World, now: nat, p: Publication)
    requires Complete(w, now, p)
    ensures forall snap :: Built(w.digest, p.snap.config, FetchFor(w, p), snap) <==> snap == p.snap
  {
    hide BuiltUpTo, EntryFor, SortedSeq;
    CompleteBuilt(w, now, p);
    forall snap | Built(w.digest, p.snap.config, FetchFor(w, p), snap) ensures snap == p.snap {
      BuiltUnique(w.digest, p.snap.config, FetchFor(w, p), snap, p.snap);
    }
  }

  lemma CompleteBuilt(w: World, now: nat, p: Publication)
    requires Complete(w, now, p)
    ensures Built(w.digest, p.snap.config, FetchFor(w, p), p.snap)
  {
    var c := p.snap.config;
    var names := NamesOf(c);
    assert names[..|names|] == names;
    forall i: nat | i < |names| ensures EntryFetched(w.digest, c, FetchFor(w, p), p.snap.entries, i) {
      NameIsTarget(c, i);
      assert FetchFor(w, p)(i, c.targets[names[i]].attestation) == FetchAt(w, p, i, c.targets[names[i]].attestation);
    }
  }

  // ---------------------------------------------------------------- hangups

  predicate Running(r: Reloader) {
    r.Selecting? || r.Reloading? || r.Logging?
  }

  lemma NeverBlocked(w: World, s: State)
    requires Pending(s) && SignalsOk(s) && Running(s.reloader) && !s.main.Killed?
    ensures exists r: ReloaderStep :: r != Exit && Apply(w, s, ReloaderDoes(r)).Some?
  {
    var r := if s.reloader.Selecting? then Receive else if s.reloader.Logging? then Log else Advance;
    assert Apply(w, s, ReloaderDoes(r)).Some?;
  }

  lemma RunningIsAlive(s: State)
    requires LifecycleOk(s) && Running(s.reloader)
    ensures !s.main.Killed?
  {
  }

  lemma HangupPends(w: World, s: State)
    requires LifecycleOk(s) && SignalsOk(s) && s.handler
    ensures Apply(w, s, Hangup) == Some(s.(slot := true, lastHup := Some(s.clock), clock := s.clock + 1))
    ensures Pending(Apply(w, s, Hangup).value)
  {
  }

  /** No hangup is lost. With the handler in, each one is pending as soon as it comes, and leaves
      everything else as it was. Though a full slot drops signals, until a reload reads the
      configuration after the last one, the slot is full or such a reload is about to read it, and a
      running reloader always has a step that brings it closer. */
  lemma NoHangupLost(w: World, s: State)
    requires Reachable(w, s)
    ensures s.handler ==>
      && Apply(w, s, Hangup) == Some(s.(slot := true, lastHup := Some(s.clock), clock := s.clock + 1))
      && Pending(Apply(w, s, Hangup).value)
    ensures Pending(s) ==> s.slot || s.reloader == Reloading(Trigger)
    ensures Pending(s) && Running(s.reloader) ==>
      exists r: ReloaderStep :: r != Exit && Apply(w, s, ReloaderDoes(r)).Some?
  {
    hide Run, Apply, Reachable, TablesOk, OrderOk, RequestsOk;
    ReachableParts(w, s);
    if s.handler {
      HangupPends(w, s);
    }
    if Pending(s) && Running(s.reloader) {
      RunningIsAlive(s);
      NeverBlocked(w, s);
    }
  }

  /** How many of its own steps the reloader is from reading the configuration. */
  function StepsToRead(r: Reloader): nat {
    match r
    case Reloading(Trigger) => 1
    case Selecting => 2
    case Logging => 3
    case Reloading(Building(_, names, k, _, _, _)) => if k < |names| then |names| - k + 4 else 4
    case _ => 0
  }

  /** The reloader's own steps in a run. */
  function ReloaderSteps(steps: seq<Step>): nat {
    if steps == [] then 0
    else
      var n := |steps| - 1;
      ReloaderSteps(steps[..n]) + if steps[n].ReloaderDoes? then 1 else 0
  }

  /** The configuration was read after time `h`. */
  predicate ReadSince(s: State, h: nat) {
    s.lastRead.Some? && s.lastRead.value > h
  }

  /** A reloader's step brings the next read of the configuration one closer. */
  predicate Closer(s: State, t: State, h: nat) {
    && Running(t.reloader)
    && (ReadSince(s, h) ==> ReadSince(t, h))
    && (ReadSince(t, h) || StepsToRead(t.reloader) < StepsToRead(s.reloader))
  }

  /** A step of anything else leaves the reloader where it was. */
  predicate NoFurther(s: State, t: State) {
    t.reloader == s.reloader && t.lastRead == s.lastRead
  }

  lemma LoadGetsCloser(w: World, now: nat, done: bool, l: Loading)
    requires l.Building? && Load(w, now, done, l).Continue?
    ensures StepsToRead(Reloading(Load(w, now, done, l).loading)) < StepsToRead(Reloading(l))
  {
  }

  lemma ReloadGetsCloser(s: State, p: Progress, h: nat)
    requires s.reloader.Reloading? && h < s.clock
    requires s.reloader.loading.Building? && p.Continue? ==>
      StepsToRead(Reloading(p.loading)) < StepsToRead(s.reloader)
    ensures Closer(s, Reloaded(s, p), h)
  {
  }

  lemma ReloaderGetsCloser(w: World, s: State, r: ReloaderStep, h: nat)
    requires h < s.clock && r != Exit && ReloaderApply(w, s, r).Some?
    ensures Closer(s, ReloaderApply(w, s, r).value, h)
  {
    if r.Advance? {
      var done := s.cancelled || s.stopped;
      if s.reloader.loading.Building? && Load(w, s.clock, done, s.reloader.loading).Continue? {
        LoadGetsCloser(w, s.clock, done, s.reloader.loading);
      }
      ReloadGetsCloser(s, Load(w, s.clock, done, s.reloader.loading), h);
    }
  }

  lemma MainLeavesReloader(w: World, s: State, m: MainStep)
    requires LifecycleOk(s) && Running(s.reloader) && MainApply(w, s, m).Some?
    ensures NoFurther(s, MainApply(w, s, m).value)
  {
  }

  lemma StepGetsCloser(w: World, s: State, step: Step, h: nat)
    requires LifecycleOk(s) && Running(s.reloader) && h < s.clock
    requires step != ReloaderDoes(Exit) && StepApply(w, s, step).Some?
    ensures if step.ReloaderDoes? then Closer(s, StepApply(w, s, step).value, h)
            else NoFurther(s, StepApply(w, s, step).value)
  {
    match step
    case MainDoes(m) => MainLeavesReloader(w, s, m);
    case ReloaderDoes(r) => ReloaderGetsCloser(w, s, r, h);
    case _ =>
  }

  lemma {:induction false} RunGetsCloser(w: World, s: State, steps: seq<Step>, h: nat)
    requires Inv(w, s) && Running(s.reloader) && h < s.clock
    requires Run(w, s, steps).Some? && ReloaderDoes(Exit) !in steps
    ensures var t := Run(w, s, steps).value;
      && Running(t.reloader) && s.clock <= t.clock
      && (ReadSince(t, h) || StepsToRead(t.reloader) + ReloaderSteps(steps) <= StepsToRead(s.reloader))
  {
    if steps == [] {
    } else {
      var n := |steps| - 1;
      RunGetsCloser(w, s, steps[..n], h);
      RunKeepsInv(w, s, steps[..n]);
      StepGetsCloser(w, Run(w, s, steps[..n]).value, steps[n], h);
    }
  }

  lemma StillToRead(r: Reloader)
    requires Running(r)
    ensures StepsToRead(r) > 0
  {
  }

  lemma ServedAfter(w: World, s: State, steps: seq<Step>, h: nat)
    requires Inv(w, s) && Running(s.reloader) && h < s.clock
    requires Run(w, s, steps).Some? && ReloaderDoes(Exit) !in steps
    requires ReloaderSteps(steps) >= StepsToRead(s.reloader)
    ensures ReadSince(Run(w, s, steps).value, h)
  {
    RunGetsCloser(w, s, steps, h);
    StillToRead(Run(w, s, steps).value.reloader);
  }

  /** However long it has been pending, a hangup is served within a bounded number of the reloader's
      own steps. */
  lemma PendingServed(w: World, s: State, steps: seq<Step>)
    requires Reachable(w, s) && Pending(s) && Running(s.reloader)
    requires Run(w, s, steps).Some? && ReloaderDoes(Exit) !in steps
    requires ReloaderSteps(steps) >= StepsToRead(s.reloader)
    ensures ReadSince(Run(w, s, steps).value, s.lastHup.value)
  {
    ReachableInv(w, s);
    ServedAfter(w, s, steps, s.lastHup.value);
  }

  lemma RunningHandles(s: State)
    requires LifecycleOk(s) && Running(s.reloader)
    ensures s.handler
  {
  }

  /** A hangup that comes while the reloader runs is served: the configuration is read after it came,
      within a bounded number of the reloader's own steps, whatever the rest of the process does in
      between and whatever becomes of a reload in progress: one for each backend that reload still has
      to load, and at most four more. */
  lemma HangupServed(w: World, s: State, steps: seq<Step>)
    requires Reachable(w, s) && Running(s.reloader) && Apply(w, s, Hangup).Some?
    requires Run(w, Apply(w, s, Hangup).value, steps).Some? && ReloaderDoes(Exit) !in steps
    requires ReloaderSteps(steps) >= StepsToRead(s.reloader)
    ensures ReadSince(Run(w, Apply(w, s, Hangup).value, steps).value, s.clock)
  {
    hide *;
    ReachableParts(w, s);
    RunningHandles(s);
    HangupPends(w, s);
    ReachableOnce(w, s, Hangup);
    PendingServed(w, Apply(w, s, Hangup).value, steps);
  }

  lemma TriggerTaken(w: World, s: State, trigger: ReloaderStep)
    requires s.reloader.Selecting? && !s.main.Killed? && (trigger == Tick || (trigger == Receive && s.slot))
    ensures Apply(w, s, ReloaderDoes(trigger)) ==
            Some(s.(reloader := Reloading(Trigger), slot := trigger == Tick && s.slot, clock := s.clock + 1))
  {
    hide Load;
  }

  lemma TriggerReads(w: World, s: State)
    requires s.reloader == Reloading(Trigger) && !s.main.Killed?
    ensures Apply(w, s, ReloaderDoes(Advance)).Some?
    ensures var t := Apply(w, s, ReloaderDoes(Advance)).value;
      && t.lastRead == Some(s.clock) && t.main == s.main && t.cancelled == s.cancelled && t.stopped == s.stopped
      && (Load(w, s.clock, s.cancelled || s.stopped, Trigger).Continue? ==>
            t.reloader == Reloading(Load(w, s.clock, s.cancelled || s.stopped, Trigger).loading))
  {
    hide Load;
  }

  /** A tick, or a signal in the slot, has the configuration read by the reloader's next step. */
  lemma TickReads(w: World, s: State, trigger: ReloaderStep)
    requires s.reloader.Selecting? && !s.main.Killed? && (trigger == Tick || (trigger == Receive && s.slot))
    ensures var t := Run(w, s, [ReloaderDoes(trigger), ReloaderDoes(Advance)]);
      t.Some? && t.value.lastRead == Some(s.clock + 1)
  {
    hide *;
    var first, second := ReloaderDoes(trigger), ReloaderDoes(Advance);
    TriggerTaken(w, s, trigger);
    TriggerReads(w, Apply(w, s, first).value);
    RunFirst(w, s, first, [second]);
    assert [first] + [second] == [first, second];
    RunOnce(w, Apply(w, s, first).value, second);
  }

  // ---------------------------------------------------------------- requests

  /** Every answer is the decision of one complete table, published no earlier than the last one
      before the request came and no later than the answer, and never touched since. */
  lemma AnsweredFromOneTable(w: World, s: State, i: nat)
    requires Reachable(w, s) && i < |s.requests| && s.requests[i].phase.Answered?
    ensures var r := s.requests[i];
      && 1 <= r.arrivedAt <= r.readAt <= r.phase.answeredAt <= |s.published|
      && Complete(w, s.clock, s.published[r.readAt - 1])
      && Answers(Some(s.published[r.readAt - 1].snap), r.m, r.targets, r.phase.answer)
      && !r.phase.answer.Unavailable?
  {
    ReachableInv(w, s);
    AnswerInBounds(s, i);
    TableIsComplete(w, s.clock, s, s.requests[i].readAt - 1);
  }

  lemma AnswerInBounds(s: State, i: nat)
    requires RequestsOk(s) && i < |s.requests| && s.requests[i].phase.Answered?
    ensures var r := s.requests[i];
      && 1 <= r.arrivedAt <= r.readAt <= r.phase.answeredAt <= |s.published|
      && Answers(Some(s.published[r.readAt - 1].snap), r.m, r.targets, r.phase.answer)
      && !r.phase.answer.Unavailable?
  {
    assert RequestOk(s, s.requests[i]);
  }

  lemma TableIsComplete(w: World, now: nat, s: State, k: nat)
    requires TablesOk(w, now, s) && k < |s.published|
    ensures Complete(w, now, s.published[k])
  {
    assert CompleteTable(w, now)(s.published[k]);
  }

  predicate HasRead(r: Request) {
    !r.phase.Arrived?
  }

  /** From `s` to `t` no request is lost, none reads twice, and those that read in between read a
      table at least as late as the last of `s`. */
  predicate ReadsForward(s: State, t: State) {
    && |s.requests| <= |t.requests| && |s.published| <= |t.published|
    && (forall i :: 0 <= i < |s.requests| && HasRead(s.requests[i]) ==>
          HasRead(t.requests[i]) && t.requests[i].readAt == s.requests[i].readAt)
    && (forall i | 0 <= i < |t.requests| && HasRead(t.requests[i]) && (i < |s.requests| ==> !HasRead(s.requests[i])) ::
          |s.published| <= t.requests[i].readAt)
  }

  lemma StepReadsForward(w: World, s: State, step: Step)
    requires StepApply(w, s, step).Some?
    ensures ReadsForward(s, StepApply(w, s, step).value)
  {
    match step
    case MainDoes(m) => MainExtends(w, s, m);
    case ReloaderDoes(r) => ReloaderExtends(w, s, r);
    case _ =>
  }

  lemma {:induction false} RunReadsForward(w: World, s: State, steps: seq<Step>)
    requires Run(w, s, steps).Some?
    ensures ReadsForward(s, Run(w, s, steps).value)
  {
    if steps == [] {
    } else {
      var n := |steps| - 1;
      RunReadsForward(w, s, steps[..n]);
      StepReadsForward(w, Run(w, s, steps[..n]).value, steps[n]);
    }
  }

  lemma {:induction false} RunExtends(w: World, s: State, steps: seq<Step>)
    requires Run(w, s, steps).Some?
    ensures PublishedExtends(s, Run(w, s, steps).value)
  {
    if steps == [] {
    } else {
      var n := |steps| - 1;
      RunExtends(w, s, steps[..n]);
      StepExtends(w, Run(w, s, steps[..n]).value, steps[n]);
    }
  }

  lemma StepExtends(w: World, s: State, step: Step)
    requires StepApply(w, s, step).Some?
    ensures PublishedExtends(s, StepApply(w, s, step).value)
  {
    match step
    case MainDoes(m) => MainExtends(w, s, m);
    case ReloaderDoes(r) => ReloaderExtends(w, s, r);
    case _ =>
  }

  lemma TablesDated(w: World, now: nat, s: State)
    requires TablesOk(w, now, s)
    ensures forall k :: 0 <= k < |s.published| ==> s.published[k].readAt < s.published[k].swappedAt
  {
    forall k | 0 <= k < |s.published| ensures s.published[k].readAt < s.published[k].swappedAt {
      TableIsComplete(w, now, s, k);
    }
  }

  lemma ReadInBounds(s: State, i: nat)
    requires RequestsOk(s) && i < |s.requests| && HasRead(s.requests[i])
    ensures 1 <= s.requests[i].readAt <= |s.published|
  {
    assert RequestOk(s, s.requests[i]);
  }

  /** Published tables never go backwards: a request that reads later than another reads the same
      table, or one built from a configuration read after that other went into service. */
  lemma VersionsNeverGoBack(w: World, s: State, steps: seq<Step>, i: nat, j: nat)
    requires Reachable(w, s) && Run(w, s, steps).Some?
    requires i < |s.requests| && HasRead(s.requests[i])
    requires var t := Run(w, s, steps).value;
      j < |t.requests| && HasRead(t.requests[j]) && (j < |s.requests| ==> !HasRead(s.requests[j]))
    ensures var t := Run(w, s, steps).value;
      && i < |t.requests| && s.requests[i].readAt == t.requests[i].readAt
      && 1 <= t.requests[i].readAt <= t.requests[j].readAt <= |t.published|
      && (t.requests[i].readAt < t.requests[j].readAt ==>
            t.published[t.requests[i].readAt - 1].swappedAt < t.published[t.requests[j].readAt - 1].readAt)
  {
    hide *;
    var t := Run(w, s, steps).value;
    ReachableParts(w, s);
    ReachableOn(w, s, steps);
    ReachableParts(w, t);
    ReadInBounds(s, i);
    ReadInBounds(t, j);
    VersionsForward(w, s, steps, i, j);
    if t.requests[i].readAt < t.requests[j].readAt {
      InOrder(t, t.requests[i].readAt - 1, t.requests[j].readAt - 1);
    }
  }

  lemma VersionsForward(w: World, s: State, steps: seq<Step>, i: nat, j: nat)
    requires Run(w, s, steps).Some?
    requires i < |s.requests| && HasRead(s.requests[i]) && s.requests[i].readAt <= |s.published|
    requires var t := Run(w, s, steps).value;
      j < |t.requests| && HasRead(t.requests[j]) && (j < |s.requests| ==> !HasRead(s.requests[j]))
    ensures var t := Run(w, s, steps).value;
      i < |t.requests| && s.requests[i].readAt == t.requests[i].readAt <= t.requests[j].readAt
  {
    hide Run;
    RunReadsForward(w, s, steps);
  }

  lemma InOrder(s: State, i: nat, j: nat)
    requires OrderOk(s) && i < j < |s.published|
    ensures s.published[i].swappedAt < s.published[j].readAt
  {
  }

  /** A hangup takes effect. Once a reload that started after it has put its table in service, every
      request that reads from then on is decided by a configuration read after the hangup. */
  lemma HangupTakesEffect(w: World, s: State, steps: seq<Step>, h: nat, i: nat)
    requires Reachable(w, s) && ReadSince(s, h)
    requires Apply(w, s, ReloaderDoes(Advance)).Some?
    requires LoadedBy(w, s, ReloaderDoes(Advance)).Some? && LoadedBy(w, s, ReloaderDoes(Advance)).value.Swap?
    requires Run(w, Apply(w, s, ReloaderDoes(Advance)).value, steps).Some?
    requires var t := Apply(w, s, ReloaderDoes(Advance)).value; var u := Run(w, t, steps).value;
      i < |u.requests| && HasRead(u.requests[i]) && (i < |t.requests| ==> !HasRead(t.requests[i]))
    ensures var u := Run(w, Apply(w, s, ReloaderDoes(Advance)).value, steps).value;
      1 <= u.requests[i].readAt <= |u.published| && u.published[u.requests[i].readAt - 1].readAt > h
  {
    hide *;
    var t := Apply(w, s, ReloaderDoes(Advance)).value;
    var u := Run(w, t, steps).value;
    ReachableParts(w, s);
    ReloadDated(w, s, h);
    ReachableOnce(w, s, ReloaderDoes(Advance));
    ReachableOn(w, t, steps);
    ReachableParts(w, u);
    TablesDated(w, u.clock, u);
    RunExtends(w, t, steps);
    RunReadsForward(w, t, steps);
    ReadInBounds(u, i);
    LateReadDated(t, u, h, i);
  }

  /** The table that the reload puts in service was built from a configuration read after `h`. */
  lemma ReloadDated(w: World, s: State, h: nat)
    requires OrderOk(s) && ReadSince(s, h) && Apply(w, s, ReloaderDoes(Advance)).Some?
    requires LoadedBy(w, s, ReloaderDoes(Advance)).Some? && LoadedBy(w, s, ReloaderDoes(Advance)).value.Swap?
    ensures var t := Apply(w, s, ReloaderDoes(Advance)).value;
      t.published != [] && t.published[|t.published| - 1].readAt > h
  {
    hide Load;
    LoadTimes(w, s.clock, s.cancelled || s.stopped, s.reloader.loading);
  }

  lemma LateReadDated(t: State, u: State, h: nat, i: nat)
    requires OrderOk(u) && PublishedExtends(t, u) && ReadsForward(t, u)
    requires t.published != [] && t.published[|t.published| - 1].readAt > h
    requires forall k :: 0 <= k < |u.published| ==> u.published[k].readAt < u.published[k].swappedAt
    requires i < |u.requests| && HasRead(u.requests[i]) && (i < |t.requests| ==> !HasRead(t.requests[i]))
    requires 1 <= u.requests[i].readAt <= |u.published|
    ensures u.published[u.requests[i].readAt - 1].readAt > h
  {
    var last := |t.published| - 1;
    assert u.published[last] == u.published[..|t.published|][last] == t.published[last];
    if u.requests[i].readAt - 1 > last {
      InOrder(u, last, u.requests[i].readAt - 1);
    }
  }

  // ---------------------------------------------------------------- answering and draining

  /** How many of its own steps a request is from its answer, at most. */
  function StepsToAnswer(r: Request): nat {
    match r.phase
    case Arrived => |r.targets| + 2
    case Judging(_, k, _) => if k < |r.targets| then |r.targets| - k + 1 else 1
    case Answered(_, _) => 0
  }

  /** The step that request `i` has next. */
  function OwnStep(s: State, i: nat): Step
    requires i < |s.requests|
  {
    if s.requests[i].phase.Arrived? then Read(i) else Judge(i)
  }

  predicate IsOwnStep(step: Step, i: nat) {
    step == Read(i) || step == Judge(i)
  }

  /** The steps of a run that are request `i`'s own. */
  function OwnSteps(steps: seq<Step>, i: nat): nat {
    if steps == [] then 0
    else
      var n := |steps| - 1;
      OwnSteps(steps[..n], i) + if IsOwnStep(steps[n], i) then 1 else 0
  }

  /** From `s` to `t` request `i` stays the same request, `d` of its own steps closer to its answer. */
  predicate Answering(s: State, t: State, i: nat, d: nat) {
    && i < |s.requests| && i < |t.requests|
    && t.requests[i].m == s.requests[i].m && t.requests[i].targets == s.requests[i].targets
    && StepsToAnswer(t.requests[i]) + d <= StepsToAnswer(s.requests[i])
  }

  lemma ReadAnswers(s: State, r: Request)
    requires r.phase.Arrived?
    ensures var q := ReadStore(s, r); q.m == r.m && q.targets == r.targets && StepsToAnswer(q) < StepsToAnswer(r)
  {
  }

  lemma JudgeAnswers(s: State, r: Request)
    requires r.phase.Judging?
    ensures var q := JudgeNext(s, r); q.m == r.m && q.targets == r.targets && StepsToAnswer(q) < StepsToAnswer(r)
  {
    hide DecisionOn;
  }

  lemma StepAnswers(w: World, s: State, step: Step, i: nat)
    requires i < |s.requests| && StepApply(w, s, step).Some?
    ensures Answering(s, StepApply(w, s, step).value, i, if IsOwnStep(step, i) then 1 else 0)
  {
    hide ReadStore, JudgeNext, StepsToAnswer, Load;
    match step
    case MainDoes(m) => MainExtends(w, s, m);
    case ReloaderDoes(r) => ReloaderExtends(w, s, r);
    case Read(k) => ReadAnswers(s, s.requests[k]);
    case Judge(k) => JudgeAnswers(s, s.requests[k]);
    case _ =>
  }

  lemma {:induction false} RunAnswers(w: World, s: State, steps: seq<Step>, i: nat)
    requires i < |s.requests| && Run(w, s, steps).Some?
    ensures Answering(s, Run(w, s, steps).value, i, OwnSteps(steps, i))
  {
    hide StepApply, StepsToAnswer;
    if steps == [] {
    } else {
      var n := |steps| - 1;
      RunAnswers(w, s, steps[..n], i);
      StepAnswers(w, Run(w, s, steps[..n]).value, steps[n], i);
    }
  }

  /** A request's own step is there until it is answered. */
  lemma OwnStepEnabled(w: World, s: State, i: nat)
    requires LifecycleOk(s) && i < |s.requests| && !s.requests[i].phase.Answered?
    ensures Apply(w, s, OwnStep(s, i)).Some?
  {
  }

  /** A request never waits for anything but itself, and is answered within two steps more than the
      backends it names, whatever else happens between them. */
  lemma RequestAnswered(w: World, s: State, steps: seq<Step>, i: nat)
    requires Reachable(w, s) && i < |s.requests| && Run(w, s, steps).Some?
    ensures !s.requests[i].phase.Answered? ==> Apply(w, s, OwnStep(s, i)).Some?
    ensures OwnSteps(steps, i) <= |s.requests[i].targets| + 2
    ensures var t := Run(w, s, steps).value;
      i < |t.requests| && (OwnSteps(steps, i) == |s.requests[i].targets| + 2 ==> t.requests[i].phase.Answered?)
  {
    hide Run, Apply, Reachable, TablesOk, SignalsOk, OrderOk, LifecycleOk;
    ReachableParts(w, s);
    if !s.requests[i].phase.Answered? {
      OwnStepEnabled(w, s, i);
    }
    RunAnswers(w, s, steps, i);
  }

  /** The steps that all requests together still have to take. */
  function StepsToDrain(requests: seq<Request>): nat {
    if requests == [] then 0
    else
      var n := |requests| - 1;
      StepsToDrain(requests[..n]) + StepsToAnswer(requests[n])
  }

  lemma {:induction false} StepsToDrainReplaced(requests: seq<Request>, i: nat, r: Request)
    requires i < |requests| && StepsToAnswer(r) < StepsToAnswer(requests[i])
    ensures StepsToDrain(requests[i := r]) < StepsToDrain(requests)
  {
    hide StepsToAnswer;
    var n := |requests| - 1;
    var after := requests[i := r];
    if i == n {
      assert after[..n] == requests[..n];
    } else {
      assert after[..n] == requests[..n][i := r];
      StepsToDrainReplaced(requests[..n], i, r);
    }
  }

  /** One request's own step touches nothing else, and leaves less to drain. */
  lemma OwnStepDrains(w: World, s: State, i: nat)
    requires i < |s.requests| && !s.requests[i].phase.Answered? && !s.main.Killed?
    ensures Apply(w, s, OwnStep(s, i)).Some?
    ensures var t := Apply(w, s, OwnStep(s, i)).value;
      t.main == s.main && t.reloader == s.reloader && StepsToDrain(t.requests) < StepsToDrain(s.requests)
  {
    hide ReadStore, JudgeNext, StepsToDrain, StepsToAnswer, MainApply, ReloaderApply;
    var r := s.requests[i];
    if r.phase.Arrived? {
      ReadAnswers(s, r);
      StepsToDrainReplaced(s.requests, i, ReadStore(s, r));
    } else {
      JudgeAnswers(s, r);
      StepsToDrainReplaced(s.requests, i, JudgeNext(s, r));
    }
  }

  lemma DrainedEnabled(w: World, s: State)
    requires s.main.Draining? && forall r <- s.requests :: r.phase.Answered?
    ensures Apply(w, s, MainDoes(Drained)).Some?
    ensures var t := Apply(w, s, MainDoes(Drained)).value; t.main.Stopping? && t.reloader == s.reloader
  {
  }

  lemma {:induction false} CanDrain(w: World, s: State) returns (steps: seq<Step>)
    requires s.main.Draining? && !s.reloader.NotStarted?
    ensures |steps| <= StepsToDrain(s.requests) + 7
    ensures Run(w, s, steps).Some? && Run(w, s, steps).value.main.Returned?
    decreases StepsToDrain(s.requests)
  {
    hide Apply, Run, StepsToDrain, OwnStep;
    var first: Step;
    var rest: seq<Step>;
    if i: nat :| i < |s.requests| && !s.requests[i].phase.Answered? {
      first := OwnStep(s, i);
      OwnStepDrains(w, s, i);
      rest := CanDrain(w, Apply(w, s, first).value);
    } else {
      first := MainDoes(Drained);
      DrainedEnabled(w, s);
      rest := CanReturnFrom(w, Apply(w, s, first).value);
    }
    RunFirst(w, s, first, rest);
    steps := [first] + rest;
  }

  lemma DrainEnabled(w: World, s: State)
    requires s.main.Serving? && s.cancelled
    ensures Apply(w, s, MainDoes(Drain)).Some?
    ensures var t := Apply(w, s, MainDoes(Drain)).value;
      t.main.Draining? && t.reloader == s.reloader && t.requests == s.requests
  {
  }

  lemma RunningHasReloader(s: State)
    requires LifecycleOk(s) && (s.main.Serving? || s.main.Draining?)
    ensures !s.reloader.NotStarted?
  {
  }

  /** Cancellation can always be followed through: with the server running, so many steps as the
      calls in progress still have to take, and eight more, bring `run` to its return. */
  lemma ShutdownCompletes(w: World, s: State) returns (steps: seq<Step>)
    requires Reachable(w, s) && s.cancelled && (s.main.Serving? || s.main.Draining?)
    ensures |steps| <= StepsToDrain(s.requests) + 8
    ensures Run(w, s, steps).Some? && Run(w, s, steps).value.main.Returned?
  {
    hide Run, Apply, Reachable, TablesOk, SignalsOk, OrderOk, RequestsOk, LifecycleOk, StepsToDrain;
    ReachableParts(w, s);
    RunningHasReloader(s);
    if s.main.Serving? {
      DrainEnabled(w, s);
      var rest := CanDrain(w, Apply(w, s, MainDoes(Drain)).value);
      RunFirst(w, s, MainDoes(Drain), rest);
      steps := [MainDoes(Drain)] + rest;
    } else {
      steps := CanDrain(w, s);
    }
  }

  lemma CancelHeard(w: World, s: State)
    requires !s.main.Killed?
    ensures Apply(w, s, Cancel) == Some(s.(cancelled := true, clock := s.clock + 1))
  {
  }

  /** Whenever the server runs, cancelling it leads to the return of `run`. */
  lemma CancelShutsDown(w: World, s: State) returns (steps: seq<Step>)
    requires Reachable(w, s) && (s.main.Serving? || s.main.Draining?)
    ensures |steps| <= StepsToDrain(s.requests) + 8
    ensures Run(w, s, [Cancel] + steps).Some? && Run(w, s, [Cancel] + steps).value.main.Returned?
  {
    hide *;
    CancelHeard(w, s);
    ReachableOnce(w, s, Cancel);
    steps := ShutdownCompletes(w, Apply(w, s, Cancel).value);
    RunFirst(w, s, Cancel, steps);
  }

  /** A drain that ends leaves no call without its answer. */
  lemma DrainAnswersAll(w: World, s: State)
    requires Apply(w, s, MainDoes(Drained)).Some?
    ensures forall r <- s.requests :: r.phase.Answered?
  {
  }

  /** A serving gate takes every call, and changes nothing else. */
  lemma EveryCallTaken(w: World, s: State, m: string, targets: seq<string>)
    requires s.main.Serving?
    ensures Apply(w, s, Arrive(m, targets)) ==
            Some(s.(requests := s.requests + [Request(m, targets, |s.published|, 0, Arrived)], clock := s.clock + 1))
  {
  }

  // ---------------------------------------------------------------- starting

  /** A start that fails is the end of `run`: flags that are refused, a first load that fails, or an
      address that cannot be listened on. No reloader is left behind. */
  lemma FailedStartReturns(w: World, s: State, m: MainStep)
    requires Reachable(w, s) && Apply(w, s, MainDoes(m)).Some?
    requires || m == RejectFlags || m == Listen(false)
             || (m == LoadFirst && LoadedBy(w, s, MainDoes(m)) == Some(Failed))
    ensures var t := Apply(w, s, MainDoes(m)).value; t.main.Returned? && t.reloader.NotStarted?
  {
    hide Run, Reachable, Load, TablesOk, SignalsOk, OrderOk, RequestsOk;
    ReachableParts(w, s);
  }

  /** A load that is cut short, by cancellation or because the reloader is stopped, ends at the next
      backend: a first load ends `run`, a later one leaves the table alone. */
  lemma CutShort(w: World, s: State, l: Loading)
    requires l.Building? && l.k < |l.names| && !s.main.Killed?
    ensures s.main == FirstLoad(l) && s.cancelled ==>
      var t := Apply(w, s, MainDoes(LoadFirst));
      t.Some? && t.value.main.Returned? && t.value.store == s.store
    ensures s.reloader == Reloading(l) && (s.cancelled || s.stopped) ==>
      var t := Apply(w, s, ReloaderDoes(Advance));
      t.Some? && t.value.reloader.Logging? && t.value.store == s.store && t.value.published == s.published
  {
    CutShortFails(w, s.clock, l);
    hide Load;
  }

  lemma CutShortFails(w: World, now: nat, l: Loading)
    requires l.Building? && l.k < |l.names|
    ensures Load(w, now, true, l) == Failed
  {
  }

  /** The table last published was built from this configuration, read at this time. */
  predicate ServesConfig(s: State, c: Config, readAt: nat) {
    && s.published != [] && s.published[|s.published| - 1].snap.config == c
    && s.published[|s.published| - 1].readAt == readAt
  }

  /** A load that is not cut short: so many more backends, then the swap. */
  predicate StillLoads(l: Loading, c: Config, readAt: nat) {
    l.Building? && l.config == c && l.readAt == readAt && l.k <= |l.names|
  }

  lemma LoadGoesOn(w: World, now: nat, l: Loading)
    requires l.Building? && l.k <= |l.names|
    ensures match Load(w, now, false, l) {
              case Continue(m) =>
                l.k < |l.names| && StillLoads(m, l.config, l.readAt) && m.k == l.k + 1 && m.names == l.names
              case Swap(p) => l.k == |l.names| && p.snap.config == l.config && p.readAt == l.readAt
              case Failed => false
            }
  {
  }

  lemma LoadStarts(w: World, now: nat, c: Config)
    requires ConfigAt(w, c, now)
    ensures Load(w, now, false, Trigger).Continue?
    ensures StillLoads(Load(w, now, false, Trigger).loading, c, now)
  {
  }

  lemma {:induction false} FirstLoadFinishes(w: World, s: State, c: Config, readAt: nat) returns (steps: seq<Step>)
    requires s.main.FirstLoad? && !s.cancelled && StillLoads(s.main.loading, c, readAt)
    ensures Run(w, s, steps).Some?
    ensures var t := Run(w, s, steps).value; t.main.Loaded? && ServesConfig(t, c, readAt)
    decreases |s.main.loading.names| - s.main.loading.k
  {
    hide Load, Run;
    LoadGoesOn(w, s.clock, s.main.loading);
    var first := MainDoes(LoadFirst);
    var t := Apply(w, s, first).value;
    var rest := [];
    if t.main.FirstLoad? {
      rest := FirstLoadFinishes(w, t, c, readAt);
    } else {
      RunNone(w, t);
    }
    RunFirst(w, s, first, rest);
    steps := [first] + rest;
  }

  lemma RunNone(w: World, s: State)
    ensures Run(w, s, []) == Some(s)
  {
  }

  lemma LoadedServes(w: World, s: State)
    requires s.main.Loaded?
    ensures var t := Run(w, s, [MainDoes(Listen(true)), MainDoes(StartReloader), MainDoes(StartServing)]);
      t.Some? && t.value.main.Serving? && t.value.published == s.published && Running(t.value.reloader)
  {
    hide Run;
    var a, b, c := MainDoes(Listen(true)), MainDoes(StartReloader), MainDoes(StartServing);
    var t := Apply(w, s, a).value;
    var u := Apply(w, t, b).value;
    assert [a] + [b, c] == [a, b, c] && [b] + [c] == [b, c];
    RunFirst(w, s, a, [b, c]);
    RunFirst(w, t, b, [c]);
    RunOnce(w, u, c);
  }

  lemma Installed(w: World)
    ensures Apply(w, INITIAL, MainDoes(Install)) ==
            Some(INITIAL.(main := FirstLoad(Trigger), handler := true, clock := 1))
  {
    hide Load;
  }

  lemma FirstReads(w: World, s: State)
    requires s.main == FirstLoad(Trigger) && Load(w, s.clock, s.cancelled, Trigger).Continue?
    ensures Apply(w, s, MainDoes(LoadFirst)).Some?
    ensures var t := Apply(w, s, MainDoes(LoadFirst)).value;
      t.cancelled == s.cancelled && t.main == FirstLoad(Load(w, s.clock, s.cancelled, Trigger).loading)
  {
    hide Load;
  }

  lemma FirstSteps(w: World, c: Config)
    requires ConfigAt(w, c, 1)
    ensures var t := Run(w, INITIAL, [MainDoes(Install), MainDoes(LoadFirst)]);
      t.Some? && t.value.main.FirstLoad? && !t.value.cancelled && StillLoads(t.value.main.loading, c, 1)
  {
    hide Run, Apply, Load, ConfigAt, StillLoads;
    var a, b := MainDoes(Install), MainDoes(LoadFirst);
    LoadStarts(w, 1, c);
    Installed(w);
    FirstReads(w, Apply(w, INITIAL, a).value);
    assert [a] + [b] == [a, b];
    RunFirst(w, INITIAL, a, [b]);
    RunOnce(w, Apply(w, INITIAL, a).value, b);
  }

  /** A usable configuration can be served: if the file holds one as it is first read, some run brings
      the gate up with a table built from it. */
  lemma GateStarts(w: World, c: Config) returns (s: State)
    requires ConfigAt(w, c, 1)
    ensures Reachable(w, s) && s.main.Serving? && Running(s.reloader) && ServesConfig(s, c, 1)
  {
    hide Run, Apply, ConfigAt;
    FirstSteps(w, c);
    var first := [MainDoes(Install), MainDoes(LoadFirst)];
    var loading := FirstLoadFinishes(w, Run(w, INITIAL, first).value, c, 1);
    RunJoins(w, INITIAL, first, loading);
    var last := [MainDoes(Listen(true)), MainDoes(StartReloader), MainDoes(StartServing)];
    LoadedServes(w, Run(w, INITIAL, first + loading).value);
    RunJoins(w, INITIAL, first + loading, last);
    s := Run(w, INITIAL, first + loading + last).value;
    assert Run(w, INITIAL, first + loading + last) == Some(s);
  }

  lemma {:induction false} ReloadFinishes(w: World, s: State, c: Config, readAt: nat) returns (steps: seq<Step>)
    requires s.reloader.Reloading? && !s.main.Killed? && !s.cancelled && !s.stopped
    requires StillLoads(s.reloader.loading, c, readAt)
    ensures Run(w, s, steps).Some? && forall step <- steps :: step == ReloaderDoes(Advance)
    ensures ServesConfig(Run(w, s, steps).value, c, readAt)
    decreases |s.reloader.loading.names| - s.reloader.loading.k
  {
    hide Load, Run;
    LoadGoesOn(w, s.clock, s.reloader.loading);
    var first := ReloaderDoes(Advance);
    var t := Apply(w, s, first).value;
    var rest := [];
    if t.reloader.Reloading? {
      rest := ReloadFinishes(w, t, c, readAt);
    } else {
      RunNone(w, t);
    }
    RunFirst(w, s, first, rest);
    steps := [first] + rest;
  }

  lemma ReloadStarts(w: World, s: State, trigger: ReloaderStep, c: Config)
    requires s.reloader.Selecting? && !s.main.Killed? && (trigger == Tick || (trigger == Receive && s.slot))
    requires !s.cancelled && !s.stopped && ConfigAt(w, c, s.clock + 1)
    ensures var t := Run(w, s, [ReloaderDoes(trigger), ReloaderDoes(Advance)]);
      && t.Some? && t.value.reloader.Reloading? && t.value.main == s.main && !t.value.cancelled && !t.value.stopped
      && StillLoads(t.value.reloader.loading, c, s.clock + 1)
  {
    hide Run, Apply, Load, ConfigAt, StillLoads;
    var first, second := ReloaderDoes(trigger), ReloaderDoes(Advance);
    LoadStarts(w, s.clock + 1, c);
    TriggerTaken(w, s, trigger);
    TriggerReads(w, Apply(w, s, first).value);
    assert [first] + [second] == [first, second];
    RunFirst(w, s, first, [second]);
    RunOnce(w, Apply(w, s, first).value, second);
  }

  /** A usable edit can be put in service: from an idle reloader, a tick or the signal in the slot and
      the reloader's own steps publish a table built from the configuration as it is then read. */
  lemma ReloadSucceeds(w: World, s: State, trigger: ReloaderStep, c: Config) returns (steps: seq<Step>)
    requires s.reloader.Selecting? && !s.main.Killed? && (trigger == Tick || (trigger == Receive && s.slot))
    requires !s.cancelled && !s.stopped && ConfigAt(w, c, s.clock + 1)
    ensures steps != [] && steps[0] == ReloaderDoes(trigger)
    ensures Run(w, s, steps).Some? && forall step <- steps :: step.ReloaderDoes?
    ensures ServesConfig(Run(w, s, steps).value, c, s.clock + 1)
  {
    hide Run, Apply, ConfigAt;
    ReloadStarts(w, s, trigger, c);
    var first := [ReloaderDoes(trigger), ReloaderDoes(Advance)];
    var rest := ReloadFinishes(w, Run(w, s, first).value, c, s.clock + 1);
    RunJoins(w, s, first, rest);
    steps := first + rest;
  }

  // ---------------------------------------------------------------- the gate

  /** The transport a backend is matched against. */
  function Matched(t: Backend): string {
    if t.transport == "" then "http" else t.transport
  }

  /** The backend's source held, at that time, an accepted statement about the configured server. */
  ghost predicate Vouches(w: World, c: Config, name: string, time: nat) {
    && name in c.targets
    && var loaded := w.load(time, c.targets[name].attestation);
       && loaded.Decoded? && Accepted(w.digest, loaded.statement)
       && Covers(w.digest, loaded.statement, Matched(c.targets[name]), c.targets[name].endpoint)
  }

  ghost function StatementAt(w: World, c: Config, name: string, time: nat): Statement
    requires Vouches(w, c, name, time)
  {
    w.load(time, c.targets[name].attestation).statement
  }

  /** A backend is good to call: vouched for by a sufficient statement, or by none where none is
      required. */
  ghost predicate GoodToCall(w: World, c: Config, name: string, time: nat) {
    if Vouches(w, c, name, time) then Suffices(c.policy, StatementAt(w, c, name, time))
    else c.policy.requireAttestation == Some(false)
  }

  function LoadTime(p: Publication, name: string): nat {
    if name in p.loadedAt then p.loadedAt[name] else 0
  }

  ghost predicate GoodByTable(w: World, p: Publication, name: string) {
    GoodToCall(w, p.snap.config, name, LoadTime(p, name))
  }

  lemma VouchesExact(w: World, c: Config, name: string, time: nat)
    requires name in c.targets
    ensures var e := EntryAt(w, c, time, name);
      if Vouches(w, c, name, time) then e == Verified(StatementAt(w, c, name, time)) else e.Unusable?
  {
  }

  lemma AllowedIsGood(w: World, now: nat, p: Publication, name: string)
    requires Complete(w, now, p)
    ensures Allowed(p.snap, name) <==> GoodByTable(w, p, name)
  {
    var c := p.snap.config;
    AllowExact(c.policy, EntryOf(p.snap.entries, name));
    if name in c.targets {
      VouchesExact(w, c, name, p.loadedAt[name]);
      assert p.snap.entries[name] == EntryAt(w, c, p.loadedAt[name], name);
    }
  }

  /** The first named backend that is not good to call. */
  ghost function FirstBad(w: World, p: Publication, targets: seq<string>): Option<string> {
    if targets == [] then None
    else if !GoodByTable(w, p, targets[0]) then Some(targets[0])
    else FirstBad(w, p, targets[1..])
  }

  /** The backend an answer denies. */
  function DeniedIn(a: Answer): Option<string> {
    if a.Denied? then Some(a.target) else None
  }

  lemma {:induction false} FirstBadNone(w: World, p: Publication, targets: seq<string>)
    ensures FirstBad(w, p, targets) == None <==> forall name <- targets :: GoodByTable(w, p, name)
  {
    if targets == [] {
    } else {
      FirstBadNone(w, p, targets[1..]);
      assert targets == [targets[0]] + targets[1..];
    }
  }

  lemma {:induction false} FirstBadAt(w: World, p: Publication, targets: seq<string>, i: nat)
    requires i < |targets| && !GoodByTable(w, p, targets[i])
    requires forall k :: 0 <= k < i ==> GoodByTable(w, p, targets[k])
    ensures FirstBad(w, p, targets) == Some(targets[i])
  {
    if i == 0 {
    } else {
      FirstBadAt(w, p, targets[1..], i - 1);
    }
  }

  lemma AnswerJustified(w: World, p: Publication, m: string, targets: seq<string>, a: Answer)
    requires forall name :: Allowed(p.snap, name) <==> GoodByTable(w, p, name)
    requires m in p.snap.passthrough <==> m in p.snap.config.passthroughMethods
    requires Answers(Some(p.snap), m, targets, a)
    ensures DeniedIn(a) == DeservedDenial(w, p, m, targets)
  {
    if m !in p.snap.passthrough {
      PassIsConjunction(p.snap, m, targets, a);
      if a.Denied? {
        var i: nat :| FirstDenied(p.snap, targets, i) && a == Denied(targets[i], DecisionOn(p.snap, targets[i]).cause);
        FirstBadAt(w, p, targets, i);
      } else {
        FirstBadNone(w, p, targets);
      }
    }
  }

  /** What a call should be denied for, by what the sources held as the table was built. */
  ghost function DeservedDenial(w: World, p: Publication, m: string, targets: seq<string>): Option<string> {
    if m in p.snap.config.passthroughMethods then None else FirstBad(w, p, targets)
  }

  lemma TableJustifies(w: World, now: nat, p: Publication, m: string, targets: seq<string>, a: Answer)
    requires Complete(w, now, p) && Answers(Some(p.snap), m, targets, a)
    ensures DeniedIn(a) == DeservedDenial(w, p, m, targets)
  {
    forall name ensures Allowed(p.snap, name) <==> GoodByTable(w, p, name) {
      AllowedIsGood(w, now, p, name);
    }
    TablePasses(p.snap.config, p.snap.entries, m);
    AnswerJustified(w, p, m, targets, a);
  }

  lemma AnswerDeserved(w: World, now: nat, s: State, r: Request)
    requires r.phase.Answered? && 1 <= r.readAt <= |s.published|
    requires TablesOk(w, now, s) && Answers(Some(s.published[r.readAt - 1].snap), r.m, r.targets, r.phase.answer)
    ensures DeniedIn(r.phase.answer) == DeservedDenial(w, s.published[r.readAt - 1], r.m, r.targets)
  {
    TableIsComplete(w, now, s, r.readAt - 1);
    TableJustifies(w, now, s.published[r.readAt - 1], r.m, r.targets, r.phase.answer);
  }

  /** Over any run, with any reloads failed or successful, a call is denied for the first backend it
      names that was not good to call by what its source held as the table in service was built, and
      passes if there is none. */
  lemma GateExact(w: World, s: State, i: nat)
    requires Reachable(w, s) && i < |s.requests| && s.requests[i].phase.Answered?
    ensures var r := s.requests[i];
      && 1 <= r.readAt <= |s.published| && !r.phase.answer.Unavailable?
      && DeniedIn(r.phase.answer) == DeservedDenial(w, s.published[r.readAt - 1], r.m, r.targets)
  {
    hide *;
    ReachableParts(w, s);
    AnswerInBounds(s, i);
    AnswerDeserved(w, s.clock, s, s.requests[i]);
  }

  lemma VouchesIdentifies(w: World, c: Config, name: string, time: nat)
    requires Usable(c) && Vouches(w, c, name, time)
    ensures var target, t := StatementAt(w, c, name, time).evaluation.target, c.targets[name];
      || SameTarget(target, Matched(t), t.endpoint)
      || Collision(w.digest, Descriptor(target.transport, target.endpoint), Descriptor(Matched(t), t.endpoint))
  {
    hide Accepted, Covers, TrimSpace, Descriptor, Suffices;
    var t := c.targets[name];
    assert UsableBackend(name, t);
    VerifiedIsAbout(w.digest, w.load(time, t.attestation), t);
  }

  lemma VouchedInTime(w: World, now: nat, p: Publication, name: string)
    requires Complete(w, now, p) && Vouches(w, p.snap.config, name, LoadTime(p, name))
    ensures p.readAt < LoadTime(p, name) < p.swappedAt
  {
    assert name in p.snap.entries;
  }

  /** Under a policy that requires statements, a pass means that every named backend was configured,
      and that its source held, after that configuration was read and before the table went into
      service, an accepted and sufficient statement about that very server, or else there is a digest
      collision. */
  lemma GateSound(w: World, s: State, i: nat, name: string)
    requires Reachable(w, s) && i < |s.requests| && s.requests[i].phase.Answered?
    requires s.requests[i].phase.answer.Pass? && name in s.requests[i].targets
    requires 1 <= s.requests[i].readAt <= |s.published|
    requires var snap := s.published[s.requests[i].readAt - 1].snap;
      s.requests[i].m !in snap.config.passthroughMethods && snap.config.policy.requireAttestation != Some(false)
    ensures var p := s.published[s.requests[i].readAt - 1]; var c, time := p.snap.config, LoadTime(p, name);
      && ConfigAt(w, c, p.readAt) && p.readAt < time < p.swappedAt < s.clock
      && Vouches(w, c, name, time)
      && var st, t := StatementAt(w, c, name, time), c.targets[name];
         && Accepted(w.digest, st) && Suffices(c.policy, st)
         && (|| SameTarget(st.evaluation.target, Matched(t), t.endpoint)
             || Collision(w.digest, Descriptor(st.evaluation.target.transport, st.evaluation.target.endpoint),
                          Descriptor(Matched(t), t.endpoint)))
  {
    GateExact(w, s, i);
    AnsweredFromOneTable(w, s, i);
    var p := s.published[s.requests[i].readAt - 1];
    var c, time := p.snap.config, LoadTime(p, name);
    FirstBadNone(w, p, s.requests[i].targets);
    assert GoodByTable(w, p, name);
    VouchedInTime(w, s.clock, p, name);
    VouchesIdentifies(w, c, name, time);
  }
}
