/** What holds in every reachable state of the running gate, and along every run. */
module RuntimeSafety {
  import opened Text
  import opened Statements
  import opened Verifier
  import opened GateConfig
  import opened Deciding
  import opened Table
  import opened Gate
  import opened Runtime

  // ---------------------------------------------------------------- the invariant, part by part

  /** What verifying a backend of the configuration gives at a time. */
  ghost function EntryAt(w: World, c: Config, time: nat, name: string): Entry {
    var t := if name in c.targets then c.targets[name] else Backend("", "", "");
    EntryFor(w.digest, w.load(time, t.attestation), t)
  }

  /** Each entry is what verifying gave at the time recorded for it, between the two bounds. */
  ghost predicate EntriesTimed(w: World, c: Config, entries: map<string, Entry>,
                               loadedAt: map<string, nat>, from: nat, before: nat)
  {
    forall name <- entries ::
      name in loadedAt && from < loadedAt[name] < before && entries[name] == EntryAt(w, c, loadedAt[name], name)
  }

  ghost predicate ConfigAt(w: World, c: Config, readAt: nat) {
    w.decoded(readAt) == Some(c) && Usable(c)
  }

  /** A reload in progress has everything it did so far right. */
  ghost predicate LoadingOk(w: World, now: nat, l: Loading) {
    l.Building? ==>
      && l.readAt < now && ConfigAt(w, l.config, l.readAt)
      && Distinct(l.names)
      && Elements(l.names) == l.config.targets.Keys
      && l.k <= |l.names| && l.entries.Keys == Elements(l.names[..l.k])
      && EntriesTimed(w, l.config, l.entries, l.loadedAt, l.readAt, now)
  }

  /** A published table is complete: one configuration as read at one time, and every backend's
      entry as verified between that time and the swap. */
  ghost predicate Complete(w: World, now: nat, p: Publication) {
    var c := p.snap.config;
    && p.readAt < p.swappedAt < now && ConfigAt(w, c, p.readAt)
    && p.snap == SnapshotOf(c, p.snap.entries) && p.snap.entries.Keys == c.targets.Keys
    && EntriesTimed(w, c, p.snap.entries, p.loadedAt, p.readAt, p.swappedAt)
  }

  /** The store holds the last table published. */
  predicate StoreIsLast(published: seq<Publication>, store: Option<Snapshot>) {
    if published == [] then store == None else store == Some(published[|published| - 1].snap)
  }

  /** Reloads in progress are `good`, published tables are `complete`, and the store is current. */
  predicate TablesWith(good: Loading -> bool, complete: Publication -> bool, s: State) {
    && (s.main.FirstLoad? ==> good(s.main.loading))
    && (s.reloader.Reloading? ==> good(s.reloader.loading))
    && (forall i :: 0 <= i < |s.published| ==> complete(s.published[i]))
    && StoreIsLast(s.published, s.store)
  }

  ghost function GoodLoading(w: World, now: nat): Loading -> bool {
    l => LoadingOk(w, now, l)
  }

  ghost function CompleteTable(w: World, now: nat): Publication -> bool {
    p => Complete(w, now, p)
  }

  ghost predicate TablesOk(w: World, now: nat, s: State) {
    TablesWith(GoodLoading(w, now), CompleteTable(w, now), s)
  }

  /** Where the main routine is says what is installed, published and running. */
  predicate LifecycleOk(s: State) {
    match s.main
    case Starting => !s.handler && s.published == [] && s.reloader.NotStarted? && !s.stopped && s.requests == []
    case FirstLoad(_) => s.handler && s.published == [] && s.reloader.NotStarted? && !s.stopped && s.requests == []
    case Loaded => s.handler && s.published != [] && s.reloader.NotStarted? && !s.stopped && s.requests == []
    case Listening => s.handler && s.published != [] && s.reloader.NotStarted? && !s.stopped && s.requests == []
    case Spawned => s.handler && s.published != [] && !s.reloader.NotStarted? && !s.stopped
    case Serving => s.handler && s.published != [] && !s.reloader.NotStarted? && !s.stopped
    case Draining => s.cancelled && s.handler && s.published != [] && !s.reloader.NotStarted? && !s.stopped
    case Stopping => s.handler && s.published != [] && !s.reloader.NotStarted? && !s.stopped
    case Joining => s.handler && s.published != [] && !s.reloader.NotStarted? && s.stopped
    case Returned =>
      && !s.handler && (s.reloader.NotStarted? || s.reloader.Exited?)
      && (s.requests != [] ==> s.published != [])
    case Killed => !s.handler && s.published == [] && s.reloader.NotStarted? && s.requests == []
  }

  predicate ExitOk(s: State) {
    s.reloader.Exited? ==> s.cancelled || s.stopped
  }

  /** A hangup is pending until a reload that starts after it. */
  predicate Pending(s: State) {
    s.lastHup.Some? && (s.lastRead.Some? ==> s.lastRead.value < s.lastHup.value)
  }

  /** No hangup is lost: while one is pending the slot is full, or the reloader has taken a signal or
      a tick and is about to read the configuration. */
  predicate SignalsOk(s: State) {
    && (s.lastHup.Some? ==> s.lastHup.value < s.clock)
    && (s.lastRead.Some? ==> s.lastRead.value < s.clock)
    && (Pending(s) ==> s.slot || s.reloader == Reloading(Trigger))
  }

  /** Tables follow one another: each was built from a configuration read after the one before it went
      into service, and so will be the one a reload is building. */
  predicate OrderOk(s: State) {
    && (forall i :: 0 <= i < |s.published| ==> s.published[i].swappedAt < s.clock)
    && (forall i, j :: 0 <= i < j < |s.published| ==> s.published[i].swappedAt < s.published[j].readAt)
    && (s.reloader.Reloading? && s.reloader.loading.Building? ==>
          && s.lastRead == Some(s.reloader.loading.readAt)
          && forall i :: 0 <= i < |s.published| ==> s.published[i].swappedAt < s.reloader.loading.readAt)
  }

  /** The table a request read. */
  ghost predicate ReadFrom(s: State, r: Request, snap: Snapshot) {
    1 <= r.arrivedAt <= r.readAt <= |s.published| && snap == s.published[r.readAt - 1].snap
  }

  ghost predicate RequestOk(s: State, r: Request) {
    && 1 <= r.arrivedAt <= |s.published|
    && match r.phase
       case Arrived => true
       case Judging(snap, k, ratings) =>
         && ReadFrom(s, r, snap) && r.m !in snap.passthrough && k <= |r.targets|
         && (forall i :: 0 <= i < k ==> Allowed(snap, r.targets[i]))
         && ratings == RatingsOf(snap, r.targets[..k])
       case Answered(a, answeredAt) =>
         && r.arrivedAt <= r.readAt <= answeredAt <= |s.published|
         && Answers(Some(s.published[r.readAt - 1].snap), r.m, r.targets, a)
  }

  ghost predicate RequestsOk(s: State) {
    forall i :: 0 <= i < |s.requests| ==> RequestOk(s, s.requests[i])
  }

  ghost predicate Inv(w: World, s: State) {
    TablesOk(w, s.clock, s) && LifecycleOk(s) && ExitOk(s) && SignalsOk(s) && OrderOk(s) && RequestsOk(s)
  }

  // ---------------------------------------------------------------- loading keeps its promises

  lemma LoadingStays(w: World, now: nat, l: Loading)
    requires LoadingOk(w, now, l)
    ensures LoadingOk(w, now + 1, l)
  {
  }

  lemma TriggerContinues(w: World, now: nat, done: bool)
    requires Load(w, now, done, Trigger).Continue?
    ensures LoadingOk(w, now + 1, Load(w, now, done, Trigger).loading)
  {
    var l := Load(w, now, done, Trigger).loading;
    StrictlySortedDistinct(l.names);
    assert Elements(l.names[..0]) == {};
  }

  lemma EntryAdded(w: World, c: Config, names: seq<string>, k: nat, entries: map<string, Entry>,
                   loadedAt: map<string, nat>, from: nat, now: nat)
    requires Distinct(names)
    requires k < |names| && entries.Keys == Elements(names[..k])
    requires EntriesTimed(w, c, entries, loadedAt, from, now) && from < now
    ensures var more := entries[names[k] := EntryAt(w, c, now, names[k])];
      && more.Keys == Elements(names[..k + 1])
      && EntriesTimed(w, c, more, loadedAt[names[k] := now], from, now + 1)
  {
    assert names[..k + 1] == names[..k] + [names[k]];
    assert names[k] !in names[..k];
  }

  lemma BuildingContinues(w: World, now: nat, done: bool, l: Loading)
    requires l.Building? && LoadingOk(w, now, l) && Load(w, now, done, l).Continue?
    ensures LoadingOk(w, now + 1, Load(w, now, done, l).loading)
  {
    EntryAdded(w, l.config, l.names, l.k, l.entries, l.loadedAt, l.readAt, now);
  }

  lemma LoadCompletes(w: World, now: nat, done: bool, l: Loading)
    requires LoadingOk(w, now, l) && Load(w, now, done, l).Swap?
    ensures Complete(w, now + 1, Load(w, now, done, l).table)
  {
    hide EntryAt, EntriesTimed, Usable;
    assert l.names[..l.k] == l.names;
  }

  /** What a step of a reload hands on is right. */
  predicate ProgressWith(good: Loading -> bool, complete: Publication -> bool, progress: Progress) {
    match progress
    case Continue(l) => good(l)
    case Swap(p) => complete(p)
    case Failed => true
  }

  lemma LoadProgresses(w: World, now: nat, done: bool, l: Loading)
    requires LoadingOk(w, now, l)
    ensures ProgressWith(GoodLoading(w, now + 1), CompleteTable(w, now + 1), Load(w, now, done, l))
  {
    match Load(w, now, done, l)
    case Continue(_) =>
      if l.Trigger? {
        TriggerContinues(w, now, done);
      } else {
        BuildingContinues(w, now, done, l);
      }
    case Swap(_) => LoadCompletes(w, now, done, l);
    case Failed =>
  }

  lemma CompleteStays(w: World, now: nat, p: Publication)
    requires Complete(w, now, p)
    ensures Complete(w, now + 1, p)
  {
  }

  // ---------------------------------------------------------------- each part is kept

  lemma MainKeepsLifecycle(w: World, s: State, m: MainStep)
    requires LifecycleOk(s) && ExitOk(s) && !m.LoadFirst? && MainApply(w, s, m).Some?
    ensures LifecycleOk(MainApply(w, s, m).value) && ExitOk(MainApply(w, s, m).value)
  {
  }

  lemma FirstLoadKeepsLifecycle(s: State, p: Progress)
    requires LifecycleOk(s) && ExitOk(s) && s.main.FirstLoad?
    ensures LifecycleOk(FirstLoaded(s, p)) && ExitOk(FirstLoaded(s, p))
  {
  }

  lemma ReloaderKeepsLifecycle(w: World, s: State, r: ReloaderStep)
    requires LifecycleOk(s) && ExitOk(s) && !s.main.Killed? && !r.Advance? && ReloaderApply(w, s, r).Some?
    ensures LifecycleOk(ReloaderApply(w, s, r).value) && ExitOk(ReloaderApply(w, s, r).value)
  {
  }

  lemma ReloadKeepsLifecycle(s: State, p: Progress)
    requires LifecycleOk(s) && ExitOk(s) && !s.main.Killed? && s.reloader.Reloading?
    ensures LifecycleOk(Reloaded(s, p)) && ExitOk(Reloaded(s, p))
  {
  }

  lemma StepLifecycle(w: World, s: State, step: Step)
    requires LifecycleOk(s) && ExitOk(s) && !s.main.Killed? && StepApply(w, s, step).Some?
    ensures LifecycleOk(StepApply(w, s, step).value) && ExitOk(StepApply(w, s, step).value)
  {
    match step
    case MainDoes(LoadFirst) => FirstLoadKeepsLifecycle(s, Load(w, s.clock, s.cancelled, s.main.loading));
    case MainDoes(m) => MainKeepsLifecycle(w, s, m);
    case ReloaderDoes(Advance) =>
      ReloadKeepsLifecycle(s, Load(w, s.clock, s.cancelled || s.stopped, s.reloader.loading));
    case ReloaderDoes(r) => ReloaderKeepsLifecycle(w, s, r);
    case _ =>
  }

  lemma TablesWeaken(good: Loading -> bool, complete: Publication -> bool,
                     good': Loading -> bool, complete': Publication -> bool, s: State)
    requires TablesWith(good, complete, s)
    requires (forall l :: good(l) ==> good'(l)) && (forall p :: complete(p) ==> complete'(p))
    ensures TablesWith(good', complete', s)
  {
  }

  lemma TablesStay(w: World, now: nat, s: State)
    requires TablesOk(w, now, s)
    ensures TablesOk(w, now + 1, s)
  {
    forall l | GoodLoading(w, now)(l) ensures GoodLoading(w, now + 1)(l) {
      LoadingStays(w, now, l);
    }
    forall p | CompleteTable(w, now)(p) ensures CompleteTable(w, now + 1)(p) {
      CompleteStays(w, now, p);
    }
    TablesWeaken(GoodLoading(w, now), CompleteTable(w, now), GoodLoading(w, now + 1), CompleteTable(w, now + 1), s);
  }

  lemma FirstLoadKeepsTables(good: Loading -> bool, complete: Publication -> bool, s: State, progress: Progress)
    requires TablesWith(good, complete, s) && s.main.FirstLoad? && ProgressWith(good, complete, progress)
    ensures TablesWith(good, complete, FirstLoaded(s, progress))
  {
  }

  lemma ReloadKeepsTables(good: Loading -> bool, complete: Publication -> bool, s: State, progress: Progress)
    requires TablesWith(good, complete, s) && s.reloader.Reloading? && ProgressWith(good, complete, progress)
    ensures TablesWith(good, complete, Reloaded(s, progress))
  {
  }

  lemma MainStepKeepsTables(good: Loading -> bool, complete: Publication -> bool, w: World, s: State, m: MainStep)
    requires TablesWith(good, complete, s) && MainApply(w, s, m).Some? && !m.LoadFirst? && good(Trigger)
    ensures TablesWith(good, complete, MainApply(w, s, m).value)
  {
  }

  lemma ReloaderStepKeepsTables(good: Loading -> bool, complete: Publication -> bool,
                                w: World, s: State, r: ReloaderStep)
    requires TablesWith(good, complete, s) && ReloaderApply(w, s, r).Some? && !r.Advance? && good(Trigger)
    ensures TablesWith(good, complete, ReloaderApply(w, s, r).value)
  {
  }

  lemma MainKeepsTables(w: World, s: State, m: MainStep)
    requires TablesOk(w, s.clock, s) && MainApply(w, s, m).Some?
    ensures TablesOk(w, s.clock + 1, MainApply(w, s, m).value)
  {
    hide Load, Complete;
    TablesStay(w, s.clock, s);
    var good, complete := GoodLoading(w, s.clock + 1), CompleteTable(w, s.clock + 1);
    if m.LoadFirst? {
      FirstLoadTables(w, s);
    } else {
      MainStepKeepsTables(good, complete, w, s, m);
    }
  }

  lemma FirstLoadTables(w: World, s: State)
    requires TablesOk(w, s.clock, s) && s.main.FirstLoad?
    ensures TablesOk(w, s.clock + 1, FirstLoaded(s, Load(w, s.clock, s.cancelled, s.main.loading)))
  {
    hide Load, LoadingOk, Complete;
    TablesStay(w, s.clock, s);
    LoadProgresses(w, s.clock, s.cancelled, s.main.loading);
    FirstLoadKeepsTables(GoodLoading(w, s.clock + 1), CompleteTable(w, s.clock + 1), s,
                         Load(w, s.clock, s.cancelled, s.main.loading));
  }

  lemma ReloaderKeepsTables(w: World, s: State, r: ReloaderStep)
    requires TablesOk(w, s.clock, s) && ReloaderApply(w, s, r).Some?
    ensures TablesOk(w, s.clock + 1, ReloaderApply(w, s, r).value)
  {
    hide Load, Complete;
    TablesStay(w, s.clock, s);
    var good, complete := GoodLoading(w, s.clock + 1), CompleteTable(w, s.clock + 1);
    if r.Advance? {
      ReloadTables(w, s);
    } else {
      ReloaderStepKeepsTables(good, complete, w, s, r);
    }
  }

  lemma ReloadTables(w: World, s: State)
    requires TablesOk(w, s.clock, s) && s.reloader.Reloading?
    ensures TablesOk(w, s.clock + 1, Reloaded(s, Load(w, s.clock, s.cancelled || s.stopped, s.reloader.loading)))
  {
    hide Load, LoadingOk, Complete;
    TablesStay(w, s.clock, s);
    LoadProgresses(w, s.clock, s.cancelled || s.stopped, s.reloader.loading);
    ReloadKeepsTables(GoodLoading(w, s.clock + 1), CompleteTable(w, s.clock + 1), s,
                      Load(w, s.clock, s.cancelled || s.stopped, s.reloader.loading));
  }

  lemma OtherStepKeepsTables(good: Loading -> bool, complete: Publication -> bool, w: World, s: State, step: Step)
    requires TablesWith(good, complete, s) && !step.MainDoes? && !step.ReloaderDoes?
    requires StepApply(w, s, step).Some?
    ensures TablesWith(good, complete, StepApply(w, s, step).value)
  {
  }

  lemma OtherKeepsTables(w: World, s: State, step: Step)
    requires TablesOk(w, s.clock, s) && !step.MainDoes? && !step.ReloaderDoes?
    requires StepApply(w, s, step).Some?
    ensures TablesOk(w, s.clock + 1, StepApply(w, s, step).value)
  {
    TablesStay(w, s.clock, s);
    OtherStepKeepsTables(GoodLoading(w, s.clock + 1), CompleteTable(w, s.clock + 1), w, s, step);
  }

  lemma StepTables(w: World, s: State, step: Step)
    requires TablesOk(w, s.clock, s) && StepApply(w, s, step).Some?
    ensures TablesOk(w, s.clock + 1, StepApply(w, s, step).value)
  {
    match step
    case MainDoes(m) => MainKeepsTables(w, s, m);
    case ReloaderDoes(r) => ReloaderKeepsTables(w, s, r);
    case _ => OtherKeepsTables(w, s, step);
  }

  lemma MainKeepsSignals(w: World, s: State, m: MainStep)
    requires LifecycleOk(s) && SignalsOk(s) && !m.LoadFirst? && MainApply(w, s, m).Some?
    ensures SignalsOk(MainApply(w, s, m).value.(clock := s.clock + 1))
  {
    hide Load;
  }

  lemma FirstLoadKeepsSignals(s: State, p: Progress)
    requires LifecycleOk(s) && SignalsOk(s) && s.main.FirstLoad?
    ensures SignalsOk(FirstLoaded(s, p).(clock := s.clock + 1))
  {
  }

  lemma ReloaderKeepsSignals(w: World, s: State, r: ReloaderStep)
    requires SignalsOk(s) && !r.Advance? && ReloaderApply(w, s, r).Some?
    ensures SignalsOk(ReloaderApply(w, s, r).value.(clock := s.clock + 1))
  {
    hide Load;
  }

  lemma ReloadKeepsSignals(s: State, p: Progress)
    requires SignalsOk(s) && s.reloader.Reloading?
    ensures SignalsOk(Reloaded(s, p).(clock := s.clock + 1))
  {
  }

  lemma OtherKeepsSignals(w: World, s: State, step: Step)
    requires SignalsOk(s) && !step.MainDoes? && !step.ReloaderDoes? && StepApply(w, s, step).Some?
    ensures SignalsOk(StepApply(w, s, step).value.(clock := s.clock + 1))
    ensures step == Hangup && s.handler ==> Pending(StepApply(w, s, step).value)
  {
    hide ReadStore, JudgeNext;
  }

  lemma StepSignals(w: World, s: State, step: Step)
    requires LifecycleOk(s) && SignalsOk(s) && StepApply(w, s, step).Some?
    ensures SignalsOk(StepApply(w, s, step).value.(clock := s.clock + 1))
    ensures step == Hangup && s.handler ==> Pending(StepApply(w, s, step).value)
  {
    hide SignalsOk, LifecycleOk, Load, Pending;
    match step
    case MainDoes(LoadFirst) => FirstLoadKeepsSignals(s, Load(w, s.clock, s.cancelled, s.main.loading));
    case MainDoes(m) => MainKeepsSignals(w, s, m);
    case ReloaderDoes(Advance) =>
      ReloadKeepsSignals(s, Load(w, s.clock, s.cancelled || s.stopped, s.reloader.loading));
    case ReloaderDoes(r) => ReloaderKeepsSignals(w, s, r);
    case _ => OtherKeepsSignals(w, s, step);
  }

  /** A build keeps the time it read its configuration, and a table is dated by it and by the swap. */
  predicate TimesRight(now: nat, l: Loading, p: Progress) {
    match p
    case Continue(m) => m.Building? && m.readAt == if l.Trigger? then now else l.readAt
    case Swap(t) => l.Building? && t.readAt == l.readAt && t.swappedAt == now
    case Failed => true
  }

  lemma LoadTimes(w: World, now: nat, done: bool, l: Loading)
    ensures TimesRight(now, l, Load(w, now, done, l))
  {
  }

  lemma FirstLoadKeepsOrder(s: State, p: Progress)
    requires LifecycleOk(s) && OrderOk(s) && s.main.FirstLoad? && TimesRight(s.clock, s.main.loading, p)
    ensures OrderOk(FirstLoaded(s, p).(clock := s.clock + 1))
  {
  }

  lemma ReloadKeepsOrder(s: State, p: Progress)
    requires OrderOk(s) && s.reloader.Reloading? && TimesRight(s.clock, s.reloader.loading, p)
    ensures OrderOk(Reloaded(s, p).(clock := s.clock + 1))
  {
  }

  lemma MainKeepsOrder(w: World, s: State, m: MainStep)
    requires OrderOk(s) && !m.LoadFirst? && MainApply(w, s, m).Some?
    ensures OrderOk(MainApply(w, s, m).value.(clock := s.clock + 1))
  {
    hide Load, FirstLoaded;
  }

  lemma ReloaderKeepsOrder(w: World, s: State, r: ReloaderStep)
    requires OrderOk(s) && !r.Advance? && ReloaderApply(w, s, r).Some?
    ensures OrderOk(ReloaderApply(w, s, r).value.(clock := s.clock + 1))
  {
    hide Load;
  }

  lemma OtherKeepsOrder(w: World, s: State, step: Step)
    requires OrderOk(s) && !step.MainDoes? && !step.ReloaderDoes? && StepApply(w, s, step).Some?
    ensures OrderOk(StepApply(w, s, step).value.(clock := s.clock + 1))
  {
    hide ReadStore, JudgeNext;
  }

  lemma StepOrder(w: World, s: State, step: Step)
    requires LifecycleOk(s) && OrderOk(s) && StepApply(w, s, step).Some?
    ensures OrderOk(StepApply(w, s, step).value.(clock := s.clock + 1))
  {
    hide OrderOk, LifecycleOk, Load;
    match step
    case MainDoes(LoadFirst) =>
      LoadTimes(w, s.clock, s.cancelled, s.main.loading);
      FirstLoadKeepsOrder(s, Load(w, s.clock, s.cancelled, s.main.loading));
    case MainDoes(m) => MainKeepsOrder(w, s, m);
    case ReloaderDoes(Advance) =>
      LoadTimes(w, s.clock, s.cancelled || s.stopped, s.reloader.loading);
      ReloadKeepsOrder(s, Load(w, s.clock, s.cancelled || s.stopped, s.reloader.loading));
    case ReloaderDoes(r) => ReloaderKeepsOrder(w, s, r);
    case _ => OtherKeepsOrder(w, s, step);
  }

  // ---------------------------------------------------------------- requests

  /** The tables of `t` extend those of `s`. */
  predicate PublishedExtends(s: State, t: State) {
    |s.published| <= |t.published| && t.published[..|s.published|] == s.published
  }

  lemma RequestStays(s: State, t: State, r: Request)
    requires RequestOk(s, r) && PublishedExtends(s, t)
    ensures RequestOk(t, r)
  {
    forall i: nat | i < |s.published| ensures t.published[i] == s.published[i] {
      assert t.published[..|s.published|][i] == s.published[i];
    }
  }

  lemma ReadKeepsRequest(s: State, r: Request)
    requires StoreIsLast(s.published, s.store) && RequestOk(s, r) && r.phase.Arrived?
    ensures RequestOk(s, ReadStore(s, r))
  {
    hide RatingOn, Allowed;
    var q := ReadStore(s, r);
    assert q.readAt == |s.published|;
    if q.phase.Judging? {
      assert q.targets[..0] == [];
      assert RatingsOf(q.phase.snap, []) == map[];
    }
  }

  lemma JudgeKeepsRequest(s: State, r: Request)
    requires RequestOk(s, r) && r.phase.Judging?
    ensures RequestOk(s, JudgeNext(s, r))
  {
    hide DecisionOn, RatingsOf;
    var Judging(snap, k, ratings) := r.phase;
    if k < |r.targets| {
      RatedStep(snap, r.targets, k);
      if !Allowed(snap, r.targets[k]) {
        assert FirstDenied(snap, r.targets, k) && r.targets[k] in r.targets;
      }
    } else {
      assert r.targets[..k] == r.targets;
    }
  }

  lemma FirstLoadExtends(s: State, p: Progress)
    requires s.main.FirstLoad?
    ensures PublishedExtends(s, FirstLoaded(s, p)) && FirstLoaded(s, p).requests == s.requests
  {
  }

  lemma ReloadExtends(s: State, p: Progress)
    requires s.reloader.Reloading?
    ensures PublishedExtends(s, Reloaded(s, p)) && Reloaded(s, p).requests == s.requests
  {
  }

  lemma MainExtends(w: World, s: State, m: MainStep)
    requires MainApply(w, s, m).Some?
    ensures PublishedExtends(s, MainApply(w, s, m).value) && MainApply(w, s, m).value.requests == s.requests
  {
    if m.LoadFirst? {
      FirstLoadExtends(s, Load(w, s.clock, s.cancelled, s.main.loading));
    }
  }

  lemma ReloaderExtends(w: World, s: State, r: ReloaderStep)
    requires ReloaderApply(w, s, r).Some?
    ensures PublishedExtends(s, ReloaderApply(w, s, r).value)
    ensures ReloaderApply(w, s, r).value.requests == s.requests
  {
    if r.Advance? {
      ReloadExtends(s, Load(w, s.clock, s.cancelled || s.stopped, s.reloader.loading));
    }
  }

  lemma RequestsStay(s: State, t: State)
    requires RequestsOk(s) && PublishedExtends(s, t) && t.requests == s.requests
    ensures RequestsOk(t)
  {
    forall i | 0 <= i < |t.requests| ensures RequestOk(t, t.requests[i]) {
      RequestStays(s, t, s.requests[i]);
    }
  }

  /** Requests keep their promises, and the published tables only grow. */
  lemma StepRequests(w: World, s: State, step: Step)
    requires StoreIsLast(s.published, s.store) && LifecycleOk(s) && RequestsOk(s) && StepApply(w, s, step).Some?
    ensures RequestsOk(StepApply(w, s, step).value)
    ensures PublishedExtends(s, StepApply(w, s, step).value)
  {
    var t := StepApply(w, s, step).value;
    match step
    case MainDoes(m) =>
      MainExtends(w, s, m);
      RequestsStay(s, t);
    case ReloaderDoes(r) =>
      ReloaderExtends(w, s, r);
      RequestsStay(s, t);
    case Read(i) =>
      ReadKeepsRequest(s, s.requests[i]);
      RequestReplaced(s, i, ReadStore(s, s.requests[i]));
    case Judge(i) =>
      JudgeKeepsRequest(s, s.requests[i]);
      RequestReplaced(s, i, JudgeNext(s, s.requests[i]));
    case Arrive(m, targets) =>
      var r := Request(m, targets, |s.published|, 0, Arrived);
      RequestAdded(s, r);
    case _ =>
      RequestsStay(s, t);
  }

  lemma RequestReplaced(s: State, i: nat, r: Request)
    requires RequestsOk(s) && i < |s.requests| && RequestOk(s, r)
    ensures RequestsOk(s.(requests := s.requests[i := r]))
  {
    var t := s.(requests := s.requests[i := r]);
    forall k | 0 <= k < |t.requests| ensures RequestOk(t, t.requests[k]) {
      RequestStays(s, t, if k == i then r else s.requests[k]);
    }
  }

  lemma RequestAdded(s: State, r: Request)
    requires RequestsOk(s) && RequestOk(s, r)
    ensures RequestsOk(s.(requests := s.requests + [r]))
  {
    var t := s.(requests := s.requests + [r]);
    forall k | 0 <= k < |t.requests| ensures RequestOk(t, t.requests[k]) {
      RequestStays(s, t, if k == |s.requests| then r else s.requests[k]);
    }
  }
}
