/** The running gate as a system of interleaved steps: the main routine, the reloader, signals and
    cancellation, and requests. Every step takes one tick of a clock. */
module Runtime {
  import opened Text
  import opened Statements
  import opened GateConfig
  import opened Deciding
  import opened Table
  import opened Gate

  /** What the files and the network hold, as functions of time. A source that cannot be read, or a
      fetch cut short by cancellation, is one of the outcomes of loading. */
  datatype World = World(digest: Digest, decoded: nat -> Option<Config>, load: (nat, string) -> Loaded)

  /** A table that was put in service: when its configuration was read, when each of its sources
      was loaded, and when it was swapped in. */
  datatype Publication = Publication(snap: Snapshot, readAt: nat, loadedAt: map<string, nat>, swappedAt: nat)

  /** A reload in progress: about to read the configuration, or `k` backends into the build. */
  datatype Loading =
    | Trigger
    | Building(config: Config, names: seq<string>, k: nat, entries: map<string, Entry>,
               readAt: nat, loadedAt: map<string, nat>)

  datatype Main =
    | Starting | FirstLoad(loading: Loading) | Loaded | Listening | Spawned | Serving | Draining
    | Stopping | Joining | Returned | Killed

  datatype Reloader = NotStarted | Selecting | Reloading(loading: Loading) | Logging | Exited

  datatype Phase =
    | Arrived
    | Judging(snap: Snapshot, k: nat, ratings: map<string, Rating>)
    | Answered(answer: Answer, answeredAt: nat)

  /** A request, with the number of tables published when it arrived and when it read the store. */
  datatype Request = Request(m: string, targets: seq<string>, arrivedAt: nat, readAt: nat, phase: Phase)

  /** `slot` is the one-slot signal channel. `published`, `lastHup` and `lastRead` are history: the
      tables in order of publication, the last hangup delivered to the handler, and the last time a
      reload read the configuration. */
  datatype State = State(
    clock: nat, main: Main, reloader: Reloader, handler: bool, slot: bool, cancelled: bool,
    stopped: bool, store: Option<Snapshot>, requests: seq<Request>,
    published: seq<Publication>, lastHup: Option<nat>, lastRead: Option<nat>)

  const INITIAL := State(0, Starting, NotStarted, false, false, false, false, None, [], [], None, None)

  datatype MainStep =
    | RejectFlags | Install | LoadFirst | Listen(ok: bool) | StartReloader | StartServing
    | ServeError | Drain | Drained | StopReload | Join

  datatype ReloaderStep = Receive | Tick | Exit | Advance | Log

  datatype Step =
    | MainDoes(main: MainStep)
    | ReloaderDoes(reloader: ReloaderStep)
    | Hangup
    | Cancel
    | Arrive(m: string, targets: seq<string>)
    | Read(i: nat)
    | Judge(i: nat)

  // ---------------------------------------------------------------- loading

  datatype Progress = Continue(loading: Loading) | Swap(table: Publication) | Failed

  /** One step of a reload, at time `now`, its context done or not. The context is looked at only as
      the build comes to a backend. */
  ghost function Load(w: World, now: nat, done: bool, l: Loading): Progress {
    match l
    case Trigger =>
      var decoded := w.decoded(now);
      if decoded.Some? && Usable(decoded.value)
      then Continue(Building(decoded.value, NamesOf(decoded.value), 0, map[], now, map[]))
      else Failed
    case Building(c, names, k, entries, readAt, loadedAt) =>
      if k < |names| then
        if done then Failed
        else
          var t := if names[k] in c.targets then c.targets[names[k]] else Backend("", "", "");
          var e := EntryFor(w.digest, w.load(now, t.attestation), t);
          Continue(Building(c, names, k + 1, entries[names[k] := e], readAt, loadedAt[names[k] := now]))
      else Swap(Publication(SnapshotOf(c, entries), readAt, loadedAt, now))
  }

  function Publish(s: State, p: Publication): State {
    s.(store := Some(p.snap), published := s.published + [p])
  }

  /** A reload that starts is remembered by the time it reads the configuration. */
  function Noted(s: State, l: Loading): State {
    if l.Trigger? then s.(lastRead := Some(s.clock)) else s
  }

  // ---------------------------------------------------------------- the routines

  /** Leaving `run` restores the default action of the hangup. */
  function Return(s: State): State {
    s.(main := Returned, handler := false)
  }

  /** The first load decides whether there is a gate at all. */
  function FirstLoaded(s: State, progress: Progress): State
    requires s.main.FirstLoad?
  {
    var t := Noted(s, s.main.loading);
    match progress
    case Continue(l) => t.(main := FirstLoad(l))
    case Swap(p) => Publish(t, p).(main := Loaded)
    case Failed => Return(t)
  }

  /** A later load replaces the table or leaves it; either way the reloader goes on to log it. */
  function Reloaded(s: State, progress: Progress): State
    requires s.reloader.Reloading?
  {
    var t := Noted(s, s.reloader.loading);
    match progress
    case Continue(l) => t.(reloader := Reloading(l))
    case Swap(p) => Publish(t, p).(reloader := Logging)
    case Failed => t.(reloader := Logging)
  }

  ghost function MainApply(w: World, s: State, step: MainStep): Option<State> {
    match step
    case RejectFlags => if s.main.Starting? then Some(Return(s)) else None
    case Install =>
      if s.main.Starting? then Some(s.(main := FirstLoad(Trigger), handler := true)) else None
    case LoadFirst =>
      if s.main.FirstLoad? then Some(FirstLoaded(s, Load(w, s.clock, s.cancelled, s.main.loading))) else None
    case Listen(ok) =>
      if s.main.Loaded? then Some(if ok then s.(main := Listening) else Return(s)) else None
    case StartReloader =>
      if s.main.Listening? then Some(s.(main := Spawned, reloader := Selecting)) else None
    case StartServing => if s.main.Spawned? then Some(s.(main := Serving)) else None
    case ServeError => if s.main.Serving? then Some(s.(main := Stopping)) else None
    case Drain => if s.main.Serving? && s.cancelled then Some(s.(main := Draining)) else None
    case Drained =>
      if s.main.Draining? && forall r <- s.requests :: r.phase.Answered? then Some(s.(main := Stopping)) else None
    case StopReload => if s.main.Stopping? then Some(s.(main := Joining, stopped := true)) else None
    case Join => if s.main.Joining? && s.reloader.Exited? then Some(Return(s)) else None
  }

  ghost function ReloaderApply(w: World, s: State, step: ReloaderStep): Option<State> {
    var done := s.cancelled || s.stopped;
    match step
    case Receive =>
      if s.reloader.Selecting? && s.slot then Some(s.(reloader := Reloading(Trigger), slot := false)) else None
    case Tick => if s.reloader.Selecting? then Some(s.(reloader := Reloading(Trigger))) else None
    case Exit => if s.reloader.Selecting? && done then Some(s.(reloader := Exited)) else None
    case Advance =>
      if s.reloader.Reloading? then Some(Reloaded(s, Load(w, s.clock, done, s.reloader.loading))) else None
    case Log => if s.reloader.Logging? then Some(s.(reloader := Selecting)) else None
  }

  /** A hangup is dropped into the slot, full or not; without the handler it kills the process. */
  function HangupApply(s: State): State {
    if s.handler then s.(slot := true, lastHup := Some(s.clock)) else s.(main := Killed)
  }

  ghost function ReadStore(s: State, r: Request): Request {
    var now := |s.published|;
    r.(readAt := now,
       phase := if s.store.None? then Answered(Unavailable, now)
                else if r.m in s.store.value.passthrough then Answered(Pass(map[]), now)
                else Judging(s.store.value, 0, map[]))
  }

  /** Decides one more backend of a request from the snapshot it read, or answers. */
  ghost function JudgeNext(s: State, r: Request): Request
    requires r.phase.Judging?
  {
    var Judging(snap, k, ratings) := r.phase;
    if k < |r.targets| then
      var d := DecisionOn(snap, r.targets[k]);
      if d.allow then r.(phase := Judging(snap, k + 1, Rated(ratings, r.targets[k], d)))
      else r.(phase := Answered(Denied(r.targets[k], d.cause), |s.published|))
    else r.(phase := Answered(Pass(ratings), |s.published|))
  }

  /** Calls come in while the server serves, and over connections still open as it stops. */
  predicate Accepting(main: Main) {
    main.Serving? || main.Draining? || main.Stopping? || main.Joining?
  }

  ghost function StepApply(w: World, s: State, step: Step): Option<State> {
    match step
    case MainDoes(m) => MainApply(w, s, m)
    case ReloaderDoes(r) => ReloaderApply(w, s, r)
    case Hangup => if s.main.Returned? then None else Some(HangupApply(s))
    case Cancel => Some(s.(cancelled := true))
    case Arrive(m, targets) =>
      if Accepting(s.main)
      then Some(s.(requests := s.requests + [Request(m, targets, |s.published|, 0, Arrived)]))
      else None
    case Read(i) =>
      if i < |s.requests| && s.requests[i].phase.Arrived?
      then Some(s.(requests := s.requests[i := ReadStore(s, s.requests[i])]))
      else None
    case Judge(i) =>
      if i < |s.requests| && s.requests[i].phase.Judging?
      then Some(s.(requests := s.requests[i := JudgeNext(s, s.requests[i])]))
      else None
  }

  /** One step, when it is enabled. A killed process takes none. */
  ghost function Apply(w: World, s: State, step: Step): Option<State> {
    if s.main.Killed? then None
    else
      match StepApply(w, s, step)
      case None => None
      case Some(t) => Some(t.(clock := s.clock + 1))
  }

  /** The state after a run of steps, each enabled in turn. */
  ghost function Run(w: World, s: State, steps: seq<Step>): Option<State> {
    if steps == [] then Some(s)
    else
      var n := |steps| - 1;
      match Run(w, s, steps[..n])
      case None => None
      case Some(t) => Apply(w, t, steps[n])
  }

  ghost predicate Reachable(w: World, s: State) {
    exists steps :: Run(w, INITIAL, steps) == Some(s)
  }
}
