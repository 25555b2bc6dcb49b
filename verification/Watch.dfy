/**
 * The file-watch side (aiohttp_runserver/watch.py): every handler first drops
 * file moves from or to an IDE backup file, then debounces with a one-second
 * window measured from the last accepted event, and only then lets the
 * watcher's directory and pattern filter decide whether `on_any_event` runs.
 * The code handler restarts the supervised app process; the static handler
 * asks the auxiliary app to reload the changed asset.
 *
 * Time is an integer count of microseconds (the resolution of the clock the
 * source reads), supplied by the caller; it is not assumed to be monotonic.
 */
module Watch {
  import opened Wrappers
  import opened Glob
  import opened Paths
  import Text
  import Serve

  /** `_since_change <= 1` second, in microseconds. */
  const Window := 1_000_000

  /** How long `stop_process` waits for the interrupted process, in seconds. */
  const JoinTimeout := 5

  datatype EventKind = Created | Modified | Deleted | Moved(dest: string)

  /** A watcher event: its kind, its source path and whether it concerns a directory. */
  datatype Event = Event(kind: EventKind, src: string, isDirectory: bool)

  /**
   * A file move (watchdog's `FileMovedEvent`; a directory move is a
   * `DirMovedEvent`, which is not one) whose source or destination is an IDE
   * backup file.
   */
  function IsBackupMove(e: Event): (b: bool)
    ensures b <==> e.kind.Moved? && !e.isDirectory && (HasBackupTail(e.src) || HasBackupTail(e.kind.dest))
  {
    JbBackupSuffix(e.src);
    if e.kind.Moved? then
      JbBackupSuffix(e.kind.dest);
      !e.isDirectory && (IsJbBackup(e.src) || IsJbBackup(e.kind.dest))
    else
      false
  }

  /**
   * One path against the handler's patterns: `patterns` is the verdict of
   * the include patterns and of every ignore pattern except the backup glob,
   * which is concrete. The watcher matches without regard to case: it
   * lower-cases the path (and the patterns, the backup glob being lower
   * case already) before matching.
   */
  function PathPasses(patterns: string -> bool, path: string): (b: bool)
    ensures b <==>
      && patterns(path)
      && !(|path| >= 12
           && Text.Lower(path[|path| - 12..|path| - 6]) == JbSuffix
           && Text.Lower(path[|path| - 3..]) == JbTail)
  {
    JbBackupAnyCase(path);
    patterns(path) && !IsJbBackup(Text.Lower(path))
  }

  /**
   * The watcher's own dispatch: directory events are ignored; otherwise the
   * event goes on when any of its paths (the destination of a move, the
   * source) passes the patterns.
   */
  function Admits(patterns: string -> bool, e: Event): (b: bool)
    ensures e.isDirectory ==> !b
    ensures b <==> !e.isDirectory && exists p :: p in EventPaths(e) && PathPasses(patterns, p)
  {
    && !e.isDirectory
    && (PathPasses(patterns, e.src) || (e.kind.Moved? && PathPasses(patterns, e.kind.dest)))
  }

  /** The paths the watcher matches for an event: the destination of a move, then the source. */
  function EventPaths(e: Event): (ps: seq<string>)
    ensures e.src in ps
  {
    if e.kind.Moved? then [e.kind.dest, e.src] else [e.src]
  }

  // ---------------------------------------------------------------------------
  // The debounce of `_BaseEventHandler.dispatch`

  /** `_change_dt` and `_since_change` (`None` before the first timed event). */
  datatype Debounce = Debounce(changeDt: int, sinceChange: Option<int>)

  /** The new state, and whether the event went on to the watcher's own dispatch. */
  datatype StepResult = StepResult(next: Debounce, forwarded: bool)

  /** One event through the debounce; `_change_dt` only ever moves to the time of a forwarded event. */
  function Step(d: Debounce, e: Event, now: int): (r: StepResult)
    ensures r.forwarded ==> !IsBackupMove(e) && r.next.changeDt == now
    ensures !r.forwarded ==> r.next.changeDt == d.changeDt
  {
    if IsBackupMove(e) then StepResult(d, false)
    else
      var since := now - d.changeDt;
      if since <= Window then StepResult(Debounce(d.changeDt, Some(since)), false)
      else StepResult(Debounce(now, Some(since)), true)
  }

  /** One event, at one instant. */
  datatype Timed = Timed(event: Event, time: int)

  datatype RunResult = RunResult(final: Debounce, forwarded: seq<Timed>)

  /** The debounce applied to a sequence of timed events. */
  function Run(d: Debounce, trace: seq<Timed>): (r: RunResult)
    decreases |trace|
    ensures |r.forwarded| <= |trace|
  {
    if trace == [] then RunResult(d, [])
    else
      var step := Step(d, trace[0].event, trace[0].time);
      var rest := Run(step.next, trace[1..]);
      RunResult(rest.final, (if step.forwarded then [trace[0]] else []) + rest.forwarded)
  }

  /** A backup move changes nothing: the state, elapsed time included, stays as it was. */
  lemma BackupMoveIgnored(d: Debounce, e: Event, now: int)
    requires IsBackupMove(e)
    ensures Step(d, e, now) == StepResult(d, false)
  {
  }

  /** An event within the window is held back; only the elapsed time is recorded. */
  lemma WithinWindowSuppressed(d: Debounce, e: Event, now: int)
    requires !IsBackupMove(e) && now - d.changeDt <= Window
    ensures Step(d, e, now) == StepResult(Debounce(d.changeDt, Some(now - d.changeDt)), false)
  {
  }

  /** Past the window an event is forwarded and the window restarts at `now`. */
  lemma PastWindowForwarded(d: Debounce, e: Event, now: int)
    requires !IsBackupMove(e) && now - d.changeDt > Window
    ensures Step(d, e, now) == StepResult(Debounce(now, Some(now - d.changeDt)), true)
  {
  }

  /** Every event of `fw` comes more than a window after `t`. */
  predicate AllAfter(fw: seq<Timed>, t: int)
  {
    forall i :: 0 <= i < |fw| ==> fw[i].time > t + Window
  }

  /** Any two events of `fw` are more than a window apart, in the order they appear. */
  predicate Spaced(fw: seq<Timed>)
  {
    forall i, j :: 0 <= i < j < |fw| ==> fw[j].time > fw[i].time + Window
  }

  /** Putting an event in front of a spaced run that starts more than a window after it keeps the spacing. */
  lemma PrependSpaced(t: Timed, rest: seq<Timed>, start: int)
    requires t.time > start + Window
    requires AllAfter(rest, t.time) && Spaced(rest)
    ensures AllAfter([t] + rest, start) && Spaced([t] + rest)
  {
    var fw := [t] + rest;
    forall i | 0 <= i < |fw| ensures fw[i].time > start + Window {
      if i > 0 {
        assert fw[i] == rest[i - 1];
      }
    }
    forall i, j | 0 <= i < j < |fw| ensures fw[j].time > fw[i].time + Window {
      assert fw[j] == rest[j - 1];
      if i > 0 {
        assert fw[i] == rest[i - 1];
      }
    }
  }

  /**
   * A directory move is timed like any other event, whatever its names, and
   * is then discarded by the watcher's own dispatch.
   */
  lemma DirectoryMoveTimed(patterns: string -> bool, d: Debounce, e: Event, now: int)
    requires e.kind.Moved? && e.isDirectory
    ensures !IsBackupMove(e)
    ensures Step(d, e, now).next.sinceChange == Some(now - d.changeDt)
    ensures Step(d, e, now).forwarded <==> now - d.changeDt > Window
    ensures !Admits(patterns, e)
  {
  }

  /**
   * A file created, modified or deleted under a backup name passes the
   * debounce like any change (and restarts the window when forwarded), but
   * the backup ignore pattern keeps it from `on_any_event`.
   */
  lemma BackupFileChangeTimedNotDispatched(patterns: string -> bool, d: Debounce, e: Event, now: int)
    requires !e.kind.Moved? && IsJbBackup(e.src)
    ensures !IsBackupMove(e)
    ensures Step(d, e, now).next.sinceChange == Some(now - d.changeDt)
    ensures !Admits(patterns, e)
  {
    LowerKeepsBackup(e.src);
  }

  /**
   * A file move between backup names written in upper case (`___JB_TMP___`)
   * escapes the debounce's own check, which is case-sensitive, so it is
   * timed and restarts the window when forwarded; the watcher's ignore
   * pattern, which is not case-sensitive, still keeps it from `on_any_event`.
   */
  lemma UpperCaseBackupMoveTimedNotDispatched(patterns: string -> bool, d: Debounce, e: Event, now: int)
    requires e.kind.Moved? && !e.isDirectory
    requires |e.src| >= 12 && e.src[|e.src| - 12..|e.src| - 6] == "___JB_" && e.src[|e.src| - 3..] == JbTail
    requires var t := e.kind.dest;
      |t| >= 12 && t[|t| - 12..|t| - 6] == "___JB_" && t[|t| - 3..] == JbTail
    ensures !IsBackupMove(e)
    ensures Step(d, e, now).next.sinceChange == Some(now - d.changeDt)
    ensures Step(d, e, now).forwarded <==> now - d.changeDt > Window
    ensures !Admits(patterns, e)
  {
    UpperCaseBackup(e.src);
    UpperCaseBackup(e.kind.dest);
  }

  /**
   * Every forwarded event comes more than a window after the starting
   * `_change_dt` (for a fresh handler: its construction time), and any two
   * forwarded events are more than a window apart, in the order they came.
   * This holds whatever the clock does between events.
   */
  lemma {:induction false} ForwardedSpacing(d: Debounce, trace: seq<Timed>)
    decreases |trace|
    ensures AllAfter(Run(d, trace).forwarded, d.changeDt)
    ensures Spaced(Run(d, trace).forwarded)
  {
    if trace != [] {
      var step := Step(d, trace[0].event, trace[0].time);
      ForwardedSpacing(step.next, trace[1..]);
      var rest := Run(step.next, trace[1..]).forwarded;
      if step.forwarded {
        assert step.next.changeDt == trace[0].time;
        PrependSpaced(trace[0], rest, d.changeDt);
        assert Run(d, trace).forwarded == [trace[0]] + rest;
      } else {
        assert step.next.changeDt == d.changeDt;
        assert Run(d, trace).forwarded == rest;
      }
    }
  }

  /** Every forwarded event is one of the trace's, and none is a backup move. */
  lemma {:induction false} ForwardedAreFromTrace(d: Debounce, trace: seq<Timed>)
    decreases |trace|
    ensures forall t :: t in Run(d, trace).forwarded ==> t in trace && !IsBackupMove(t.event)
  {
    if trace != [] {
      ForwardedAreFromTrace(Step(d, trace[0].event, trace[0].time).next, trace[1..]);
    }
  }

  /** `_change_dt` ends at the time of the last forwarded event, or where it started if none was. */
  lemma {:induction false} FinalChangeTime(d: Debounce, trace: seq<Timed>)
    decreases |trace|
    ensures var r := Run(d, trace);
      r.final.changeDt == if r.forwarded == [] then d.changeDt else r.forwarded[|r.forwarded| - 1].time
  {
    if trace != [] {
      FinalChangeTime(Step(d, trace[0].event, trace[0].time).next, trace[1..]);
    }
  }

  function WithoutBackupMoves(trace: seq<Timed>): (r: seq<Timed>)
  {
    if trace == [] then []
    else (if IsBackupMove(trace[0].event) then [] else [trace[0]]) + WithoutBackupMoves(trace[1..])
  }

  /** Backup moves are invisible: removing them from the trace changes nothing at all. */
  lemma {:induction false} BackupMovesInvisible(d: Debounce, trace: seq<Timed>)
    decreases |trace|
    ensures Run(d, WithoutBackupMoves(trace)) == Run(d, trace)
  {
    if trace != [] {
      var step := Step(d, trace[0].event, trace[0].time);
      BackupMovesInvisible(step.next, trace[1..]);
      var tail := WithoutBackupMoves(trace[1..]);
      if IsBackupMove(trace[0].event) {
        assert step.next == d && !step.forwarded;
        assert WithoutBackupMoves(trace) == tail;
      } else {
        var kept := [trace[0]] + tail;
        assert WithoutBackupMoves(trace) == kept;
        assert kept[0] == trace[0] && kept[1..] == tail;
      }
    }
  }

  /**
   * The scenario of a save burst: a handler built at time 0 sees four writes
   * 2.0 s, 2.1 s, 2.2 s and 2.3 s after construction and one more at 3.5 s.
   * The first and the last are forwarded.
   */
  lemma SaveBurst(e: Event)
    requires !IsBackupMove(e)
    ensures var trace := [Timed(e, 2_000_000), Timed(e, 2_100_000), Timed(e, 2_200_000), Timed(e, 2_300_000), Timed(e, 3_500_000)];
      Run(Debounce(0, None), trace).forwarded == [trace[0], trace[4]]
  {
    var trace := [Timed(e, 2_000_000), Timed(e, 2_100_000), Timed(e, 2_200_000), Timed(e, 2_300_000), Timed(e, 3_500_000)];
    var accepted := Debounce(2_000_000, Some(2_000_000));
    assert Run(Debounce(2_000_000, Some(1_200_000)), []) == RunResult(Debounce(2_000_000, Some(1_200_000)), []);
    assert Run(Debounce(2_000_000, Some(300_000)), trace[4..]).forwarded == [trace[4]];
    assert Run(Debounce(2_000_000, Some(200_000)), trace[3..]).forwarded == [trace[4]];
    assert Run(Debounce(2_000_000, Some(100_000)), trace[2..]).forwarded == [trace[4]];
    assert Run(accepted, trace[1..]).forwarded == [trace[4]];
  }

  /** Whether `_BaseEventHandler.dispatch` passes the event on, and the state it leaves. */
  class EventFilter {
    /** The include and ignore patterns (apart from the backup glob) on one path. */
    const patterns: string -> bool
    var changeDt: int
    var sinceChange: Option<int>

    function State(): Debounce
      reads this
    {
      Debounce(changeDt, sinceChange)
    }

    predicate Accepts(e: Event)
    {
      Admits(patterns, e)
    }

    /** `_BaseEventHandler.__init__` at time `now`. */
    constructor (now: int, patterns: string -> bool)
      ensures State() == Debounce(now, None) && this.patterns == patterns
    {
      this.patterns := patterns;
      changeDt := now;
      sinceChange := None;
    }

    /** `_BaseEventHandler.dispatch` up to the call of the watcher's dispatch. */
    method Dispatch(e: Event, now: int) returns (forwarded: bool)
      modifies this
      ensures StepResult(State(), forwarded) == Step(old(State()), e, now)
    {
      if e.kind.Moved? && !e.isDirectory {
        if IsJbBackup(e.src) || IsJbBackup(e.kind.dest) {
          return false;
        }
      }
      sinceChange := Some(now - changeDt);
      if now - changeDt <= Window {
        return false;
      }
      changeDt := now;
      return true;
    }
  }

  // ---------------------------------------------------------------------------
  // The supervised process of `CodeFileEventHandler`

  /** What `_start_process` and `stop_process` do to the operating system. */
  datatype ProcessAction = Spawn | Interrupt | Join(timeout: int) | ReportDead

  /**
   * The process slot: whether the current process is alive, how many were
   * spawned, how many were replaced while still running, and every action
   * taken, in order.
   */
  datatype Supervisor = Supervisor(alive: bool, spawned: nat, stale: nat, actions: seq<ProcessAction>)

  const NoProcess := Supervisor(false, 0, 0, [])

  /** `_start_process`: a fresh process replaces the slot; a still-running one is left behind. */
  function Start(s: Supervisor): (r: Supervisor)
    ensures r.alive && r.spawned == s.spawned + 1 && r.actions == s.actions + [Spawn]
  {
    Supervisor(true, s.spawned + 1, s.stale + (if s.alive then 1 else 0), s.actions + [Spawn])
  }

  /**
   * `stop_process`: an interrupt and a bounded join only for a live process
   * (`exitsInTime` says whether it exits within the join); a dead one is
   * only reported.
   */
  function Stop(s: Supervisor, exitsInTime: bool): (r: Supervisor)
    ensures r.spawned == s.spawned && r.stale == s.stale
    ensures s.alive ==> r.actions == s.actions + [Interrupt, Join(JoinTimeout)] && r.alive == !exitsInTime
    ensures !s.alive ==> r.actions == s.actions + [ReportDead] && !r.alive
  {
    if s.alive then Supervisor(!exitsInTime, s.spawned, s.stale, s.actions + [Interrupt, Join(JoinTimeout)])
    else Supervisor(false, s.spawned, s.stale, s.actions + [ReportDead])
  }

  /** `on_any_event` of the code handler: stop, then start. */
  function Restart(s: Supervisor, exitsInTime: bool): (r: Supervisor)
    ensures r.alive && r.spawned == s.spawned + 1 && r.stale >= s.stale
    ensures |r.actions| > |s.actions| && r.actions[..|s.actions|] == s.actions && r.actions[|r.actions| - 1] == Spawn
  {
    Start(Stop(s, exitsInTime))
  }

  /** The process ends by itself. */
  function Exited(s: Supervisor): (r: Supervisor)
  {
    s.(alive := false)
  }

  /** What can happen to the slot once the handler exists. */
  datatype SupervisorEvent = ProcessEnded | RestartRequested(exitsInTime: bool)

  function Apply(s: Supervisor, ev: SupervisorEvent): (r: Supervisor)
  {
    match ev
    case ProcessEnded => Exited(s)
    case RestartRequested(exitsInTime) => Restart(s, exitsInTime)
  }

  function ApplyAll(s: Supervisor, evs: seq<SupervisorEvent>): (r: Supervisor)
    decreases |evs|
  {
    if evs == [] then s else ApplyAll(Apply(s, evs[0]), evs[1..])
  }

  function Restarts(evs: seq<SupervisorEvent>): (n: nat)
  {
    if evs == [] then 0 else (if evs[0].RestartRequested? then 1 else 0) + Restarts(evs[1..])
  }

  function TimedOut(evs: seq<SupervisorEvent>): (n: nat)
  {
    if evs == [] then 0 else (if evs[0] == RestartRequested(false) then 1 else 0) + TimedOut(evs[1..])
  }

  /** A stop of a live process followed by a start leaves a stale process exactly when the join timed out. */
  lemma RestartLive(s: Supervisor, exitsInTime: bool)
    requires s.alive
    ensures var r := Restart(s, exitsInTime);
      r.alive && r.spawned == s.spawned + 1
      && r.stale == s.stale + (if exitsInTime then 0 else 1)
      && r.actions == s.actions + [Interrupt, Join(JoinTimeout), Spawn]
  {
  }

  /** Restarting a dead process signals nothing: it is reported and a new one is spawned. */
  lemma RestartDead(s: Supervisor, exitsInTime: bool)
    requires !s.alive
    ensures Restart(s, exitsInTime) == Supervisor(true, s.spawned + 1, s.stale, s.actions + [ReportDead, Spawn])
  {
  }

  /**
   * From construction (one spawn), each restart spawns exactly one more
   * process, and processes are left running only by joins that timed out.
   */
  lemma {:induction false} SupervisorCounts(s: Supervisor, evs: seq<SupervisorEvent>)
    decreases |evs|
    ensures ApplyAll(s, evs).spawned == s.spawned + Restarts(evs)
    ensures ApplyAll(s, evs).stale <= s.stale + TimedOut(evs)
  {
    if evs != [] {
      SupervisorCounts(Apply(s, evs[0]), evs[1..]);
    }
  }

  /** From `s` on, every restart that finds the process alive sees it exit within the join. */
  predicate JoinsSucceed(s: Supervisor, evs: seq<SupervisorEvent>)
    decreases |evs|
  {
    evs == [] || ((evs[0] == RestartRequested(false) ==> !s.alive) && JoinsSucceed(Apply(s, evs[0]), evs[1..]))
  }

  /** Without a timed-out join, no process is left behind. */
  lemma {:induction false} NoStaleWhenJoinsSucceed(s: Supervisor, evs: seq<SupervisorEvent>)
    requires JoinsSucceed(s, evs)
    decreases |evs|
    ensures ApplyAll(s, evs).stale == s.stale
  {
    if evs != [] {
      assert Apply(s, evs[0]).stale == s.stale;
      NoStaleWhenJoinsSucceed(Apply(s, evs[0]), evs[1..]);
    }
  }

  /**
   * When every interrupted process exits within the join (a restart of a
   * dead process needs no join), at most one process ever runs.
   */
  lemma OneProcessWhenJoinsSucceed(evs: seq<SupervisorEvent>)
    requires JoinsSucceed(Start(NoProcess), evs)
    ensures ApplyAll(Start(NoProcess), evs).stale == 0
    ensures ApplyAll(Start(NoProcess), evs).spawned == 1 + Restarts(evs)
  {
    NoStaleWhenJoinsSucceed(Start(NoProcess), evs);
    SupervisorCounts(Start(NoProcess), evs);
  }

  // ---------------------------------------------------------------------------
  // The two handlers

  /** `CodeFileEventHandler`: restarts the app process on code changes. */
  class CodeFileEventHandler {
    const filter: EventFilter
    var alive: bool
    var spawned: nat
    var stale: nat
    var actions: seq<ProcessAction>

    function Slot(): Supervisor
      reads this
    {
      Supervisor(alive, spawned, stale, actions)
    }

    /** Construction at time `now` starts the first process. */
    constructor (now: int, patterns: string -> bool)
      ensures fresh(filter)
      ensures filter.State() == Debounce(now, None) && filter.patterns == patterns
      ensures Slot() == Start(NoProcess)
    {
      filter := new EventFilter(now, patterns);
      alive, spawned, stale, actions := false, 0, 0, [];
      new;
      StartProcess();
    }

    method StartProcess()
      modifies this
      ensures Slot() == Start(old(Slot()))
    {
      if alive {
        stale := stale + 1;
      }
      alive, spawned, actions := true, spawned + 1, actions + [Spawn];
    }

    method StopProcess(exitsInTime: bool)
      modifies this
      ensures Slot() == Stop(old(Slot()), exitsInTime)
    {
      if alive {
        actions := actions + [Interrupt, Join(JoinTimeout)];
        alive := !exitsInTime;
      } else {
        actions := actions + [ReportDead];
      }
    }

    method OnAnyEvent(exitsInTime: bool)
      modifies this
      ensures Slot() == Restart(old(Slot()), exitsInTime)
    {
      StopProcess(exitsInTime);
      StartProcess();
    }

    /** The process ends on its own. */
    method ProcessEnded()
      modifies this
      ensures Slot() == Exited(old(Slot()))
    {
      alive := false;
    }

    /**
     * An event reaches the handler at time `now`. The debounce state moves
     * whether or not the patterns then accept the event; only an accepted
     * forwarded event restarts the process.
     */
    method Dispatch(e: Event, now: int, exitsInTime: bool) returns (restarted: bool)
      modifies this, filter
      ensures var step := Step(old(filter.State()), e, now);
        && filter.State() == step.next
        && restarted == (step.forwarded && filter.Accepts(e))
        && Slot() == if restarted then Restart(old(Slot()), exitsInTime) else old(Slot())
    {
      var forwarded := filter.Dispatch(e, now);
      restarted := forwarded && filter.Accepts(e);
      if restarted {
        OnAnyEvent(exitsInTime);
      }
    }
  }

  /** `StaticFileEventEventHandler`: asks the auxiliary app to reload changed assets. */
  class StaticFileEventHandler {
    const filter: EventFilter
    const app: Serve.AuxiliaryApp

    constructor (app: Serve.AuxiliaryApp, now: int, patterns: string -> bool)
      ensures fresh(filter) && this.app == app
      ensures filter.State() == Debounce(now, None) && filter.patterns == patterns
    {
      this.app := app;
      filter := new EventFilter(now, patterns);
    }

    /**
     * An event reaches the handler at time `now`; `broken` holds the sessions
     * whose transport raises on send. `reload` is `None` when
     * `static_reload` was not called, and its outcome otherwise.
     */
    method Dispatch(e: Event, now: int, broken: set<Serve.SessionId>) returns (reload: Option<Result<(), Serve.ReloadError>>)
      modifies filter, app`wire
      ensures var step := Step(old(filter.State()), e, now);
        && filter.State() == step.next
        && (reload.Some? <==> step.forwarded && filter.Accepts(e))
        && (reload.None? ==> app.wire == old(app.wire))
        && (reload.Some? ==>
              var effect := Serve.StaticReloadEffect(app.staticRoot, app.sessions, Parse(e.src), broken);
              reload.value == effect.result && app.wire == old(app.wire) + effect.sent)
    {
      var forwarded := filter.Dispatch(e, now);
      if forwarded && filter.Accepts(e) {
        var result := app.StaticReload(Parse(e.src), broken);
        reload := Some(result);
      } else {
        reload := None;
      }
    }
  }
}
