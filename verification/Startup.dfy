/**
 The startup handshake of backends/vllm_deepseek/policy.py: the thread that initializes the model
 waits, up to a deadline, for a coroutine on another thread that builds and publishes the engine.
 Every section under the condition's lock is one step, except that the timeout branch sets the
 abort flag and stores its error in two; checks made without the lock are steps of their own.
 */
module Startup {
  import opened Wrappers

  /** `Other` is any exception, a cancellation included. */
  datatype Error = Timeout | ExitedEarly | Other(id: nat)

  /** The initializing thread; `TimingOut` holds the lock between its two writes. */
  datatype InitPc =
    | Launching
    | Looking                   // at the head of its loop
    | Sleeping(notified: bool)
    | TimingOut
    | Leaving                   // out of the loop and of the lock
    | CleaningUp(cause: Error)
    | Raised(error: Error)
    | Succeeded

  /** The coroutine; `Closing` is the exit of the engine's context manager. */
  datatype EnginePc =
    | Off
    | Building
    | Entered
    | Querying
    | Queried
    | Publishing                // about to take the lock
    | Serving
    | Failing(failure: Error)   // about to record what went wrong inside the context
    | Closing(pending: Option<Error>)
    | Reporting(failure: Error) // about to record what left the context
    | Ending                    // in the `finally` block
    | Over

  /** `published` and `timedOut` are history: an engine was published, a timeout was stored. */
  datatype World = World(init: InitPc, engine: EnginePc, done: bool, error: Option<Error>, aborted: bool,
                         live: bool, published: bool, timedOut: bool)

  /** A step of the initializing thread, or of the coroutine; awaiting may raise. */
  datatype Action = InitStep(expired: bool) | EngineStep(raised: Option<Error>)

  const START := World(Launching, Off, false, None, false, false, false, false)

  function NotifyAll(w: World): World {
    if w.init.Sleeping? then w.(init := Sleeping(true)) else w
  }

  /** Keeps the first error. */
  function Recorded(w: World, e: Error): World {
    NotifyAll(w.(error := if w.error.None? then Some(e) else w.error, done := true))
  }

  function InitStepped(w: World, expired: bool): World {
    match w.init
    case Launching => w.(init := Looking, engine := if w.engine.Off? then Building else w.engine)
    case Looking =>
      if w.done then w.(init := Leaving)
      else if expired then w.(init := TimingOut, aborted := true)
      else w.(init := Sleeping(false))
    case Sleeping(notified) => if notified || expired then w.(init := Looking) else w
    case TimingOut => w.(init := Leaving, error := Some(Timeout), timedOut := true)
    case Leaving => w.(init := if w.error.Some? then CleaningUp(w.error.value) else Succeeded)
    case CleaningUp(e) => w.(init := Raised(e), aborted := true)
    case _ => w
  }

  function Closed(w: World): World {
    w.(engine := Closing(None))
  }

  function EngineStepped(w: World, raised: Option<Error>): World {
    match w.engine
    case Building => w.(engine := if raised.Some? then Reporting(raised.value) else Entered)
    case Entered => if w.aborted then Closed(w) else w.(engine := Querying)
    case Querying => w.(engine := if raised.Some? then Failing(raised.value) else Queried)
    case Queried => if w.aborted then Closed(w) else w.(engine := Publishing)
    case Publishing =>
      if w.init.TimingOut? then w
      else if w.aborted then Closed(w)
      else NotifyAll(w.(engine := Serving, live := true, published := true, done := true))
    case Serving => if raised.Some? then w.(engine := Failing(raised.value)) else Closed(w)
    case Failing(e) => if w.init.TimingOut? then w else Recorded(w.(engine := Closing(Some(e))), e)
    case Closing(pending) =>
      w.(engine := if raised.Some? then Reporting(raised.value)
                   else if pending.Some? then Reporting(pending.value) else Ending)
    case Reporting(e) => if w.init.TimingOut? then w else Recorded(w.(engine := Ending), e)
    case Ending => if w.init.TimingOut? then w else Ended(w)
    case _ => w
  }

  function Ended(w: World): World {
    var v := if w.done then NotifyAll(w) else Recorded(w, ExitedEarly);
    v.(engine := Over, live := false)
  }

  function Step(w: World, a: Action): World {
    match a
    case InitStep(expired) => InitStepped(w, expired)
    case EngineStep(raised) => EngineStepped(w, raised)
  }

  function Run(w: World, acts: seq<Action>): World
    decreases |acts|
  {
    if acts == [] then w else Run(Step(w, acts[0]), acts[1..])
  }

  // ---------------------------------------------------------------- the invariant

  predicate Inv(w: World) {
    && (w.published ==> w.done)
    && (w.live ==> w.published)
    && (w.done && w.error.None? ==> w.published)
    && (w.error.Some? ==> w.done || w.timedOut)
    && (w.timedOut ==> w.aborted && w.error == Some(Timeout) && !w.published && !w.init.Looking? && !w.init.Sleeping?)
    && (w.error == Some(Timeout) && !w.timedOut ==> w.done)
    && (w.init.Launching? || w.init.Looking? || w.init.Sleeping? ==> !w.aborted)
    && (w.init.Sleeping? && !w.init.notified ==> !w.done)
    && (w.init.TimingOut? ==> w.aborted && !w.done && w.error.None? && !w.timedOut)
    && (w.init.Leaving? ==> w.timedOut || (w.done && !w.aborted))
    && (w.init.CleaningUp? ==> w.error == Some(w.init.cause))
    && (w.init.Raised? ==> w.error == Some(w.init.error))
    && (w.init.Succeeded? ==> w.published && !w.aborted)
    && (w.engine.Over? ==> w.done && !w.live)
    && (w.engine.Off? ==> w.init.Launching?)
  }

  lemma InvInit(w: World, expired: bool)
    requires Inv(w)
    ensures Inv(InitStepped(w, expired))
  {}

  lemma InvEngine(w: World, raised: Option<Error>)
    requires Inv(w)
    ensures Inv(EngineStepped(w, raised))
  {
    hide Recorded;
    match w.engine
    case Failing(e) => if !w.init.TimingOut? { InvRecorded(w.(engine := Closing(Some(e))), e); }
    case Reporting(e) => if !w.init.TimingOut? { InvRecorded(w.(engine := Ending), e); }
    case Ending => if !w.init.TimingOut? && !w.done { InvRecorded(w, ExitedEarly); }
    case _ =>
  }

  lemma InvRecorded(w: World, e: Error)
    requires Inv(w) && !w.init.TimingOut? && !w.engine.Off? && !w.engine.Over?
    ensures Inv(Recorded(w, e)) && Recorded(w, e).done
  {}

  lemma {:induction false} InvRun(w: World, acts: seq<Action>)
    requires Inv(w)
    ensures Inv(Run(w, acts))
    decreases |acts|
  {
    if acts != [] {
      InvInit(w, match acts[0] case InitStep(x) => x case _ => false);
      InvEngine(w, match acts[0] case EngineStep(x) => x case _ => None);
      InvRun(Step(w, acts[0]), acts[1..]);
    }
  }

  lemma {:induction false} RunSplits(w: World, acts: seq<Action>, more: seq<Action>)
    ensures Run(w, acts + more) == Run(Run(w, acts), more)
    decreases |acts|
  {
    if acts == [] {
      assert acts + more == more;
    } else {
      assert (acts + more)[0] == acts[0] && (acts + more)[1..] == acts[1..] + more;
      RunSplits(Step(w, acts[0]), acts[1..], more);
    }
  }

  // ---------------------------------------------------------------- what never changes again

  lemma StepKeepsDecisions(w: World, a: Action)
    requires Inv(w)
    ensures var v := Step(w, a);
      && (w.error.Some? ==> v.error == w.error)
      && (w.timedOut ==> v.timedOut)
      && (w.aborted ==> v.aborted && v.published == w.published)
      && (w.init.Raised? || w.init.Succeeded? ==> v.init == w.init)
  {}

  lemma {:induction false} RunKeepsDecisions(w: World, acts: seq<Action>)
    requires Inv(w)
    ensures var v := Run(w, acts);
      && (w.error.Some? ==> v.error == w.error)
      && (w.timedOut ==> v.timedOut)
      && (w.aborted ==> v.aborted && v.published == w.published)
      && (w.init.Raised? || w.init.Succeeded? ==> v.init == w.init)
    decreases |acts|
  {
    if acts != [] {
      StepKeepsDecisions(w, acts[0]);
      InvRun(w, acts[..1]);
      assert Run(w, acts[..1]) == Step(w, acts[0]) by { assert acts[..1][1..] == []; }
      RunKeepsDecisions(Step(w, acts[0]), acts[1..]);
    }
  }

  // ---------------------------------------------------------------- main results

  /** Once a timeout is stored, no engine has been published, is, or ever will be. */
  lemma NoLatePublication(acts: seq<Action>, more: seq<Action>)
    requires Run(START, acts).timedOut
    ensures var v := Run(START, acts + more); !v.published && !v.live && v.error == Some(Timeout)
  {
    RunSplits(START, acts, more);
    InvRun(START, acts);
    RunKeepsDecisions(Run(START, acts), more);
    InvRun(Run(START, acts), more);
  }

  /** Initialization succeeds only after a publication, and before any abort. */
  lemma SuccessMeansPublished(acts: seq<Action>)
    requires Run(START, acts).init.Succeeded?
    ensures var w := Run(START, acts); w.published && w.done && !w.aborted && !w.timedOut
  {
    InvRun(START, acts);
  }

  /** The first error recorded is the one that is raised, and nothing replaces it, in any later state. */
  lemma FirstErrorWins(acts: seq<Action>, more: seq<Action>, e: Error)
    requires Run(START, acts).error == Some(e)
    ensures var v := Run(START, acts + more);
      && v.error == Some(e)
      && (v.init.Raised? ==> v.init.error == e)
      && (v.init.Succeeded? ==> Run(START, acts + more).published)
  {
    RunSplits(START, acts, more);
    InvRun(START, acts);
    RunKeepsDecisions(Run(START, acts), more);
    InvRun(START, acts + more);
  }

  /** After an abort nothing further is published, whoever asked for it. */
  lemma NothingPublishedAfterAbort(acts: seq<Action>, more: seq<Action>)
    requires Run(START, acts).aborted && !Run(START, acts).published
    ensures !Run(START, acts + more).published && !Run(START, acts + more).live
  {
    RunSplits(START, acts, more);
    InvRun(START, acts);
    RunKeepsDecisions(Run(START, acts), more);
    InvRun(Run(START, acts), more);
  }

  /** The steps left to the initializing thread once the coroutine has decided. */
  function Left(init: InitPc): nat {
    match init
    case Launching => 5
    case Sleeping(_) => 4
    case Looking => 3
    case TimingOut => 3
    case Leaving => 2
    case CleaningUp(_) => 1
    case _ => 0
  }

  /** Once the outcome is known, each step of the initializing thread brings it closer to its end: no wakeup is lost. */
  lemma {:induction false} DecidedMeansFinishing(acts: seq<Action>, expired: bool)
    requires Run(START, acts).done && Left(Run(START, acts).init) > 0
    ensures var w := Run(START, acts); Left(InitStepped(w, expired).init) < Left(w.init)
  {
    InvRun(START, acts);
  }

  /** However the coroutine ends, it has decided, and its engine is no longer offered. */
  lemma EndedMeansDecided(acts: seq<Action>)
    requires Run(START, acts).engine.Over?
    ensures var w := Run(START, acts); w.done && !w.live && (w.error.None? ==> w.published)
  {
    InvRun(START, acts);
  }

  /** Once initialization has raised its error, the coroutine is told to stop, and publishes nothing it has not. */
  lemma RaisedMeansAborted(acts: seq<Action>, more: seq<Action>)
    requires Run(START, acts).init.Raised?
    ensures Run(START, acts).aborted && Run(START, acts + more).published == Run(START, acts).published
  {
    RaisedAborted(START, acts);
    RunSplits(START, acts, more);
    InvRun(START, acts);
    RunKeepsDecisions(Run(START, acts), more);
  }

  lemma {:induction false} RaisedAborted(w: World, acts: seq<Action>)
    requires Inv(w) && (w.init.Raised? ==> w.aborted)
    ensures Run(w, acts).init.Raised? ==> Run(w, acts).aborted
    decreases |acts|
  {
    if acts != [] {
      InvInit(w, match acts[0] case InitStep(x) => x case _ => false);
      InvEngine(w, match acts[0] case EngineStep(x) => x case _ => None);
      StepKeepsDecisions(w, acts[0]);
      RaisedAborted(Step(w, acts[0]), acts[1..]);
    }
  }

  /** The steps of the coroutine that may be left. */
  function Remaining(engine: EnginePc): nat {
    match engine
    case Off => 11
    case Building => 10
    case Entered => 9
    case Querying => 8
    case Queried => 7
    case Publishing => 6
    case Serving => 5
    case Failing(_) => 4
    case Closing(_) => 3
    case Reporting(_) => 2
    case Ending => 1
    case Over => 0
  }

  /** Each step of a coroutine that runs brings it closer to its end, unless it waits for the lock. */
  lemma CoroutineEnds(w: World, raised: Option<Error>)
    requires Inv(w) && !w.engine.Off? && !w.engine.Over?
    ensures var v := EngineStepped(w, raised);
      || Remaining(v.engine) < Remaining(w.engine)
      || (v == w && w.init.TimingOut? && (w.engine.Publishing? || w.engine.Failing? || w.engine.Reporting? || w.engine.Ending?))
  {}

  /** As long as nothing is decided and there is time, the thread sleeps; only a notice or the deadline wakes it. */
  lemma WaitsAsleep(w: World)
    requires Inv(w) && w.init.Looking? && !w.done
    ensures InitStepped(w, false) == w.(init := Sleeping(false))
    ensures InitStepped(InitStepped(w, false), false) == InitStepped(w, false)
    ensures forall notified, expired :: InitStepped(w.(init := Sleeping(notified)), expired).init.Looking? <==> notified || expired
  {}

  // ---------------------------------------------------------------- where errors come from

  /** The error that the coroutine carries on its way. */
  function Carried(engine: EnginePc): Option<Error> {
    match engine
    case Failing(e) => Some(e)
    case Closing(e) => e
    case Reporting(e) => Some(e)
    case _ => None
  }

  /** An error is the timeout, an early exit, or one that was raised in the run. */
  predicate ComesFrom(e: Error, acts: seq<Action>) {
    e == Timeout || e == ExitedEarly || EngineStep(Some(e)) in acts
  }

  lemma RecordedSource(w: World, e: Error)
    ensures (Recorded(w, e).error == w.error || Recorded(w, e).error == Some(e)) && Recorded(w, e).engine == w.engine
  {}

  lemma EndedSource(w: World)
    ensures (Ended(w).error == w.error || Ended(w).error == Some(ExitedEarly)) && Ended(w).engine == Over
  {}

  predicate SourceOf(was: World, a: Action, now: World) {
    && (now.error == was.error || now.error == Some(Timeout) || now.error == Some(ExitedEarly) || now.error == Carried(was.engine))
    && (Carried(now.engine).Some? ==> Carried(now.engine) == Carried(was.engine) || a == EngineStep(Carried(now.engine)))
  }

  lemma FailingSource(w: World, raised: Option<Error>)
    requires w.engine.Failing? || w.engine.Reporting? || w.engine.Ending?
    ensures SourceOf(w, EngineStep(raised), EngineStepped(w, raised))
  {
    hide Recorded, Ended;
    match w.engine
    case Failing(e) => RecordedSource(w.(engine := Closing(Some(e))), e);
    case Reporting(e) => RecordedSource(w.(engine := Ending), e);
    case Ending => EndedSource(w);
  }

  lemma PublishingSource(w: World, raised: Option<Error>)
    requires w.engine.Publishing?
    ensures SourceOf(w, EngineStep(raised), EngineStepped(w, raised))
  {}

  lemma RunningSource(w: World, raised: Option<Error>)
    requires !w.engine.Failing? && !w.engine.Reporting? && !w.engine.Ending? && !w.engine.Publishing?
    ensures SourceOf(w, EngineStep(raised), EngineStepped(w, raised))
  {
    hide Recorded, Ended, NotifyAll;
  }

  lemma InitSource(w: World, expired: bool)
    ensures SourceOf(w, InitStep(expired), InitStepped(w, expired))
  {}

  lemma StepSources(w: World, a: Action)
    ensures SourceOf(w, a, Step(w, a))
  {
    hide EngineStepped, InitStepped, SourceOf;
    match a
    case InitStep(expired) => InitSource(w, expired);
    case EngineStep(raised) =>
      if w.engine.Publishing? { PublishingSource(w, raised); }
      else if w.engine.Failing? || w.engine.Reporting? || w.engine.Ending? { FailingSource(w, raised); }
      else { RunningSource(w, raised); }
  }

  lemma ComesAlong(e: Error, acts: seq<Action>, a: Action)
    ensures ComesFrom(e, acts) || a == EngineStep(Some(e)) ==> ComesFrom(e, acts + [a])
  {
    assert a in acts + [a];
  }

  /** The errors of a state come from these actions. */
  predicate Accounted(w: World, acts: seq<Action>) {
    && (w.error.Some? ==> ComesFrom(w.error.value, acts))
    && (Carried(w.engine).Some? ==> ComesFrom(Carried(w.engine).value, acts))
  }

  lemma StepErrors(w: World, a: Action, acts: seq<Action>)
    requires Accounted(w, acts)
    ensures Accounted(Step(w, a), acts + [a])
  {
    var v := Step(w, a);
    StepSources(w, a);
    hide Step, Carried;
    if v.error.Some? { ComesAlong(v.error.value, acts, a); }
    if Carried(v.engine).Some? { ComesAlong(Carried(v.engine).value, acts, a); }
  }

  lemma {:induction false} RunErrors(acts: seq<Action>, n: nat)
    requires n <= |acts|
    ensures Accounted(Run(START, acts[..n]), acts[..n])
  {
    if n > 0 {
      RunErrors(acts, n - 1);
      assert acts[..n] == acts[..n - 1] + [acts[n - 1]];
      RunSplits(START, acts[..n - 1], [acts[n - 1]]);
      RunOne(Run(START, acts[..n - 1]), [acts[n - 1]]);
      assert [acts[n - 1]][1..] == [];
      hide Step, Accounted;
      StepErrors(Run(START, acts[..n - 1]), acts[n - 1], acts[..n - 1]);
    }
  }

  /** What initialization raises is its timeout, or the exit of a coroutine that has done nothing, or what the coroutine has raised. */
  lemma RaisedIsReported(acts: seq<Action>, e: Error)
    requires Run(START, acts).error == Some(e) || Run(START, acts).init == Raised(e)
    ensures ComesFrom(e, acts)
  {
    InvRun(START, acts);
    RunErrors(acts, |acts|);
    assert acts[..|acts|] == acts;
  }

  // ---------------------------------------------------------------- success is possible

  /** The coroutine has not come to its publication yet. */
  predicate OnTheWay(w: World) {
    !w.aborted && (w.engine.Off? || w.engine.Building? || w.engine.Entered? || w.engine.Querying? || w.engine.Queried? || w.engine.Publishing?)
  }

  /** The steps left to the publication. */
  function Ahead(engine: EnginePc): nat {
    match engine
    case Off => 6
    case Building => 5
    case Entered => 4
    case Querying => 3
    case Queried => 2
    case Publishing => 1
    case _ => 0
  }

  lemma {:induction false} WayToPublish(w: World) returns (more: seq<Action>)
    requires Inv(w) && OnTheWay(w)
    ensures Run(w, more).published && Run(w, more).live && !Run(w, more).aborted
    decreases Ahead(w.engine)
  {
    var a := if w.engine.Off? then InitStep(false) else EngineStep(None);
    var v := Step(w, a);
    InvInit(w, false);
    InvEngine(w, None);
    var rest := [];
    if w.engine.Publishing? {
      assert Run(v, []) == v;
    } else {
      rest := WayToPublish(v);
    }
    more := [a] + rest;
    assert more[1..] == rest;
  }

  /** From a state with a publication and without an abort the initializing thread can go on to its success. */
  lemma {:induction false} WayToSucceed(w: World) returns (more: seq<Action>)
    requires Inv(w) && w.published && !w.aborted && w.error.None? && !w.init.Launching?
    ensures Run(w, more).init.Succeeded?
    decreases Left(w.init)
  {
    if w.init.Succeeded? {
      more := [];
    } else {
      var v := InitStepped(w, false);
      InvInit(w, false);
      var rest := WayToSucceed(v);
      more := [InitStep(false)] + rest;
      assert more[1..] == rest;
    }
  }

  lemma StepOffTheWay(w: World, a: Action)
    requires Inv(w) && !w.published && !OnTheWay(w)
    ensures !Step(w, a).published && !OnTheWay(Step(w, a))
  {}

  lemma {:induction false} StaysOffTheWay(w: World, more: seq<Action>)
    requires Inv(w) && !w.published && !OnTheWay(w)
    ensures !Run(w, more).published
    decreases |more|
  {
    if more != [] {
      StepOffTheWay(w, more[0]);
      InvInit(w, match more[0] case InitStep(x) => x case _ => false);
      InvEngine(w, match more[0] case EngineStep(x) => x case _ => None);
      StaysOffTheWay(Step(w, more[0]), more[1..]);
    }
  }

  /**
   In every state that can be reached, an engine was published or can still be, exactly if it was
   or if nothing is aborted and the coroutine has not failed on its way to the publication.
   */
  lemma PublicationIsPossible(acts: seq<Action>)
    ensures (exists more: seq<Action> :: Run(START, acts + more).published) <==>
      Run(START, acts).published || OnTheWay(Run(START, acts))
  {
    var w := Run(START, acts);
    InvRun(START, acts);
    if exists more: seq<Action> :: Run(START, acts + more).published {
      var more: seq<Action> :| Run(START, acts + more).published;
      RunSplits(START, acts, more);
      if !w.published && !OnTheWay(w) { StaysOffTheWay(w, more); }
    }
    if w.published {
      assert acts + [] == acts;
      assert Run(START, acts + []).published;
    } else if OnTheWay(w) {
      var more := WayToPublish(w);
      RunSplits(START, acts, more);
      assert Run(START, acts + more).published;
    }
  }

  /** Initialization can succeed. */
  lemma SuccessIsPossible()
    ensures exists acts: seq<Action> :: Run(START, acts).init.Succeeded? && Run(START, acts).live
  {
    var acts := [InitStep(false), EngineStep(None), EngineStep(None), EngineStep(None), EngineStep(None), EngineStep(None)];
    var published := World(Looking, Serving, true, None, false, true, true, false);
    FirstSteps(acts);
    var end := [InitStep(false), InitStep(false)];
    LastSteps(published, end);
    RunSplits(START, acts, end);
    assert Run(START, acts + end).init.Succeeded?;
  }

  lemma FirstSteps(acts: seq<Action>)
    requires acts == [InitStep(false), EngineStep(None), EngineStep(None), EngineStep(None), EngineStep(None), EngineStep(None)]
    ensures Run(START, acts) == World(Looking, Serving, true, None, false, true, true, false)
  {
    var a := START.(init := Looking, engine := Building);
    RunOne(START, acts);
    RunOne(a, acts[1..]);
    RunOne(a.(engine := Entered), acts[1..][1..]);
    RunOne(a.(engine := Querying), acts[1..][1..][1..]);
    RunOne(a.(engine := Queried), acts[1..][1..][1..][1..]);
    RunOne(a.(engine := Publishing), acts[1..][1..][1..][1..][1..]);
    assert acts[1..][1..][1..][1..][1..][1..] == [];
  }

  lemma LastSteps(w: World, acts: seq<Action>)
    requires w == World(Looking, Serving, true, None, false, true, true, false) && acts == [InitStep(false), InitStep(false)]
    ensures Run(w, acts) == w.(init := Succeeded)
  {
    RunOne(w, acts);
    RunOne(w.(init := Leaving), acts[1..]);
    assert acts[1..][1..] == [];
  }

  lemma RunOne(w: World, acts: seq<Action>)
    requires acts != []
    ensures Run(w, acts) == Run(Step(w, acts[0]), acts[1..])
  {}

  // ---------------------------------------------------------------- the sections under the lock

  class Handshake {
    var done: bool
    var error: Option<Error>
    var aborted: bool
    var live: bool

    constructor ()
      ensures !done && error == None && !aborted && !live
    {
      done, error, aborted, live := false, None, false, false;
    }

    /** The fields of a world are those of the object. */
    ghost predicate Shows(w: World)
      reads this
    {
      done == w.done && error == w.error && aborted == w.aborted && live == w.live
    }

    method Publish(ghost w: World) returns (ok: bool)
      requires Shows(w) && w.engine.Publishing? && !w.init.TimingOut?
      modifies this
      ensures Shows(EngineStepped(w, None)) && ok == EngineStepped(w, None).engine.Serving?
    {
      if aborted { return false; }
      live := true;
      done := true;
      return true;
    }

    /** Either `except` block. */
    method Record(cause: Error, ghost w: World)
      requires Shows(w) && !w.init.TimingOut? && (w.engine == Failing(cause) || w.engine == Reporting(cause))
      modifies this
      ensures Shows(EngineStepped(w, None))
    {
      if error == None {
        error := Some(cause);
      }
      done := true;
    }

    /** The `finally` block. */
    method End(ghost w: World)
      requires Shows(w) && w.engine.Ending? && !w.init.TimingOut?
      modifies this
      ensures Shows(EngineStepped(w, None))
    {
      live := false;
      if !done {
        done := true;
        if error == None {
          error := Some(ExitedEarly);
        }
      }
    }

    /** The timeout branch, its two steps in one. */
    method TimeOut(ghost w: World)
      requires Shows(w) && w.init.Looking? && !w.done
      modifies this
      ensures Shows(InitStepped(InitStepped(w, true), true))
    {
      aborted := true;
      error := Some(Timeout);
    }
  }
}
