/**
 Setting up a test environment, running a test in it and tearing it down: every resource acquired
 is released, whatever fails on the way.
 */
module Lifecycle {
  import opened Wrappers
  import opened ErrorTrees

  datatype Event =
    | MkTemp | RmTemp
    | StartServer | StopServer
    | Spawn | SigTerm | SigKill | Reap

  datatype Resource = TempDir | Server | Process(killed: bool, reaped: bool)

  datatype Stack = Empty | Push(top: Resource, below: Stack)

  /**
   The resources held after the events, newest on top; None if some event releases what is not the
   newest resource. A process counts as released once its group was sent SIGKILL and it was reaped.
   */
  function Held(events: seq<Event>): Option<Stack> {
    if events == [] then Some(Empty)
    else
      match Held(events[..|events| - 1])
      case None => None
      case Some(held) => After(held, events[|events| - 1])
  }

  function After(held: Stack, e: Event): Option<Stack> {
    match (e, held)
    case (MkTemp, _) => Some(Push(TempDir, held))
    case (StartServer, _) => Some(Push(Server, held))
    case (Spawn, _) => Some(Push(Process(false, false), held))
    case (RmTemp, Push(TempDir, below)) => Some(below)
    case (StopServer, Push(Server, below)) => Some(below)
    case (SigTerm, Push(Process(_, _), _)) => Some(held)
    case (SigKill, Push(Process(false, reaped), below)) =>
      if reaped then Some(below) else Some(Push(Process(true, false), below))
    case (Reap, Push(Process(killed, false), below)) =>
      if killed then Some(below) else Some(Push(Process(false, true), below))
    case _ => None
  }

  function Count(events: seq<Event>, e: Event): nat {
    if events == [] then 0 else Count(events[..|events| - 1], e) + if events[|events| - 1] == e then 1 else 0
  }

  predicate IsDir(r: Resource) { r.TempDir? }

  predicate IsServer(r: Resource) { r.Server? }

  predicate Unkilled(r: Resource) { r.Process? && !r.killed }

  predicate Unreaped(r: Resource) { r.Process? && !r.reaped }

  function Holding(held: Stack, of: Resource -> bool): nat {
    if held.Empty? then 0 else Holding(held.below, of) + if of(held.top) then 1 else 0
  }

  /** What is held is what was acquired and not released; so holding nothing means all was released. */
  lemma {:induction false} HeldIsTheBalance(events: seq<Event>)
    requires Held(events).Some?
    ensures var held := Held(events).value;
            && Count(events, MkTemp) == Count(events, RmTemp) + Holding(held, IsDir)
            && Count(events, StartServer) == Count(events, StopServer) + Holding(held, IsServer)
            && Count(events, Spawn) == Count(events, SigKill) + Holding(held, Unkilled)
            && Count(events, Spawn) == Count(events, Reap) + Holding(held, Unreaped)
  {
    if events != [] {
      var init := events[..|events| - 1];
      HeldIsTheBalance(init);
      EventMoves(Held(init).value, events[|events| - 1]);
    }
  }

  function Moves(e: Event, acquire: Event, release: Event): int {
    if e == acquire then 1 else if e == release then -1 else 0
  }

  lemma EventMoves(held: Stack, e: Event)
    requires After(held, e).Some?
    ensures Holding(After(held, e).value, IsDir) == Holding(held, IsDir) + Moves(e, MkTemp, RmTemp)
    ensures Holding(After(held, e).value, IsServer) == Holding(held, IsServer) + Moves(e, StartServer, StopServer)
    ensures Holding(After(held, e).value, Unkilled) == Holding(held, Unkilled) + Moves(e, Spawn, SigKill)
    ensures Holding(After(held, e).value, Unreaped) == Holding(held, Unreaped) + Moves(e, Spawn, Reap)
  {
  }

  lemma HeldOne(events: seq<Event>, held: Stack, e: Event)
    requires Held(events) == Some(held)
    ensures Held(events + [e]) == After(held, e)
  {
  }

  /** What Start waits for. */
  datatype Announcement = Announced | BadAnnouncement | NoReady | ContextDone

  /**
   When the goroutine that waits for the process reaps it. The harness may exit by itself at any
   moment: before Start has read READY, or later but before Stop is called (during the test, if it
   came to one); otherwise within the grace period after SIGTERM, or only killed by SIGKILL.
   */
  datatype Exit = BeforeReady | BeforeStop | InGrace | OnKill

  datatype Test = Returns(err: Option<Err>) | Panics

  /** `setup` counts the steps of newTestEnv before the harness that work. */
  datatype Plan = Plan(setup: nat, pipe: bool, spawn: bool, announcement: Announcement, exit: Exit, test: Test) {
    /** newTestEnv gets as far as starting the process. */
    predicate Spawns() {
      setup >= SETUP_STEPS && pipe && spawn
    }

    predicate ComesUp() {
      Spawns() && announcement.Announced?
    }
  }

  const SETUP_STEPS := 7

  class Host {
    var events: seq<Event>

    constructor ()
      ensures events == []
    {
      events := [];
    }

    method Log(e: Event, ghost held: Stack)
      requires Held(events) == Some(held)
      modifies this
      ensures events == old(events) + [e] && Held(events) == After(held, e)
    {
      HeldOne(events, held, e);
      events := events + [e];
    }
  }

  /** What happens to a process between being spawned and READY or its failure to come. */
  function UpToReady(exit: Exit): seq<Event> {
    if exit.BeforeReady? then [Reap] else []
  }

  /** What happens to it from there on, until Stop has returned. */
  function FromReady(exit: Exit): seq<Event> {
    match exit
    case BeforeReady => [SigTerm, SigKill]
    case BeforeStop => [Reap, SigTerm, SigKill]
    case InGrace => [SigTerm, Reap, SigKill]
    case OnKill => [SigTerm, SigKill, Reap]
  }

  function ProcessEvents(p: Plan): seq<Event> {
    if p.pipe && p.spawn then [Spawn] + UpToReady(p.exit) + FromReady(p.exit) else []
  }

  /** All that happens in a case, wherever the harness exits. */
  function Events(p: Plan): seq<Event> {
    if p.setup < 1 then []
    else if p.setup < 3 then [MkTemp, RmTemp]
    else [MkTemp, StartServer] + (if p.setup < SETUP_STEPS then [] else ProcessEvents(p)) + [StopServer, RmTemp]
  }

  /** `done` is the channel closed by the goroutine that waits for the process. */
  class RunningProcess {
    const host: Host
    const exit: Exit
    var done: bool
    var stopped: bool

    constructor (host: Host, exit: Exit)
      ensures this.host == host && this.exit == exit && !done && !stopped
    {
      this.host, this.exit, done, stopped := host, exit, false, false;
    }

    /** Until Stop has been called the process is held, reaped or not; afterwards it is not. */
    ghost predicate Holds(below: Stack)
      reads this, host
    {
      && Held(host.events) == Some(if stopped then below else Push(Process(false, done), below))
      && (stopped ==> done)
    }

    /** The waiting goroutine: the process has exited, killed or not. It closes `done` once. */
    method Wait(ghost killed: bool, ghost below: Stack)
      requires !done && Held(host.events) == Some(Push(Process(killed, false), below))
      modifies this`done, host
      ensures done && host.events == old(host.events) + [Reap]
      ensures Held(host.events) == Some(if killed then below else Push(Process(false, true), below))
    {
      host.Log(Reap, Push(Process(killed, false), below));
      done := true;
    }

    /**
     Acts once: then the group is killed and the process reaped, whether it was still running, had
     already been reaped, or gets reaped on the way. Further calls do nothing.
     */
    method Stop(ghost below: Stack)
      requires Holds(below)
      modifies this, host
      ensures stopped && Holds(below)
      ensures old(stopped) ==> host.events == old(host.events)
      ensures !old(stopped) && old(done) ==> host.events == old(host.events) + [SigTerm, SigKill]
      ensures !old(stopped) && !old(done) ==>
                host.events == old(host.events) + FromReady(if exit.OnKill? then OnKill else InGrace)
    {
      if stopped {
        return;
      }
      host.Log(SigTerm, Push(Process(false, done), below));
      if !done && !exit.OnKill? {
        Wait(false, below);
      }
      host.Log(SigKill, Push(Process(false, done), below));
      if !done {
        Wait(true, below);
      }
      stopped := true;
    }

    /** While Start waits for READY. */
    method RunUpToReady(ghost below: Stack)
      requires !stopped && !done && Holds(below)
      modifies this`done, host
      ensures Holds(below) && (done <==> exit.BeforeReady?)
      ensures host.events == old(host.events) + UpToReady(exit)
    {
      if exit.BeforeReady? {
        Wait(false, below);
      }
    }

    /** The rest of the process's life, at the end of which Stop is called. */
    method StopLater(ghost below: Stack)
      requires !stopped && Holds(below) && (done <==> exit.BeforeReady?)
      modifies this, host
      ensures stopped && Holds(below)
      ensures host.events == old(host.events) + FromReady(exit)
    {
      if exit.BeforeStop? {
        Wait(false, below);
      }
      Stop(below);
    }
  }

  /**
   harness.Start: on every failure the process, if it got started, has been stopped. The process
   returned may have exited already; Start does not notice.
   */
  method StartHarness(host: Host, p: Plan, ghost below: Stack) returns (rp: RunningProcess?)
    requires Held(host.events) == Some(below)
    modifies host
    ensures rp != null <==> p.pipe && p.spawn && p.announcement.Announced?
    ensures rp == null ==> Held(host.events) == Some(below)
    ensures rp == null ==> host.events == old(host.events) + ProcessEvents(p)
    ensures rp != null ==> fresh(rp) && rp.host == host && rp.exit == p.exit && !rp.stopped && rp.Holds(below)
    ensures rp != null ==> rp.done == p.exit.BeforeReady?
    ensures rp != null ==> host.events == old(host.events) + [Spawn] + UpToReady(p.exit)
  {
    if !p.pipe || !p.spawn {
      return null;
    }
    host.Log(Spawn, below);
    rp := new RunningProcess(host, p.exit);
    rp.RunUpToReady(below);
    if !p.announcement.Announced? {
      rp.StopLater(below);
      rp := null;
      Regroup(old(host.events), [Spawn], UpToReady(p.exit), FromReady(p.exit));
    }
  }

  lemma Regroup(a: seq<Event>, b: seq<Event>, c: seq<Event>, d: seq<Event>)
    ensures a + b + c + d == a + (b + c + d)
  {
  }

  /** The server, then the temp dir. */
  method ReleaseServer(host: Host)
    requires Held(host.events) == Some(Push(Server, Push(TempDir, Empty)))
    modifies host
    ensures Held(host.events) == Some(Empty)
    ensures host.events == old(host.events) + [StopServer, RmTemp]
  {
    host.Log(StopServer, Push(Server, Push(TempDir, Empty)));
    host.Log(RmTemp, Push(TempDir, Empty));
  }

  /** The first part of newTestEnv, up to the harness; on failure nothing is held. */
  method SetUp(host: Host, p: Plan) returns (ok: bool)
    requires Held(host.events) == Some(Empty)
    modifies host
    ensures ok <==> p.setup >= SETUP_STEPS
    ensures !ok ==> Held(host.events) == Some(Empty) && host.events == old(host.events) + Events(p)
    ensures ok ==> Held(host.events) == Some(Push(Server, Push(TempDir, Empty)))
    ensures ok ==> host.events == old(host.events) + [MkTemp, StartServer]
  {
    ok := false;
    if p.setup < 1 {
      return;
    }
    host.Log(MkTemp, Empty);
    if p.setup < 3 {
      host.Log(RmTemp, Push(TempDir, Empty));
      return;
    }
    host.Log(StartServer, Push(TempDir, Empty));
    if p.setup < SETUP_STEPS {
      ReleaseServer(host);
      return;
    }
    ok := true;
  }

  /**
   newTestEnv: the steps are the temp dir (0), the CA (1), the server (2), and the default X.509-SVID,
   default JWT, JWKS and probe SVID (3 to 6), then the harness. On failure nothing is held.
   */
  method NewTestEnv(host: Host, p: Plan) returns (rp: RunningProcess?)
    requires Held(host.events) == Some(Empty)
    modifies host
    ensures rp != null <==> p.ComesUp()
    ensures rp == null ==> Held(host.events) == Some(Empty) && host.events == old(host.events) + Events(p)
    ensures rp != null ==> fresh(rp) && rp.host == host && rp.exit == p.exit && !rp.stopped
    ensures rp != null ==> rp.Holds(Push(Server, Push(TempDir, Empty))) && rp.done == p.exit.BeforeReady?
    ensures rp != null ==> host.events == old(host.events) + [MkTemp, StartServer] + [Spawn] + UpToReady(p.exit)
  {
    var ok := SetUp(host, p);
    if !ok {
      return null;
    }
    rp := StartHarness(host, p, Push(Server, Push(TempDir, Empty)));
    if rp == null {
      ReleaseServer(host);
    }
    Regroup(old(host.events), [MkTemp, StartServer], ProcessEvents(p), [StopServer, RmTemp]);
  }

  method FullCleanup(rp: RunningProcess)
    requires !rp.stopped && rp.Holds(Push(Server, Push(TempDir, Empty)))
    requires rp.done <==> rp.exit.BeforeReady?
    modifies rp, rp.host
    ensures Held(rp.host.events) == Some(Empty)
    ensures rp.host.events == old(rp.host.events) + FromReady(rp.exit) + [StopServer, RmTemp]
  {
    rp.StopLater(Push(Server, Push(TempDir, Empty)));
    ReleaseServer(rp.host);
  }

  /**
   Each resource is acquired as far as the set-up gets and released in the opposite order. A process
   that was started is always sent SIGTERM and then SIGKILL, once each; it is reaped before both if it
   had exited by itself, between the two in the grace period, and otherwise after both.
   */
  lemma EventsInOrder(p: Plan)
    ensures p.setup == 0 ==> Events(p) == []
    ensures 0 < p.setup < 3 ==> Events(p) == [MkTemp, RmTemp]
    ensures p.setup >= 3 && !(p.setup >= 7 && p.pipe && p.spawn) ==> Events(p) == [MkTemp, StartServer, StopServer, RmTemp]
    ensures p.setup >= 7 && p.pipe && p.spawn ==>
              match p.exit
              case InGrace => Events(p) == [MkTemp, StartServer, Spawn, SigTerm, Reap, SigKill, StopServer, RmTemp]
              case OnKill => Events(p) == [MkTemp, StartServer, Spawn, SigTerm, SigKill, Reap, StopServer, RmTemp]
              case _ => Events(p) == [MkTemp, StartServer, Spawn, Reap, SigTerm, SigKill, StopServer, RmTemp]
  {
    match p.exit
    case BeforeReady => assert p.pipe && p.spawn ==> ProcessEvents(p) == [Spawn, Reap, SigTerm, SigKill];
    case BeforeStop => assert p.pipe && p.spawn ==> ProcessEvents(p) == [Spawn, Reap, SigTerm, SigKill];
    case InGrace => assert p.pipe && p.spawn ==> ProcessEvents(p) == [Spawn, SigTerm, Reap, SigKill];
    case OnKill => assert p.pipe && p.spawn ==> ProcessEvents(p) == [Spawn, SigTerm, SigKill, Reap];
  }

  /** The status a case ends with: ERROR when it could not run or panicked. */
  function StatusOf(p: Plan): Status {
    if !p.ComesUp() || p.test.Panics? then ERROR
    else Classify(p.test.err)
  }

  /**
   What a status says about a case: ERROR that it could not be set up, panicked, or returned an error
   with an ExecutionError and no SkipError anywhere in it; SKIP that it returned one with a SkipError,
   FAIL one with neither, PASS none.
   */
  lemma StatusMeans(p: Plan)
    ensures StatusOf(p) == PASS <==> p.ComesUp() && p.test == Returns(None)
    ensures StatusOf(p) == SKIP <==> p.ComesUp() && Fails(p) && exists path :: SkipAt(p.test.err.value, path)
    ensures StatusOf(p) == ERROR <==>
              || !p.ComesUp()
              || p.test.Panics?
              || (Fails(p) && (!exists path :: SkipAt(p.test.err.value, path)) && exists path :: ExecAt(p.test.err.value, path))
    ensures StatusOf(p) == FAIL <==>
              && p.ComesUp() && Fails(p)
              && (!exists path :: SkipAt(p.test.err.value, path)) && !exists path :: ExecAt(p.test.err.value, path)
  {
    if Fails(p) {
      StatusByOccurrence(p.test.err.value);
    }
  }

  predicate Fails(p: Plan) {
    p.test.Returns? && p.test.err.Some?
  }

  /**
   runCase with its deferred functions: on every path, a panic in the test included, and wherever the
   harness exits by itself, nothing is held when it returns. `hasEnv` tells whether the caller gets
   the environment to read the call log of.
   */
  method RunCase(host: Host, p: Plan) returns (status: Status, hasEnv: bool)
    requires Held(host.events) == Some(Empty)
    modifies host
    ensures Held(host.events) == Some(Empty)
    ensures status == StatusOf(p)
    ensures hasEnv <==> p.ComesUp() && p.test.Returns?
    ensures host.events == old(host.events) + Events(p)
  {
    var rp := NewTestEnv(host, p);
    if rp == null {
      return ERROR, false;
    }
    match p.test {
      case Panics => status, hasEnv := ERROR, false;
      case Returns(err) => status, hasEnv := Classify(err), true;
    }
    FullCleanup(rp);
    Regroup(old(host.events) + [MkTemp, StartServer], [Spawn], UpToReady(p.exit), FromReady(p.exit));
    Regroup(old(host.events), [MkTemp, StartServer], ProcessEvents(p), [StopServer, RmTemp]);
  }
}
