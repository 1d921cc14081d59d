/**
 `LazyJwtSource` of sdks/py-spiffe/harness.py: a flag tested and set under a lock decides which get
 starts the creating thread; an event tells that `_source` or `_err` has been written. Starting the
 thread can raise, after the flag has been set: the lock is released and the exception leaves get.
 */
module PyLazySource {
  import opened Wrappers
  import opened OnceCell

  /** How the constructor call in `_create` ends; a Crash is an exception that is not an Exception. */
  datatype Made = Source(id: nat) | Failed(err: string) | Crash

  /** How a get that saw the event ends. */
  datatype Outcome = Got(id: nat) | Raised(err: string) | AssertionFailed

  function OutcomeOf(r: Made): Outcome {
    match r
    case Source(id) => Got(id)
    case Failed(e) => Raised(e)
    case Crash => AssertionFailed
  }

  datatype Creator = Calling | Storing(r: Made) | Setting(r: Made) | Exited(r: Made)

  datatype Getter =
    | AtLock | AtTest | AtSpawn | AtUnlock | AtRaise | AtWait
    | ReadingErr | ReadingSource | Returned(r: Outcome) | TimedOut | StartRaised

  datatype State = State(
    lock: Option<Tid>, started: bool, ready: bool, source: Option<nat>, err: Option<string>,
    creators: seq<Creator>, getters: map<Tid, Getter>)

  datatype Action =
    | Get(tid: Tid)
    | Acquire(tid: Tid)
    | TestStarted(tid: Tid)
    | Spawn(tid: Tid)
    | SpawnFails(tid: Tid)
    | Release(tid: Tid)
    | WakeReady(tid: Tid)
    | Timeout(tid: Tid)
    | ReadErr(tid: Tid)
    | ReadSource(tid: Tid)
    | Create(i: nat, r: Made)
    | Store(i: nat)
    | SetReady(i: nat)

  function Init(): State {
    State(None, false, false, None, None, [], map[])
  }

  predicate At(s: State, tid: Tid, pc: Getter) {
    tid in s.getters && s.getters[tid] == pc
  }

  predicate Can(s: State, a: Action) {
    match a
    case Get(tid) => tid !in s.getters
    case Acquire(tid) => At(s, tid, AtLock) && s.lock.None?
    case TestStarted(tid) => At(s, tid, AtTest)
    case Spawn(tid) => At(s, tid, AtSpawn)
    case SpawnFails(tid) => At(s, tid, AtSpawn)
    case Release(tid) => At(s, tid, AtUnlock) || At(s, tid, AtRaise)
    case WakeReady(tid) => At(s, tid, AtWait) && s.ready
    case Timeout(tid) => At(s, tid, AtWait)
    case ReadErr(tid) => At(s, tid, ReadingErr)
    case ReadSource(tid) => At(s, tid, ReadingSource)
    case Create(i, _) => i < |s.creators| && s.creators[i].Calling?
    case Store(i) => i < |s.creators| && s.creators[i].Storing?
    case SetReady(i) => i < |s.creators| && s.creators[i].Setting?
  }

  function Do(s: State, a: Action): State
    requires Can(s, a)
  {
    match a
    case Get(tid) => s.(getters := s.getters[tid := AtLock])
    case Acquire(tid) => s.(lock := Some(tid), getters := s.getters[tid := AtTest])
    case TestStarted(tid) =>
      if s.started then s.(getters := s.getters[tid := AtUnlock])
      else s.(started := true, getters := s.getters[tid := AtSpawn])
    case Spawn(tid) => s.(creators := s.creators + [Calling], getters := s.getters[tid := AtUnlock])
    case SpawnFails(tid) => s.(getters := s.getters[tid := AtRaise])
    case Release(tid) =>
      s.(lock := None, getters := s.getters[tid := if s.getters[tid].AtRaise? then StartRaised else AtWait])
    case WakeReady(tid) => s.(getters := s.getters[tid := ReadingErr])
    case Timeout(tid) => s.(getters := s.getters[tid := TimedOut])
    case ReadErr(tid) =>
      s.(getters := s.getters[tid := if s.err.Some? then Returned(Raised(s.err.value)) else ReadingSource])
    case ReadSource(tid) =>
      s.(getters := s.getters[tid := Returned(if s.source.Some? then Got(s.source.value) else AssertionFailed)])
    case Create(i, r) => s.(creators := s.creators[i := Storing(r)])
    case Store(i) =>
      var r := s.creators[i].r;
      s.(source := if r.Source? then Some(r.id) else s.source,
         err := if r.Failed? then Some(r.err) else s.err,
         creators := s.creators[i := Setting(r)])
    case SetReady(i) => s.(ready := true, creators := s.creators[i := Exited(s.creators[i].r)])
  }

  function Exec(s: State, acts: seq<Action>): Option<State>
    decreases |acts|
  {
    if |acts| == 0 then Some(s)
    else if Can(s, acts[0]) then Exec(Do(s, acts[0]), acts[1..])
    else None
  }

  predicate InsideLock(g: Getter) {
    g.AtTest? || g.AtSpawn? || g.AtUnlock? || g.AtRaise?
  }

  /** Between setting the flag and starting the thread. */
  predicate Spawning(s: State) {
    s.lock.Some? && At(s, s.lock.value, AtSpawn)
  }

  ghost predicate CreatorInv(s: State) {
    && |s.creators| <= (if s.started && !Spawning(s) then 1 else 0)
    && (Spawning(s) ==> s.started)
    && (s.ready <==> |s.creators| == 1 && s.creators[0].Exited?)
    && (|s.creators| == 0 || s.creators[0].Calling? || s.creators[0].Storing? ==> s.source.None? && s.err.None?)
    && (|s.creators| == 1 && (s.creators[0].Setting? || s.creators[0].Exited?) ==>
          var r := s.creators[0].r;
          && s.source == (if r.Source? then Some(r.id) else None)
          && s.err == (if r.Failed? then Some(r.err) else None))
  }

  ghost predicate GetterInv(s: State, tid: Tid, g: Getter) {
    && (InsideLock(g) ==> s.lock == Some(tid))
    && (g.AtUnlock? || g.AtRaise? || g.AtWait? ==> s.started)
    && (g.AtRaise? ==> s.creators == [])
    && (g.ReadingErr? || g.ReadingSource? || g.Returned? ==> s.ready)
    && (g.ReadingSource? ==> s.err.None?)
    && (g.Returned? && s.ready && |s.creators| == 1 && s.creators[0].Exited? ==> g.r == OutcomeOf(s.creators[0].r))
  }

  /** The lock is held by a thread inside the with statement. */
  predicate LockInv(s: State) {
    s.lock.Some? ==> s.lock.value in s.getters && InsideLock(s.getters[s.lock.value])
  }

  ghost predicate Inv(s: State) {
    && CreatorInv(s)
    && LockInv(s)
    && (forall tid | tid in s.getters :: GetterInv(s, tid, s.getters[tid]))
  }

  function Abs(s: State): Cell<Outcome> {
    Cell(
      if |s.creators| == 0 then Idle
      else if s.creators[0].Exited? then Ready(OutcomeOf(s.creators[0].r)) else Creating,
      |s.creators|,
      map tid | tid in s.getters && s.getters[tid].Returned? :: s.getters[tid].r)
  }

  function LabelOf(s: State, a: Action): Label<Outcome>
    requires Can(s, a)
  {
    match a
    case Spawn(_) => Begin
    case SetReady(i) => Publish(OutcomeOf(s.creators[i].r))
    case ReadErr(tid) => if s.err.Some? then Return(tid) else Silent
    case ReadSource(tid) => Return(tid)
    case _ => Silent
  }

  lemma KeepsInv(s: State, a: Action)
    requires Inv(s) && Can(s, a)
    ensures Inv(Do(s, a))
  {
    var s' := Do(s, a);
    if !a.Get? && !a.Create? && !a.Store? && !a.SetReady? {
      assert GetterInv(s, a.tid, s.getters[a.tid]);
    }
    forall tid | tid in s'.getters ensures GetterInv(s', tid, s'.getters[tid]) {
      if tid in s.getters {
        assert GetterInv(s, tid, s.getters[tid]);
      }
    }
  }

  predicate Creates(a: Action) {
    a.Spawn? || a.Create? || a.Store? || a.SetReady?
  }

  predicate Reads(a: Action) {
    a.ReadErr? || a.ReadSource?
  }

  lemma CreatorRefines(s: State, a: Action)
    requires Inv(s) && Can(s, a) && Creates(a)
    ensures May(Abs(s), LabelOf(s, a)) && Abs(Do(s, a)) == Does(Abs(s), LabelOf(s, a))
  {
  }

  lemma ReaderRefines(s: State, a: Action)
    requires Inv(s) && Can(s, a) && Reads(a)
    ensures May(Abs(s), LabelOf(s, a)) && Abs(Do(s, a)) == Does(Abs(s), LabelOf(s, a))
  {
    assert GetterInv(s, a.tid, s.getters[a.tid]);
  }

  /** Everything else happens out of the specification's sight. */
  lemma RestIsSilent(s: State, a: Action)
    requires Can(s, a) && !Creates(a) && !Reads(a)
    ensures LabelOf(s, a) == Silent && Abs(Do(s, a)) == Abs(s)
  {
    assert Do(s, a).creators == s.creators;
  }

  lemma Refines(s: State, a: Action)
    requires Inv(s) && Can(s, a)
    ensures May(Abs(s), LabelOf(s, a)) && Abs(Do(s, a)) == Does(Abs(s), LabelOf(s, a))
  {
    if Creates(a) {
      CreatorRefines(s, a);
    } else if Reads(a) {
      ReaderRefines(s, a);
    } else {
      RestIsSilent(s, a);
    }
  }

  lemma {:induction false} ExecRefines(s: State, acts: seq<Action>) returns (labels: seq<Label<Outcome>>)
    requires Inv(s) && Exec(s, acts).Some?
    ensures Inv(Exec(s, acts).value)
    ensures Runs(Abs(s), labels) == Some(Abs(Exec(s, acts).value))
    decreases |acts|
  {
    if |acts| == 0 {
      labels := [];
    } else {
      KeepsInv(s, acts[0]);
      Refines(s, acts[0]);
      var rest := ExecRefines(Do(s, acts[0]), acts[1..]);
      labels := [LabelOf(s, acts[0])] + rest;
    }
  }

  /**
   Under every interleaving at most one thread creates, and every get that does not time out ends
   the way that thread's constructor call ended.
   */
  lemma GetsAgree(acts: seq<Action>, s: State)
    requires Exec(Init(), acts) == Some(s)
    ensures |s.creators| <= 1
    ensures forall t | t in s.getters && s.getters[t].Returned? ::
              && |s.creators| == 1 && s.creators[0].Exited?
              && match s.creators[0].r
                 case Source(id) => s.getters[t].r == Got(id)
                 case Failed(e) => s.getters[t].r == Raised(e)
                 case Crash => s.getters[t].r == AssertionFailed
    ensures exists labels :: Runs(Fresh(), labels) == Some(Abs(s))
  {
    var labels := ExecRefines(Init(), acts);
    assert Abs(Init()) == Fresh();
    forall t | t in s.getters ensures GetterInv(s, t, s.getters[t]) {
    }
  }

  /** The flag is set, but starting the thread raised. */
  predicate Abandoned(s: State) {
    s.started && s.creators == [] && !Spawning(s)
  }

  /**
   Once starting the thread has raised, the source is lost: nothing tries again, and no get, whether
   waiting already or still to come, ever returns a source or an error; it can only time out.
   */
  lemma {:induction false} FailedStartIsFinal(s: State, acts: seq<Action>, t: State)
    requires Inv(s) && Abandoned(s) && Exec(s, acts) == Some(t)
    ensures Abandoned(t) && !t.ready && forall tid | tid in t.getters :: !t.getters[tid].Returned?
    decreases |acts|
  {
    if |acts| > 0 {
      KeepsInv(s, acts[0]);
      assert Abandoned(Do(s, acts[0])) by {
        if acts[0].Release? || acts[0].Spawn? || acts[0].SpawnFails? {
          assert GetterInv(s, acts[0].tid, s.getters[acts[0].tid]);
        }
      }
      FailedStartIsFinal(Do(s, acts[0]), acts[1..], t);
    } else {
      forall tid | tid in t.getters ensures !t.getters[tid].Returned? {
        assert GetterInv(t, tid, t.getters[tid]);
      }
    }
  }

  /** Still inside get. */
  predicate InGet(s: State, tid: Tid) {
    tid in s.getters && !s.getters[tid].Returned? && !s.getters[tid].TimedOut? && !s.getters[tid].StartRaised?
  }

  ghost predicate ReturnsBy(s: State, tid: Tid, acts: seq<Action>) {
    && Exec(s, acts).Some? && tid in Exec(s, acts).value.getters
    && Exec(s, acts).value.getters[tid].Returned?
  }

  function LockSteps(g: Getter): nat {
    match g
    case AtTest => 3
    case AtSpawn => 2
    case AtUnlock => 1
    case AtRaise => 1
    case _ => 0
  }

  /** Steps until the creating thread has set the event. */
  function CreationSteps(s: State): nat {
    if |s.creators| == 0 then 4
    else
      match s.creators[0]
      case Calling => 3
      case Storing(_) => 2
      case Setting(_) => 1
      case Exited(_) => 0
  }

  function GetSteps(g: Getter): nat {
    match g
    case AtLock => 7
    case AtTest => 6
    case AtSpawn => 5
    case AtUnlock => 4
    case AtWait => 3
    case ReadingErr => 2
    case ReadingSource => 1
    case _ => 0
  }

  /** A step towards the get's return: its own, or that of the thread it waits for. */
  function Towards(s: State, tid: Tid): Action
    requires InGet(s, tid) && LockInv(s)
  {
    match s.getters[tid]
    case AtLock => if s.lock.None? then Acquire(tid) else Holder(s.lock.value, s.getters[s.lock.value])
    case AtTest => TestStarted(tid)
    case AtSpawn => Spawn(tid)
    case ReadingErr => ReadErr(tid)
    case ReadingSource => ReadSource(tid)
    case AtWait =>
      if s.ready then WakeReady(tid)
      else if |s.creators| == 0 then Spawn(if s.lock.Some? then s.lock.value else tid)
      else if s.creators[0].Calling? then Create(0, Source(0))
      else if s.creators[0].Storing? then Store(0)
      else SetReady(0)
    case _ => Release(tid)
  }

  function Holder(u: Tid, g: Getter): Action {
    match g
    case AtTest => TestStarted(u)
    case AtSpawn => Spawn(u)
    case _ => Release(u)
  }

  lemma TowardsIsStep(s: State, tid: Tid)
    requires Inv(s) && InGet(s, tid) && !Abandoned(s)
    ensures var a := Towards(s, tid);
            && Can(s, a) && !Abandoned(Do(s, a)) && tid in Do(s, a).getters
            && (Do(s, a).getters[tid].Returned? || InGet(Do(s, a), tid))
            && Measure(Do(s, a), tid) < Measure(s, tid)
  {
    assert GetterInv(s, tid, s.getters[tid]);
    if s.lock.Some? {
      assert GetterInv(s, s.lock.value, s.getters[s.lock.value]);
    }
  }

  function Measure(s: State, tid: Tid): nat
    requires tid in s.getters
  {
    8 * GetSteps(s.getters[tid]) + CreationSteps(s)
    + if s.lock.Some? && s.lock.value in s.getters then LockSteps(s.getters[s.lock.value]) else 0
  }

  lemma {:induction false} CanReturn(s: State, tid: Tid) returns (acts: seq<Action>)
    requires Inv(s) && tid in s.getters && !Abandoned(s)
    requires InGet(s, tid) || s.getters[tid].Returned?
    ensures ReturnsBy(s, tid, acts)
    decreases Measure(s, tid)
  {
    if s.getters[tid].Returned? {
      acts := [];
    } else {
      var a := Towards(s, tid);
      TowardsIsStep(s, tid);
      KeepsInv(s, a);
      var rest := CanReturn(Do(s, a), tid);
      acts := [a] + rest;
      assert acts[1..] == rest;
    }
  }

  /**
   The exact condition, for every reachable state and every get that has not ended: it can still come
   to return if and only if the source is not abandoned.
   */
  lemma ReturnsUnlessAbandoned(before: seq<Action>, s: State, tid: Tid)
    requires Exec(Init(), before) == Some(s) && InGet(s, tid)
    ensures (exists acts :: ReturnsBy(s, tid, acts)) <==> !Abandoned(s)
  {
    var labels := ExecRefines(Init(), before);
    if Abandoned(s) {
      forall acts | Exec(s, acts).Some? ensures !ReturnsBy(s, tid, acts) {
        FailedStartIsFinal(s, acts, Exec(s, acts).value);
      }
    } else {
      var acts := CanReturn(s, tid);
    }
  }

  /** Starting the thread can raise whenever it is about to be started, and then that is the end. */
  lemma StartCanFail(acts: seq<Action>, s: State, tid: Tid)
    requires Exec(Init(), acts) == Some(s) && At(s, tid, AtSpawn)
    ensures Can(s, SpawnFails(tid)) && Inv(Do(s, SpawnFails(tid))) && Abandoned(Do(s, SpawnFails(tid)))
  {
    var labels := ExecRefines(Init(), acts);
    assert GetterInv(s, tid, s.getters[tid]);
    KeepsInv(s, SpawnFails(tid));
  }
}
