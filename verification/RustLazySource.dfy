/**
 `LazyJwtSource` of sdks/rust-spiffe/src/main.rs: an atomic swap decides which get spawns the
 creating task; the task replaces the watched value, and gets wait until it is Some.
 */
module RustLazySource {
  import opened Wrappers
  import opened OnceCell

  datatype Made = Source(id: nat) | Failed(err: string)

  /** A task may also be aborted before it publishes anything. */
  datatype Creator = Calling | Publishing(r: Made) | Exited(r: Made) | Aborted

  datatype Getter = AtSwap | AtSpawn | AtWait | Returned(r: Made) | TimedOut

  datatype State = State(
    started: bool, value: Option<Made>, creators: seq<Creator>, getters: map<Tid, Getter>)

  datatype Action =
    | Get(tid: Tid)
    | Swap(tid: Tid)
    | Spawn(tid: Tid)
    | WaitFor(tid: Tid)
    | Timeout(tid: Tid)
    | Create(i: nat, r: Made)
    | SendReplace(i: nat)
    | Abort(i: nat)

  function Init(): State {
    State(false, None, [], map[])
  }

  predicate At(s: State, tid: Tid, pc: Getter) {
    tid in s.getters && s.getters[tid] == pc
  }

  predicate Can(s: State, a: Action) {
    match a
    case Get(tid) => tid !in s.getters
    case Swap(tid) => At(s, tid, AtSwap)
    case Spawn(tid) => At(s, tid, AtSpawn)
    case WaitFor(tid) => At(s, tid, AtWait) && s.value.Some?
    case Timeout(tid) => At(s, tid, AtWait)
    case Create(i, _) => i < |s.creators| && s.creators[i].Calling?
    case SendReplace(i) => i < |s.creators| && s.creators[i].Publishing?
    case Abort(i) => i < |s.creators| && (s.creators[i].Calling? || s.creators[i].Publishing?)
  }

  function Do(s: State, a: Action): State
    requires Can(s, a)
  {
    match a
    case Get(tid) => s.(getters := s.getters[tid := AtSwap])
    case Swap(tid) => s.(started := true, getters := s.getters[tid := if s.started then AtWait else AtSpawn])
    case Spawn(tid) => s.(creators := s.creators + [Calling], getters := s.getters[tid := AtWait])
    case WaitFor(tid) => s.(getters := s.getters[tid := Returned(s.value.value)])
    case Timeout(tid) => s.(getters := s.getters[tid := TimedOut])
    case Create(i, r) => s.(creators := s.creators[i := Publishing(r)])
    case SendReplace(i) => s.(value := Some(s.creators[i].r), creators := s.creators[i := Exited(s.creators[i].r)])
    case Abort(i) => s.(creators := s.creators[i := Aborted])
  }

  function Exec(s: State, acts: seq<Action>): Option<State>
    decreases |acts|
  {
    if |acts| == 0 then Some(s)
    else if Can(s, acts[0]) then Exec(Do(s, acts[0]), acts[1..])
    else None
  }

  ghost predicate Inv(s: State) {
    && |s.creators| <= 1
    && (|s.creators| == 1 ==> s.started)
    && (forall t | t in s.getters && s.getters[t].AtSpawn? :: s.started && |s.creators| == 0)
    && (forall t, u | t in s.getters && u in s.getters && s.getters[t].AtSpawn? && s.getters[u].AtSpawn? :: t == u)
    && s.value == (if |s.creators| == 1 && s.creators[0].Exited? then Some(s.creators[0].r) else None)
    && (forall t | t in s.getters && s.getters[t].Returned? :: s.value == Some(s.getters[t].r))
  }

  function Abs(s: State): Cell<Made> {
    Cell(
      if |s.creators| == 0 then Idle else if s.creators[0].Exited? then Ready(s.creators[0].r) else Creating,
      |s.creators|,
      map tid | tid in s.getters && s.getters[tid].Returned? :: s.getters[tid].r)
  }

  function LabelOf(s: State, a: Action): Label<Made>
    requires Can(s, a)
  {
    match a
    case Spawn(_) => Begin
    case SendReplace(i) => Publish(s.creators[i].r)
    case WaitFor(tid) => Return(tid)
    case _ => Silent
  }

  lemma Refines(s: State, a: Action)
    requires Inv(s) && Can(s, a)
    ensures Inv(Do(s, a))
    ensures May(Abs(s), LabelOf(s, a)) && Abs(Do(s, a)) == Does(Abs(s), LabelOf(s, a))
  {
  }

  lemma {:induction false} ExecRefines(s: State, acts: seq<Action>) returns (labels: seq<Label<Made>>)
    requires Inv(s) && Exec(s, acts).Some?
    ensures Inv(Exec(s, acts).value)
    ensures Runs(Abs(s), labels) == Some(Abs(Exec(s, acts).value))
    decreases |acts|
  {
    if |acts| == 0 {
      labels := [];
    } else {
      Refines(s, acts[0]);
      var rest := ExecRefines(Do(s, acts[0]), acts[1..]);
      labels := [LabelOf(s, acts[0])] + rest;
    }
  }

  /**
   Under every interleaving at most one task creates, every get that does not time out returns what
   that task published, and if the task is aborted no get returns at all.
   */
  lemma GetsAgree(acts: seq<Action>, s: State)
    requires Exec(Init(), acts) == Some(s)
    ensures |s.creators| <= 1
    ensures forall t | t in s.getters && s.getters[t].Returned? ::
              |s.creators| == 1 && s.creators[0] == Exited(s.getters[t].r)
    ensures exists labels :: Runs(Fresh(), labels) == Some(Abs(s))
  {
    var labels := ExecRefines(Init(), acts);
    assert Abs(Init()) == Fresh();
  }

  /** The task that publishes is there, or some get is about to spawn it. */
  ghost predicate OnItsWay(s: State) {
    && (s.started ==> s.creators != [] || exists t :: t in s.getters && s.getters[t].AtSpawn?)
    && (forall t | t in s.getters && s.getters[t].AtWait? :: s.started)
  }

  lemma StaysOnItsWay(s: State, a: Action)
    requires Inv(s) && OnItsWay(s) && Can(s, a)
    ensures OnItsWay(Do(s, a))
  {
    var s' := Do(s, a);
    if a.Swap? && !s.started {
      assert a.tid in s'.getters && s'.getters[a.tid].AtSpawn?;
    } else if s.started && s.creators == [] && !a.Spawn? {
      var t :| t in s.getters && s.getters[t].AtSpawn?;
      assert t in s'.getters && s'.getters[t].AtSpawn?;
    }
  }

  /** The task ended without publishing: it panicked, or the runtime dropped it. */
  predicate Lost(s: State) {
    |s.creators| > 0 && s.creators[0].Aborted?
  }

  lemma {:induction false} LostIsFinal(s: State, acts: seq<Action>, t: State)
    requires Inv(s) && Lost(s) && Exec(s, acts) == Some(t)
    ensures Lost(t) && forall tid | tid in t.getters :: !t.getters[tid].Returned?
    decreases |acts|
  {
    if |acts| > 0 {
      Refines(s, acts[0]);
      LostIsFinal(Do(s, acts[0]), acts[1..], t);
    }
  }

  predicate InGet(s: State, tid: Tid) {
    tid in s.getters && (s.getters[tid].AtSwap? || s.getters[tid].AtSpawn? || s.getters[tid].AtWait?)
  }

  ghost predicate ReturnsBy(s: State, tid: Tid, acts: seq<Action>) {
    && Exec(s, acts).Some? && tid in Exec(s, acts).value.getters
    && Exec(s, acts).value.getters[tid].Returned?
  }

  function StepsLeft(s: State, tid: Tid): nat
    requires tid in s.getters
  {
    match s.getters[tid]
    case AtSwap => 6
    case AtSpawn => 5
    case AtWait =>
      if |s.creators| == 0 then 4
      else
        (match s.creators[0]
         case Calling => 3
         case Publishing(_) => 2
         case _ => 1)
    case _ => 0
  }

  lemma Towards(s: State, tid: Tid) returns (a: Action)
    requires Inv(s) && OnItsWay(s) && InGet(s, tid) && !Lost(s)
    ensures Can(s, a) && !Lost(Do(s, a)) && tid in Do(s, a).getters
    ensures InGet(Do(s, a), tid) || Do(s, a).getters[tid].Returned?
    ensures StepsLeft(Do(s, a), tid) < StepsLeft(s, tid)
  {
    match s.getters[tid]
    case AtSwap => a := Swap(tid);
    case AtSpawn => a := Spawn(tid);
    case AtWait =>
      if s.creators == [] {
        var t :| t in s.getters && s.getters[t].AtSpawn?;
        a := Spawn(t);
      } else if s.creators[0].Calling? {
        a := Create(0, Source(0));
      } else if s.creators[0].Publishing? {
        a := SendReplace(0);
      } else {
        a := WaitFor(tid);
      }
  }

  lemma {:induction false} ReturnPath(s: State, tid: Tid) returns (acts: seq<Action>)
    requires Inv(s) && OnItsWay(s) && !Lost(s)
    requires InGet(s, tid) || (tid in s.getters && s.getters[tid].Returned?)
    ensures ReturnsBy(s, tid, acts)
    decreases StepsLeft(s, tid)
  {
    if s.getters[tid].Returned? {
      acts := [];
    } else {
      var a := Towards(s, tid);
      Refines(s, a);
      StaysOnItsWay(s, a);
      var rest := ReturnPath(Do(s, a), tid);
      acts := [a] + rest;
      assert acts[1..] == rest;
    }
  }

  lemma {:induction false} ReachesOnItsWay(s: State, acts: seq<Action>)
    requires Inv(s) && OnItsWay(s) && Exec(s, acts).Some?
    ensures Inv(Exec(s, acts).value) && OnItsWay(Exec(s, acts).value)
    decreases |acts|
  {
    if |acts| > 0 {
      Refines(s, acts[0]);
      StaysOnItsWay(s, acts[0]);
      ReachesOnItsWay(Do(s, acts[0]), acts[1..]);
    }
  }

  /**
   The exact condition, for every reachable state and every get that has not ended: it can still come
   to return if and only if the task has not been lost.
   */
  lemma ReturnsUnlessLost(before: seq<Action>, s: State, tid: Tid)
    requires Exec(Init(), before) == Some(s) && InGet(s, tid)
    ensures (exists acts :: ReturnsBy(s, tid, acts)) <==> !Lost(s)
  {
    ReachesOnItsWay(Init(), before);
    if Lost(s) {
      forall acts | Exec(s, acts).Some? ensures !ReturnsBy(s, tid, acts) {
        LostIsFinal(s, acts, Exec(s, acts).value);
      }
    } else {
      var acts := ReturnPath(s, tid);
    }
  }
}
