/**
 `lazyJWTSource` of sdks/go-spiffe/main.go: a token in `start` lets one get spawn the creating
 goroutine, which writes `source` and `err` one after the other and then closes `ready`. Gets and
 creators interleave at every single read, write and channel operation.
 */
module GoLazySource {
  import opened Wrappers
  import opened OnceCell

  /** The pair NewJWTSource returns. */
  datatype Made = Made(source: Option<nat>, err: Option<string>)

  datatype Creator = Calling | WritingSource(r: Made) | WritingErr(r: Made) | Closing(r: Made) | Exited(r: Made)

  /** A call of Get, or of Close: `Closed(None)` is a Close that found nothing to close. */
  datatype Getter =
    | AtStart | AtWait | ReadingSource | ReadingErr(source: Option<nat>) | Returned(r: Made) | TimedOut
    | AtClose | ClosingSource | Closed(source: Option<nat>)

  datatype State = State(
    start: bool, ready: bool, source: Option<nat>, err: Option<string>,
    creators: seq<Creator>, getters: map<Tid, Getter>)

  datatype Action =
    | Get(tid: Tid)
    | TryStart(tid: Tid)
    | WakeReady(tid: Tid)
    | Timeout(tid: Tid)
    | ReadSource(tid: Tid)
    | ReadErr(tid: Tid)
    | Close(tid: Tid)
    | TryReady(tid: Tid)
    | CloseSource(tid: Tid)
    | Create(i: nat, r: Made)
    | WriteSource(i: nat)
    | WriteErr(i: nat)
    | CloseReady(i: nat)

  function Init(): State {
    State(true, false, None, None, [], map[])
  }

  predicate Can(s: State, a: Action) {
    match a
    case Get(tid) => tid !in s.getters
    case TryStart(tid) => tid in s.getters && s.getters[tid].AtStart?
    case WakeReady(tid) => tid in s.getters && s.getters[tid].AtWait? && s.ready
    case Timeout(tid) => tid in s.getters && s.getters[tid].AtWait?
    case ReadSource(tid) => tid in s.getters && s.getters[tid].ReadingSource?
    case ReadErr(tid) => tid in s.getters && s.getters[tid].ReadingErr?
    case Close(tid) => tid !in s.getters
    case TryReady(tid) => tid in s.getters && s.getters[tid].AtClose?
    case CloseSource(tid) => tid in s.getters && s.getters[tid].ClosingSource?
    case Create(i, _) => i < |s.creators| && s.creators[i].Calling?
    case WriteSource(i) => i < |s.creators| && s.creators[i].WritingSource?
    case WriteErr(i) => i < |s.creators| && s.creators[i].WritingErr?
    case CloseReady(i) => i < |s.creators| && s.creators[i].Closing?
  }

  function Do(s: State, a: Action): State
    requires Can(s, a)
  {
    match a
    case Get(tid) => s.(getters := s.getters[tid := AtStart])
    case TryStart(tid) =>
      var s' := s.(getters := s.getters[tid := AtWait]);
      if s.start then s'.(start := false, creators := s.creators + [Calling]) else s'
    case WakeReady(tid) => s.(getters := s.getters[tid := ReadingSource])
    case Timeout(tid) => s.(getters := s.getters[tid := TimedOut])
    case ReadSource(tid) => s.(getters := s.getters[tid := ReadingErr(s.source)])
    case ReadErr(tid) => s.(getters := s.getters[tid := Returned(Made(s.getters[tid].source, s.err))])
    case Close(tid) => s.(getters := s.getters[tid := AtClose])
    case TryReady(tid) => s.(getters := s.getters[tid := if s.ready then ClosingSource else Closed(None)])
    case CloseSource(tid) => s.(getters := s.getters[tid := Closed(s.source)])
    case Create(i, r) => s.(creators := s.creators[i := WritingSource(r)])
    case WriteSource(i) => s.(source := s.creators[i].r.source, creators := s.creators[i := WritingErr(s.creators[i].r)])
    case WriteErr(i) => s.(err := s.creators[i].r.err, creators := s.creators[i := Closing(s.creators[i].r)])
    case CloseReady(i) => s.(ready := true, creators := s.creators[i := Exited(s.creators[i].r)])
  }

  function Exec(s: State, acts: seq<Action>): Option<State>
    decreases |acts|
  {
    if |acts| == 0 then Some(s)
    else if Can(s, acts[0]) then Exec(Do(s, acts[0]), acts[1..])
    else None
  }

  ghost predicate Inv(s: State) {
    && |s.creators| == (if s.start then 0 else 1)
    && (s.ready <==> |s.creators| == 1 && s.creators[0].Exited?)
    && (|s.creators| == 1 && (s.creators[0].WritingErr? || s.creators[0].Closing? || s.creators[0].Exited?) ==>
          s.source == s.creators[0].r.source)
    && (|s.creators| == 1 && (s.creators[0].Closing? || s.creators[0].Exited?) ==>
          s.err == s.creators[0].r.err)
    && (forall tid | tid in s.getters ::
          var g := s.getters[tid];
          && (g.ReadingSource? || g.ReadingErr? || g.Returned? || g.ClosingSource? ==> s.ready)
          && (g.AtWait? ==> !s.start)
          && (g.ReadingErr? ==> g.source == s.source)
          && (g.Closed? && g.source.Some? ==> s.ready && g.source == s.source)
          && (g.Returned? ==> g.r == Made(s.source, s.err)))
  }

  /** The result is published when `ready` is closed, as the pair the creator was handed. */
  function Abs(s: State): Cell<Made> {
    Cell(
      if |s.creators| == 0 then Idle else if s.creators[0].Exited? then Ready(s.creators[0].r) else Creating,
      |s.creators|,
      map tid | tid in s.getters && s.getters[tid].Returned? :: s.getters[tid].r)
  }

  function LabelOf(s: State, a: Action): Label<Made>
    requires Can(s, a)
  {
    match a
    case TryStart(_) => if s.start then Begin else Silent
    case CloseReady(i) => Publish(s.creators[i].r)
    case ReadErr(tid) => Return(tid)
    case _ => Silent
  }

  lemma KeepsInv(s: State, a: Action)
    requires Inv(s) && Can(s, a)
    ensures Inv(Do(s, a))
  {
  }

  lemma Refines(s: State, a: Action)
    requires Inv(s) && Can(s, a)
    ensures May(Abs(s), LabelOf(s, a)) && Abs(Do(s, a)) == Does(Abs(s), LabelOf(s, a))
  {
  }

  lemma {:induction false} ExecRefines(s: State, acts: seq<Action>) returns (labels: seq<Label<Made>>)
    requires Inv(s) && Exec(s, acts).Some?
    ensures Inv(Exec(s, acts).value)
    ensures Runs(Abs(s), labels) == Some(Abs(Exec(s, acts).value))
    decreases |acts|
  {
    if |acts| == 0 {
      labels := [];
    } else {
      KeepsInv(s, acts[0]);
      Refines(s, acts[0]);
      var rest := ExecRefines(Do(s, acts[0]), acts[1..]);
      labels := [LabelOf(s, acts[0])] + rest;
    }
  }

  /**
   Under every interleaving at most one goroutine creates, and every get that does not time out
   returns exactly the pair that goroutine was handed; a Close only ever closes that source.
   */
  lemma GetsAgree(acts: seq<Action>, s: State)
    requires Exec(Init(), acts) == Some(s)
    ensures |s.creators| <= 1
    ensures forall t | t in s.getters && s.getters[t].Returned? ::
              |s.creators| == 1 && s.creators[0] == Exited(s.getters[t].r)
    ensures forall t | t in s.getters && s.getters[t].Closed? && s.getters[t].source.Some? ::
              |s.creators| == 1 && s.creators[0].Exited? && s.creators[0].r.source == s.getters[t].source
    ensures exists labels :: Runs(Fresh(), labels) == Some(Abs(s))
  {
    var labels := ExecRefines(Init(), acts);
    assert Abs(Init()) == Fresh();
    AllReturnsAgree(labels, Abs(s));
  }

  /**
   What Close does: once the result has been published it closes the source that was made, if one was;
   before that it closes nothing.
   */
  lemma CloseClosesTheSource(before: seq<Action>, s: State, tid: Tid)
    requires Exec(Init(), before) == Some(s) && tid in s.getters && s.getters[tid].AtClose?
    ensures var s1 := Do(s, TryReady(tid));
            if |s.creators| == 1 && s.creators[0].Exited?
            then Can(s1, CloseSource(tid)) && Do(s1, CloseSource(tid)).getters[tid] == Closed(s.creators[0].r.source)
            else s1.getters[tid] == Closed(None)
  {
    var labels := ExecRefines(Init(), before);
  }

  /** Still inside Get. */
  predicate InGet(s: State, tid: Tid) {
    tid in s.getters
    && (s.getters[tid].AtStart? || s.getters[tid].AtWait? || s.getters[tid].ReadingSource? || s.getters[tid].ReadingErr?)
  }

  ghost predicate ReturnsBy(s: State, tid: Tid, acts: seq<Action>) {
    && Exec(s, acts).Some? && tid in Exec(s, acts).value.getters
    && Exec(s, acts).value.getters[tid].Returned?
  }

  /** Steps of the creating goroutine, then of the get, until the get returns. */
  function StepsLeft(s: State, tid: Tid): nat
    requires tid in s.getters
  {
    match s.getters[tid]
    case AtStart => 8
    case AtWait =>
      if |s.creators| == 0 then 7
      else
        (match s.creators[0]
         case Calling => 7
         case WritingSource(_) => 6
         case WritingErr(_) => 5
         case Closing(_) => 4
         case Exited(_) => 3)
    case ReadingSource => 2
    case ReadingErr(_) => 1
    case _ => 0
  }

  function Towards(s: State, tid: Tid): Action
    requires InGet(s, tid)
  {
    match s.getters[tid]
    case AtStart => TryStart(tid)
    case ReadingSource => ReadSource(tid)
    case ReadingErr(_) => ReadErr(tid)
    case _ =>
      if |s.creators| == 0 || s.ready then WakeReady(tid)
      else if s.creators[0].Calling? then Create(0, Made(None, None))
      else if s.creators[0].WritingSource? then WriteSource(0)
      else if s.creators[0].WritingErr? then WriteErr(0)
      else CloseReady(0)
  }

  /** In every reachable state, every get that has not ended can come to return in at most eight steps. */
  lemma CanReturn(before: seq<Action>, s: State, tid: Tid) returns (acts: seq<Action>)
    requires Exec(Init(), before) == Some(s) && InGet(s, tid)
    ensures |acts| <= 8 && ReturnsBy(s, tid, acts)
  {
    var labels := ExecRefines(Init(), before);
    acts := ReturnPath(s, tid);
  }

  lemma {:induction false} ReturnPath(s: State, tid: Tid) returns (acts: seq<Action>)
    requires Inv(s) && (InGet(s, tid) || (tid in s.getters && s.getters[tid].Returned?))
    ensures |acts| <= StepsLeft(s, tid) && ReturnsBy(s, tid, acts)
    decreases StepsLeft(s, tid)
  {
    if s.getters[tid].Returned? {
      acts := [];
    } else {
      var a := Towards(s, tid);
      KeepsInv(s, a);
      var rest := ReturnPath(Do(s, a), tid);
      acts := [a] + rest;
      assert acts[1..] == rest;
    }
  }
}
