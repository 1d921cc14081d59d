/**
 The specification of a lazy once-only source: creation begins at most once, its result is published
 whole, and every get that returns a result returns that one.
 */
module OnceCell {
  import opened Wrappers

  type Tid = nat

  datatype Phase<R> = Idle | Creating | Ready(result: R)

  /** `created` counts the creations begun; gets that timed out are not in `returned`. */
  datatype Cell<R> = Cell(phase: Phase<R>, created: nat, returned: map<Tid, R>)

  datatype Label<R> = Begin | Publish(result: R) | Return(tid: Tid) | Silent

  function Fresh<R>(): Cell<R> {
    Cell(Idle, 0, map[])
  }

  predicate May<R>(c: Cell<R>, l: Label<R>) {
    match l
    case Begin => c.phase.Idle?
    case Publish(_) => c.phase.Creating?
    case Return(tid) => c.phase.Ready? && tid !in c.returned
    case Silent => true
  }

  function Does<R>(c: Cell<R>, l: Label<R>): Cell<R>
    requires May(c, l)
  {
    match l
    case Begin => c.(phase := Creating, created := c.created + 1)
    case Publish(r) => c.(phase := Ready(r))
    case Return(tid) => c.(returned := c.returned[tid := c.phase.result])
    case Silent => c
  }

  function Runs<R>(c: Cell<R>, labels: seq<Label<R>>): Option<Cell<R>>
    decreases |labels|
  {
    if |labels| == 0 then Some(c)
    else if May(c, labels[0]) then Runs(Does(c, labels[0]), labels[1..])
    else None
  }

  ghost predicate Once<R>(c: Cell<R>) {
    && c.created == (if c.phase.Idle? then 0 else 1)
    && (forall tid | tid in c.returned :: c.phase.Ready? && c.returned[tid] == c.phase.result)
  }

  lemma {:induction false} RunsOnce<R>(c: Cell<R>, labels: seq<Label<R>>)
    requires Once(c) && Runs(c, labels).Some?
    ensures Once(Runs(c, labels).value)
    ensures c.phase.Ready? ==> Runs(c, labels).value.phase == c.phase
    decreases |labels|
  {
    if |labels| > 0 {
      RunsOnce(Does(c, labels[0]), labels[1..]);
    }
  }

  /** All gets of a run that return, return the same; creation begins at most once. */
  lemma AllReturnsAgree<R(!new)>(labels: seq<Label<R>>, c: Cell<R>)
    requires Runs(Fresh(), labels) == Some(c)
    ensures c.created <= 1
    ensures forall t, u | t in c.returned && u in c.returned :: c.returned[t] == c.returned[u]
  {
    RunsOnce(Fresh(), labels);
  }
}
