/** Go error values as trees, and how runCase turns one into a status. */
module ErrorTrees {
  import opened Wrappers

  /** Wrap is fmt.Errorf with %w, Joined is errors.Join, Exec and Skip are the suite's two error types. */
  datatype Err = Plain(msg: string) | Wrap(inner: Err) | Joined(parts: seq<Err>) | Exec(inner: Err) | Skip(reason: string)

  datatype Status = PASS | FAIL | SKIP | ERROR

  /** errors.As with a *SkipError target: depth first, leftmost match. */
  function AsSkip(e: Err): Option<string> {
    match e
    case Skip(reason) => Some(reason)
    case Wrap(inner) => AsSkip(inner)
    case Exec(inner) => AsSkip(inner)
    case Joined(parts) => FirstSkip(parts)
    case Plain(_) => None
  }

  function FirstSkip(parts: seq<Err>): Option<string> {
    if parts == [] then None
    else if AsSkip(parts[0]).Some? then AsSkip(parts[0])
    else FirstSkip(parts[1..])
  }

  /** errors.As with an *ExecutionError target. */
  predicate AsExec(e: Err) {
    match e
    case Exec(_) => true
    case Wrap(inner) => AsExec(inner)
    case Joined(parts) => SomeExec(parts)
    case _ => false
  }

  predicate SomeExec(parts: seq<Err>) {
    parts != [] && (AsExec(parts[0]) || SomeExec(parts[1..]))
  }

  /** What a test function returned, nil being None. The order of the tests is that of runCase. */
  function Classify(runErr: Option<Err>): Status {
    if runErr.None? then PASS
    else if AsSkip(runErr.value).Some? then SKIP
    else if AsExec(runErr.value) then ERROR
    else FAIL
  }

  // ---------------------------------------------------------------------------------------------
  // Independent of any search order: following a path of child numbers

  function Children(e: Err): seq<Err> {
    match e
    case Wrap(inner) => [inner]
    case Exec(inner) => [inner]
    case Joined(parts) => parts
    case _ => []
  }

  function NodeAt(e: Err, path: seq<nat>): Option<Err>
    decreases |path|
  {
    if path == [] then Some(e)
    else if path[0] < |Children(e)| then NodeAt(Children(e)[path[0]], path[1..])
    else None
  }

  ghost predicate SkipAt(e: Err, path: seq<nat>) {
    NodeAt(e, path).Some? && NodeAt(e, path).value.Skip?
  }

  ghost predicate ExecAt(e: Err, path: seq<nat>) {
    NodeAt(e, path).Some? && NodeAt(e, path).value.Exec?
  }

  lemma DownOne(e: Err, i: nat, path: seq<nat>)
    requires i < |Children(e)|
    ensures NodeAt(e, [i] + path) == NodeAt(Children(e)[i], path)
  {
  }

  lemma {:induction false} SkipIsFound(e: Err, path: seq<nat>)
    requires SkipAt(e, path)
    ensures AsSkip(e).Some?
    decreases |path|
  {
    if path != [] {
      SkipIsFound(Children(e)[path[0]], path[1..]);
      if e.Joined? {
        FirstSkipFinds(e.parts, path[0]);
      }
    }
  }

  lemma {:induction false} FirstSkipFinds(parts: seq<Err>, i: nat)
    requires i < |parts| && AsSkip(parts[i]).Some?
    ensures FirstSkip(parts).Some?
  {
    if i > 0 && AsSkip(parts[0]).None? {
      FirstSkipFinds(parts[1..], i - 1);
    }
  }

  lemma {:induction false} FoundSkipIsThere(e: Err) returns (path: seq<nat>)
    requires AsSkip(e).Some?
    ensures SkipAt(e, path) && NodeAt(e, path).value.reason == AsSkip(e).value
    decreases e
  {
    match e
    case Skip(_) => path := [];
    case Wrap(inner) =>
      var p := FoundSkipIsThere(inner);
      path := [0] + p;
      DownOne(e, 0, p);
    case Exec(inner) =>
      var p := FoundSkipIsThere(inner);
      path := [0] + p;
      DownOne(e, 0, p);
    case Joined(parts) =>
      var i := FirstSkipIndex(parts);
      var p := FoundSkipIsThere(parts[i]);
      path := [i] + p;
      DownOne(e, i, p);
  }

  lemma {:induction false} FirstSkipIndex(parts: seq<Err>) returns (i: nat)
    requires FirstSkip(parts).Some?
    ensures i < |parts| && AsSkip(parts[i]) == FirstSkip(parts)
    ensures forall j | 0 <= j < i :: AsSkip(parts[j]).None?
  {
    if AsSkip(parts[0]).Some? {
      i := 0;
    } else {
      var k := FirstSkipIndex(parts[1..]);
      i := k + 1;
    }
  }

  lemma {:induction false} ExecIsFound(e: Err, path: seq<nat>)
    requires ExecAt(e, path)
    ensures AsExec(e)
    decreases |path|
  {
    if path != [] && !e.Exec? {
      ExecIsFound(Children(e)[path[0]], path[1..]);
      if e.Joined? {
        SomeExecFinds(e.parts, path[0]);
      }
    }
  }

  lemma {:induction false} SomeExecFinds(parts: seq<Err>, i: nat)
    requires i < |parts| && AsExec(parts[i])
    ensures SomeExec(parts)
  {
    if i > 0 {
      SomeExecFinds(parts[1..], i - 1);
    }
  }

  lemma {:induction false} FoundExecIsThere(e: Err) returns (path: seq<nat>)
    requires AsExec(e)
    ensures ExecAt(e, path)
    decreases e
  {
    match e
    case Exec(_) => path := [];
    case Wrap(inner) =>
      var p := FoundExecIsThere(inner);
      path := [0] + p;
      DownOne(e, 0, p);
    case Joined(parts) =>
      var i := SomeExecIndex(parts);
      var p := FoundExecIsThere(parts[i]);
      path := [i] + p;
      DownOne(e, i, p);
  }

  lemma {:induction false} SomeExecIndex(parts: seq<Err>) returns (i: nat)
    requires SomeExec(parts)
    ensures i < |parts| && AsExec(parts[i])
  {
    if AsExec(parts[0]) {
      i := 0;
    } else {
      var k := SomeExecIndex(parts[1..]);
      i := k + 1;
    }
  }

  /**
   The status of a failed test depends only on what occurs anywhere in its error: SKIP if and only if
   a SkipError does, otherwise ERROR if and only if an ExecutionError does, otherwise FAIL.
   */
  lemma StatusByOccurrence(e: Err)
    ensures Classify(Some(e)) == SKIP <==> exists path :: SkipAt(e, path)
    ensures Classify(Some(e)) == ERROR <==> (!exists path :: SkipAt(e, path)) && exists path :: ExecAt(e, path)
    ensures Classify(Some(e)) == FAIL <==> (!exists path :: SkipAt(e, path)) && !exists path :: ExecAt(e, path)
  {
    if AsSkip(e).Some? {
      var p := FoundSkipIsThere(e);
    }
    if AsExec(e) {
      var p := FoundExecIsThere(e);
    }
    forall path | SkipAt(e, path) ensures AsSkip(e).Some? {
      SkipIsFound(e, path);
    }
    forall path | ExecAt(e, path) ensures AsExec(e) {
      ExecIsFound(e, path);
    }
  }

  function Max(a: Status, b: Status): Status {
    if a == SKIP || b == SKIP then SKIP else if a == ERROR || b == ERROR then ERROR else FAIL
  }

  function Worst(parts: seq<Err>): Status {
    if parts == [] then FAIL else Max(Classify(Some(parts[0])), Worst(parts[1..]))
  }

  /**
   Adding context never changes a status: wrapping keeps it, joining takes the strongest of the
   parts, and marking an error as an ExecutionError makes it ERROR unless it carries a SkipError.
   */
  lemma ContextKeepsStatus(e: Err, parts: seq<Err>)
    ensures Classify(Some(Wrap(e))) == Classify(Some(e))
    ensures Classify(Some(Joined(parts))) == Worst(parts)
    ensures Classify(Some(Exec(e))) == if Classify(Some(e)) == SKIP then SKIP else ERROR
  {
    JoinIsWorst(parts);
  }

  lemma {:induction false} JoinIsWorst(parts: seq<Err>)
    ensures Classify(Some(Joined(parts))) == Worst(parts)
  {
    var all := Joined(parts);
    assert AsSkip(all) == FirstSkip(parts) && AsExec(all) == SomeExec(parts);
    if parts != [] {
      JoinIsWorst(parts[1..]);
      var rest := Joined(parts[1..]);
      assert AsSkip(rest) == FirstSkip(parts[1..]) && AsExec(rest) == SomeExec(parts[1..]);
    }
  }
}
