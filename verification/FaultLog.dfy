/** Fault injection and the call log of the mock server, over any sequence of events. */
module FaultLog {
  import opened StreamProtocol

  const INVALID_ARGUMENT: Code := 3

  /** remaining < 0 means unlimited. */
  datatype Fault = Fault(code: Code, remaining: int)

  datatype Call = Call(rpc: string, hasHeader: bool, code: Code)

  datatype Book = Book(faults: map<string, Fault>, calls: seq<Call>)

  datatype Event =
    | InjectError(rpc: string, code: Code, count: int)
    | ClearErrors
    | Rpc(rpc: string, hasHeader: bool)

  /**
   The status a call is answered with at its start; OK means it is accepted. Injecting OK itself is
   possible: the fault is used up and the call goes through.
   */
  function Answer(b: Book, rpc: string, hasHeader: bool): Code {
    if !hasHeader then INVALID_ARGUMENT
    else if rpc in b.faults && b.faults[rpc].remaining != 0 then b.faults[rpc].code
    else OK
  }

  /** Only a header-carrying call uses up a fault, and an unlimited one never runs out. */
  function Consumed(b: Book, rpc: string, hasHeader: bool): map<string, Fault> {
    if hasHeader && rpc in b.faults && b.faults[rpc].remaining > 0
    then b.faults[rpc := b.faults[rpc].(remaining := b.faults[rpc].remaining - 1)]
    else b.faults
  }

  function Handle(b: Book, e: Event): Book {
    match e
    case InjectError(rpc, code, count) => b.(faults := b.faults[rpc := Fault(code, count)])
    case ClearErrors => b.(faults := map[])
    case Rpc(rpc, hasHeader) =>
      Book(Consumed(b, rpc, hasHeader), b.calls + [Call(rpc, hasHeader, Answer(b, rpc, hasHeader))])
  }

  function After(b: Book, events: seq<Event>): Book {
    if events == [] then b
    else Handle(After(b, events[..|events| - 1]), events[|events| - 1])
  }

  function Rpcs(events: seq<Event>): nat {
    if events == [] then 0
    else Rpcs(events[..|events| - 1]) + if events[|events| - 1].Rpc? then 1 else 0
  }

  /** How many calls to the method carried the header. */
  function HeaderCalls(events: seq<Event>, rpc: string): nat {
    if events == [] then 0
    else HeaderCalls(events[..|events| - 1], rpc) + if events[|events| - 1] == Rpc(rpc, true) then 1 else 0
  }

  /** Neither a new fault for the method nor ClearErrors. */
  ghost predicate LeavesFault(events: seq<Event>, rpc: string) {
    forall e | e in events :: !e.ClearErrors? && !(e.InjectError? && e.rpc == rpc)
  }

  function Remaining(count: int, used: nat): int {
    if count < 0 then count else if used < count then count - used else 0
  }

  lemma {:induction false} FaultRunsDown(b: Book, rpc: string, code: Code, count: int, events: seq<Event>)
    requires rpc in b.faults && b.faults[rpc] == Fault(code, count) && LeavesFault(events, rpc)
    ensures rpc in After(b, events).faults
    ensures After(b, events).faults[rpc] == Fault(code, Remaining(count, HeaderCalls(events, rpc)))
  {
    if events != [] {
      FaultRunsDown(b, rpc, code, count, events[..|events| - 1]);
      assert events[|events| - 1] in events;
    }
  }

  /** The log only grows, by exactly one entry for each RPC, in order. */
  lemma {:induction false} LogIsAppendOnly(b: Book, events: seq<Event>, i: nat)
    requires i < |events| && events[i].Rpc?
    ensures |After(b, events).calls| == |b.calls| + Rpcs(events)
    ensures Rpcs(events[..i]) < Rpcs(events)
    ensures After(b, events[..i]).calls <= After(b, events).calls
    ensures After(b, events).calls[|b.calls| + Rpcs(events[..i])] ==
              Call(events[i].rpc, events[i].hasHeader,
                   Answer(After(b, events[..i]), events[i].rpc, events[i].hasHeader))
  {
    var init := events[..|events| - 1];
    CountsLog(b, init);
    if i < |init| {
      assert init[..i] == events[..i];
      LogIsAppendOnly(b, init, i);
    } else {
      assert init == events[..i];
    }
  }

  lemma {:induction false} CountsLog(b: Book, events: seq<Event>)
    ensures |After(b, events).calls| == |b.calls| + Rpcs(events)
  {
    if events != [] {
      CountsLog(b, events[..|events| - 1]);
    }
  }

  /**
   After InjectError(rpc, code, count), as long as no other InjectError for the method and no
   ClearErrors follow, the log entry of every later call to the method is determined: without the
   header InvalidArgument; with it, the injected code for the first `count` calls (all of them for
   a negative count) and OK from then on. Headerless calls and other methods do not count.
   */
  lemma FaultAccounting(b: Book, rpc: string, code: Code, count: int, events: seq<Event>, i: nat)
    requires i < |events| && events[i].Rpc? && events[i].rpc == rpc && LeavesFault(events, rpc)
    ensures var after := After(Handle(b, InjectError(rpc, code, count)), events).calls;
            var at := |b.calls| + Rpcs(events[..i]);
            at < |after| && after[at] == Call(rpc, events[i].hasHeader,
              if !events[i].hasHeader then INVALID_ARGUMENT
              else if count < 0 || HeaderCalls(events[..i], rpc) < count then code
              else OK)
  {
    var b1 := Handle(b, InjectError(rpc, code, count));
    LogIsAppendOnly(b1, events, i);
    assert LeavesFault(events[..i], rpc);
    FaultRunsDown(b1, rpc, code, count, events[..i]);
  }

  lemma {:induction false} NoFaultStays(b: Book, rpc: string, events: seq<Event>)
    requires rpc !in b.faults && forall e | e in events :: !(e.InjectError? && e.rpc == rpc)
    ensures rpc !in After(b, events).faults
  {
    if events != [] {
      NoFaultStays(b, rpc, events[..|events| - 1]);
      assert events[|events| - 1] in events;
    }
  }

  /**
   After ClearErrors, as on a new server, every call to a method goes through if it carries the header,
   until an error is injected for the method again.
   */
  lemma ClearedAccounting(b: Book, rpc: string, events: seq<Event>, i: nat)
    requires i < |events| && events[i].Rpc? && events[i].rpc == rpc
    requires forall e | e in events :: !(e.InjectError? && e.rpc == rpc)
    ensures var after := After(Handle(b, ClearErrors), events).calls;
            var at := |b.calls| + Rpcs(events[..i]);
            at < |after| && after[at] == Call(rpc, events[i].hasHeader, if events[i].hasHeader then OK else INVALID_ARGUMENT)
  {
    var b1 := Handle(b, ClearErrors);
    LogIsAppendOnly(b1, events, i);
    NoFaultStays(b1, rpc, events[..i]);
  }
}
