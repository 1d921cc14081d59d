/**
 `Server` of internal/workloadapi/server.go, updated in place. The ghost field `model` is the state
 of the transition system; every method moves it by exactly the steps its critical sections are.
 */
module WorkloadServer {
  import opened Wrappers
  import opened StreamProtocol
  import opened FaultLog
  import StreamTheorems

  type Write<S> = a: Action<S> | a.Set? || a.CloseStreams? witness CloseStreams(0)

  datatype Ready = OnCtx | OnNotify | OnKill

  /**
   A critical section of another goroutine: a write, or the start of an RPC, an injected fault or the
   clearing of all faults.
   */
  datatype Other<S> = Writing(write: Write<S>) | Keeping(event: Event)

  function WritesOf<S>(others: seq<Other<S>>): (r: seq<Action<S>>)
    ensures forall i | 0 <= i < |r| :: r[i].Set? || r[i].CloseStreams?
  {
    if others == [] then []
    else WritesOf(others[..|others| - 1]) + (match others[|others| - 1] case Writing(w) => [w] case Keeping(_) => [])
  }

  function EventsOf<S>(others: seq<Other<S>>): seq<Event> {
    if others == [] then []
    else EventsOf(others[..|others| - 1]) + (match others[|others| - 1] case Writing(_) => [] case Keeping(e) => [e])
  }

  /** Everything the others do happens, in their order. */
  lemma {:induction false} OthersInOrder<S>(a: seq<Other<S>>, b: seq<Other<S>>, w: Write<S>, e: Event)
    ensures WritesOf(a + b) == WritesOf(a) + WritesOf(b) && EventsOf(a + b) == EventsOf(a) + EventsOf(b)
    ensures WritesOf([Other<S>.Writing(w)]) == [w] && EventsOf([Other<S>.Writing(w)]) == []
    ensures WritesOf([Other<S>.Keeping(e)]) == [] && EventsOf([Other<S>.Keeping(e)]) == [e]
  {
    if b == [] {
      assert a + b == a;
    } else {
      OthersInOrder(a, b[..|b| - 1], w, e);
      assert (a + b)[..|a + b| - 1] == a + b[..|b| - 1];
    }
  }

  /**
   What the outside does during one iteration of the loop of `stream`: what other goroutines slip in
   between its critical sections, whether sending works, and which ready case the select takes.
   */
  datatype Turn<S> = Turn(
    beforeCapture: seq<Other<S>>, beforeSnapshot: seq<Other<S>>, beforeSend: seq<Other<S>>,
    sendOk: bool, beforeSelect: seq<Other<S>>, choice: Ready, beforeRead: seq<Other<S>>)

  /** The events of a turn until the select, and from there on if its case is ready. */
  function UpToSend<S>(turn: Turn<S>): seq<Event> {
    EventsOf(turn.beforeCapture) + EventsOf(turn.beforeSnapshot) + EventsOf(turn.beforeSend)
  }

  function FromSelect<S>(turn: Turn<S>): seq<Event> {
    EventsOf(turn.beforeSelect) + if turn.choice.OnKill? then EventsOf(turn.beforeRead) else []
  }

  function TurnsEvents<S>(plan: seq<Turn<S>>): seq<Event> {
    if plan == [] then []
    else TurnsEvents(plan[..|plan| - 1]) + (UpToSend(plan[|plan| - 1]) + FromSelect(plan[|plan| - 1]))
  }

  /** The steps from a ready case on. */
  function Woken<S>(sid: Sid, turn: Turn<S>): seq<Action<S>> {
    match turn.choice
    case OnCtx => [WakeCtx(sid)]
    case OnNotify => [WakeNotify(sid)]
    case OnKill => [WakeKill(sid)] + WritesOf(turn.beforeRead) + [ReadCode(sid)]
  }

  /** The case the select is waiting for is not ready. */
  predicate Blocked<S>(s: Sys<S>, sid: Sid, choice: Ready)
    requires sid in s.streams
  {
    match choice
    case OnCtx => false
    case OnNotify => s.streams[sid].notify !in s.closed
    case OnKill => s.streams[sid].kill !in s.closed
  }

  /** The state, or nil, that round `i` of the stream took its snapshot of. */
  function SnapshotOf<S>(s: Sys<S>, sid: Sid, i: nat): Option<S> {
    if sid in s.streams && i < |s.streams[sid].snaps|
       && s.streams[sid].snaps[i] < |CellOf(s, s.streams[sid].topic).log|
    then CellOf(s, s.streams[sid].topic).log[s.streams[sid].snaps[i]]
    else None
  }

  /** What a round took its snapshot of stays what it is. */
  lemma SnapshotStays<S(!new)>(
      trace: seq<Action<S>>, s: Sys<S>, trace': seq<Action<S>>, s': Sys<S>, sid: Sid, i: nat)
    requires Reaches(trace, s) && Reaches(trace', s') && trace <= trace'
    requires sid in s.streams && i < |s.streams[sid].snaps|
    ensures sid in s'.streams && i < |s'.streams[sid].snaps| && SnapshotOf(s', sid, i) == SnapshotOf(s, sid, i)
  {
    var more := trace'[|trace|..];
    assert trace' == trace + more;
    ExecAppend(Init(), trace, more);
    StreamTheorems.StreamGrows(s, more, sid);
    StreamTheorems.HistoryIsPushed(s, more, s.streams[sid].topic);
    StreamTheorems.ReachableStream(trace, s, sid);
  }

  lemma GotIsSnapshot<S(!new)>(trace: seq<Action<S>>, s: Sys<S>, sid: Sid, ok: bool)
    requires Reaches(trace, s) && At(s, sid, AtSend) && Enabled(s, Send(sid, ok))
    ensures var st, s' := s.streams[sid], Step(s, Send(sid, ok));
            && |st.snaps| == |st.caps| > 0 && s'.streams[sid].snaps == st.snaps
            && SnapshotOf(s', sid, |st.caps| - 1) == st.got
  {
    StreamTheorems.ReachableStream(trace, s, sid);
  }

  /** The round had a state to send, and sending does not work. */
  predicate FailsToSend<S>(s: Sys<S>, sid: Sid, i: nat, turn: Turn<S>) {
    SnapshotOf(s, sid, i).Some? && !turn.sendOk
  }

  ghost predicate AllSent<S>(s: Sys<S>, sid: Sid, plan: seq<Turn<S>>, rounds: nat)
    requires rounds <= |plan|
  {
    forall i | 0 <= i < rounds :: !FailsToSend(s, sid, i, plan[i])
  }

  lemma AllSentStays<S(!new)>(
      trace: seq<Action<S>>, s: Sys<S>, trace': seq<Action<S>>, s': Sys<S>, sid: Sid, plan: seq<Turn<S>>, rounds: nat)
    requires Reaches(trace, s) && Reaches(trace', s') && trace <= trace' && sid in s.streams
    requires rounds <= |plan| && rounds == |s.streams[sid].snaps| && AllSent(s, sid, plan, rounds)
    ensures AllSent(s', sid, plan, rounds)
  {
    forall i | 0 <= i < rounds ensures !FailsToSend(s', sid, i, plan[i]) {
      SnapshotStays(trace, s, trace', s', sid, i);
    }
  }

  /** An end other than by a failed send is the ready case that was taken. */
  predicate EndFits<S>(end: End, turn: Turn<S>) {
    match end
    case SendFailed => !turn.sendOk
    case ClientGone => turn.choice.OnCtx?
    case Killed(_) => turn.choice.OnKill?
  }

  /**
   A stream ends because its send failed exactly when, in its last round, its snapshot was a state
   and sending did not work; no round before that was such a one.
   */
  ghost predicate Fared<S>(s: Sys<S>, sid: Sid, plan: seq<Turn<S>>, end: Option<End>) {
    && sid in s.streams
    && var rounds := |s.streams[sid].caps|;
       && rounds <= |plan|
       && (rounds > 0 ==> AllSent(s, sid, plan, rounds - 1))
       && (end == Some(SendFailed) <==> rounds > 0 && FailsToSend(s, sid, rounds - 1, plan[rounds - 1]))
       && (end.Some? ==> rounds > 0 && EndFits(end.value, plan[rounds - 1]))
  }

  lemma FaredNext<S(!new)>(
      trace: seq<Action<S>>, s: Sys<S>, trace': seq<Action<S>>, s': Sys<S>, sid: Sid, plan: seq<Turn<S>>, i: nat, end: Option<End>)
    requires Reaches(trace, s) && Reaches(trace', s') && trace <= trace' && sid in s.streams && sid in s'.streams
    requires i < |plan| && i == |s.streams[sid].caps| == |s.streams[sid].snaps| && Fared(s, sid, plan, None)
    requires |s'.streams[sid].caps| == i + 1
    requires end == Some(SendFailed) <==> FailsToSend(s', sid, i, plan[i])
    requires end.Some? ==> EndFits(end.value, plan[i])
    ensures Fared(s', sid, plan, end)
  {
    AllSentStays(trace, s, trace', s', sid, plan, i);
  }

  class Server<S(!new)> {
    var x509: Option<S>
    var jwt: Option<S>
    var x509Notify: Chan
    var jwtNotify: Chan
    var kill: Chan
    var killCode: Code
    var closed: set<Chan>
    var next: Chan
    var faults: map<string, Fault>
    var calls: seq<Call>
    ghost var events: seq<Event>
    ghost var trace: seq<Action<S>>
    ghost var model: Sys<S>

    /**
     The fields are those of a state that some run of the transition system reaches, and the books
     those of all events so far.
     */
    ghost predicate Valid()
      reads this
    {
      && Reaches(trace, model)
      && model.x509.value == x509 && model.x509.notify == x509Notify
      && model.jwt.value == jwt && model.jwt.notify == jwtNotify
      && model.kill == kill && model.killCode == killCode
      && model.closed == closed && model.next == next
      && Books() == After(Book(map[], []), events)
    }

    function Books(): Book
      reads this
    {
      Book(faults, calls)
    }

    constructor ()
      ensures Valid() && trace == [] && events == [] && Books() == Book(map[], [])
    {
      x509, jwt, x509Notify, jwtNotify, kill, killCode := None, None, 0, 1, 2, OK;
      closed, next, faults, calls := {}, 3, map[], [];
      events, trace, model := [], [], Init();
    }

    /** Moves the model by one step of the transition system. */
    ghost method Take(a: Action<S>)
      requires Reaches(trace, model) && Enabled(model, a)
      modifies this`model, this`trace
      ensures model == Step(old(model), a) && trace == old(trace) + [a]
      ensures Reaches(trace, model)
    {
      StreamTheorems.ReachesStep(trace, model, a);
      model, trace := Step(model, a), trace + [a];
    }

    method SetX509State(state: Option<S>)
      requires Valid()
      modifies this
      ensures Valid() && model == Step(old(model), Set(X509, state)) && trace == old(trace) + [Set(X509, state)]
      ensures Books() == old(Books()) && events == old(events)
    {
      StreamTheorems.CurrentNotifyIsOpen(trace, model, X509);
      x509 := state;
      CloseChan(x509Notify);
      x509Notify := MakeChan();
      Take(Set(X509, state));
    }

    method SetJWTState(state: Option<S>)
      requires Valid()
      modifies this
      ensures Valid() && model == Step(old(model), Set(Jwt, state)) && trace == old(trace) + [Set(Jwt, state)]
      ensures Books() == old(Books()) && events == old(events)
    {
      StreamTheorems.CurrentNotifyIsOpen(trace, model, Jwt);
      jwt := state;
      CloseChan(jwtNotify);
      jwtNotify := MakeChan();
      Take(Set(Jwt, state));
    }

    method CloseStreams(code: Code)
      requires Valid()
      modifies this
      ensures Valid() && model == Step(old(model), Action.CloseStreams(code))
      ensures trace == old(trace) + [Action.CloseStreams(code)]
      ensures Books() == old(Books()) && events == old(events)
    {
      StreamTheorems.CurrentKillIsOpen(trace, model);
      killCode := code;
      CloseChan(kill);
      kill := MakeChan();
      Take(Action.CloseStreams(code));
    }

    /** `close` panics on a closed channel: no caller ever gets there. */
    method CloseChan(c: Chan)
      requires c !in closed
      modifies this`closed
      ensures closed == old(closed) + {c}
    {
      closed := closed + {c};
    }

    method MakeChan() returns (c: Chan)
      modifies this`next
      ensures c == old(next) && next == old(next) + 1
    {
      c := next;
      next := next + 1;
    }

    method InjectError(rpc: string, code: Code, count: int)
      requires Valid()
      modifies this`faults, this`events
      ensures Valid() && Books() == Handle(old(Books()), Event.InjectError(rpc, code, count))
      ensures events == old(events) + [Event.InjectError(rpc, code, count)]
    {
      faults := faults[rpc := Fault(code, count)];
      events := events + [Event.InjectError(rpc, code, count)];
    }

    method ClearErrors()
      requires Valid()
      modifies this`faults, this`events
      ensures Valid() && Books() == Handle(old(Books()), Event.ClearErrors)
      ensures events == old(events) + [Event.ClearErrors]
    {
      faults := map[];
      events := events + [Event.ClearErrors];
    }

    method Begin(rpc: string, hasHeader: bool) returns (code: Code)
      requires Valid()
      modifies this`faults, this`calls, this`events
      ensures code == Answer(old(Books()), rpc, hasHeader)
      ensures Valid() && Books() == Handle(old(Books()), Rpc(rpc, hasHeader))
      ensures events == old(events) + [Rpc(rpc, hasHeader)]
    {
      code := OK;
      if !hasHeader {
        code := INVALID_ARGUMENT;
      } else if rpc in faults && faults[rpc].remaining != 0 {
        var f := faults[rpc];
        if f.remaining > 0 {
          faults := faults[rpc := f.(remaining := f.remaining - 1)];
        }
        code := f.code;
      }
      calls := calls + [Call(rpc, hasHeader, code)];
      events := events + [Rpc(rpc, hasHeader)];
    }

    method Write(w: Write<S>)
      requires Valid()
      modifies this
      ensures Valid() && trace == old(trace) + [w] && model.streams == old(model.streams)
      ensures events == old(events)
    {
      match w
      case Set(X509, v) => SetX509State(v);
      case Set(Jwt, v) => SetJWTState(v);
      case CloseStreams(code) => CloseStreams(code);
    }

    /** One critical section of the book-keeping; the answer to an RPC goes to its own client. */
    method Keep(e: Event)
      requires Valid()
      modifies this`faults, this`calls, this`events
      ensures Valid() && events == old(events) + [e]
    {
      match e
      case InjectError(rpc, code, count) => InjectError(rpc, code, count);
      case ClearErrors => ClearErrors();
      case Rpc(rpc, hasHeader) => var code := Begin(rpc, hasHeader);
    }

    /** Other goroutines get the mutex, any number of times. */
    method Interfere(others: seq<Other<S>>)
      requires Valid()
      modifies this
      ensures Valid() && model.streams == old(model.streams)
      ensures trace == old(trace) + WritesOf(others) && events == old(events) + EventsOf(others)
    {
      for i := 0 to |others|
        invariant Valid() && model.streams == old(model.streams)
        invariant trace == old(trace) + WritesOf(others[..i]) && events == old(events) + EventsOf(others[..i])
      {
        OneMore(others, i);
        match others[i] {
          case Writing(w) =>
            Write(w);
            Regroup(old(trace), WritesOf(others[..i]), [w], []);
          case Keeping(e) =>
            Keep(e);
            Regroup(old(events), EventsOf(others[..i]), [e], []);
        }
      }
      assert others[..|others|] == others;
    }

    /** The critical section at the top of the loop. */
    method CaptureChans(sid: Sid, topic: Topic) returns (notify: Chan, kill: Chan)
      requires Valid() && At(model, sid, AtCapture) && model.streams[sid].topic == topic
      modifies this`model, this`trace
      ensures Valid() && model == Step(old(model), Capture(sid)) && trace == old(trace) + [Capture(sid)]
      ensures notify == model.streams[sid].notify && kill == model.streams[sid].kill
    {
      notify := if topic.X509? then x509Notify else jwtNotify;
      kill := this.kill;
      Take(Capture(sid));
    }

    method TakeSnapshot(sid: Sid, topic: Topic) returns (state: Option<S>)
      requires Valid() && At(model, sid, AtSnapshot) && model.streams[sid].topic == topic
      modifies this`model, this`trace
      ensures Valid() && model == Step(old(model), Snapshot(sid)) && trace == old(trace) + [Snapshot(sid)]
      ensures state == model.streams[sid].got
    {
      state := if topic.X509? then x509 else jwt;
      Take(Snapshot(sid));
    }

    /** Up to the select: capture, snapshot and send, with writes in between. */
    method Advance(sid: Sid, topic: Topic, turn: Turn<S>) returns (notify: Chan, kill: Chan, failed: bool)
      requires Valid() && At(model, sid, AtCapture) && model.streams[sid].topic == topic
      modifies this
      ensures Valid() && events == old(events) + UpToSend(turn)
      ensures trace == old(trace) + WritesOf(turn.beforeCapture) + [Capture(sid)]
                       + WritesOf(turn.beforeSnapshot) + [Snapshot(sid)]
                       + WritesOf(turn.beforeSend) + [Send(sid, !failed)]
      ensures At(model, sid, if failed then Ended(SendFailed) else AtSelect)
      ensures model.streams[sid].topic == topic
      ensures |model.streams[sid].caps| == |old(model.streams[sid].caps)| + 1
      ensures notify == model.streams[sid].notify && kill == model.streams[sid].kill
      ensures failed <==> SnapshotOf(model, sid, |old(model.streams[sid].caps)|).Some? && !turn.sendOk
      ensures |model.streams[sid].snaps| == |old(model.streams[sid].caps)| + 1
    {
      Interfere(turn.beforeCapture);
      notify, kill := CaptureChans(sid, topic);
      Interfere(turn.beforeSnapshot);
      var state := TakeSnapshot(sid, topic);
      Interfere(turn.beforeSend);
      failed := state.Some? && !turn.sendOk;
      GotIsSnapshot(trace, model, sid, !failed);
      Take(Send(sid, !failed));
      Regroup(old(events), EventsOf(turn.beforeCapture), EventsOf(turn.beforeSnapshot), EventsOf(turn.beforeSend));
    }

    /** The select statement. Without an end, the stream goes round again or is still waiting. */
    method Select(sid: Sid, notify: Chan, kill: Chan, turn: Turn<S>) returns (end: Option<End>, waiting: bool)
      requires Valid() && At(model, sid, AtSelect)
      requires notify == model.streams[sid].notify && kill == model.streams[sid].kill
      modifies this
      ensures Valid()
      ensures events == old(events) + if waiting then EventsOf(turn.beforeSelect) else FromSelect(turn)
      ensures trace == old(trace) + WritesOf(turn.beforeSelect) + if waiting then [] else Woken(sid, turn)
      ensures sid in model.streams && model.streams[sid].topic == old(model.streams[sid].topic)
      ensures match turn.choice
              case OnCtx => end == Some(ClientGone)
              case OnNotify => end.None?
              case OnKill => if waiting then end.None? else end == Some(Killed(model.killCode))
      ensures end.Some? ==> At(model, sid, Ended(end.value)) && !waiting
      ensures end.None? ==> At(model, sid, if waiting then AtSelect else AtCapture)
      ensures sid in model.streams && model.streams[sid].caps == old(model.streams[sid].caps)
      ensures model.streams[sid].snaps == old(model.streams[sid].snaps)
      ensures waiting ==> Blocked(model, sid, turn.choice)
    {
      Interfere(turn.beforeSelect);
      end, waiting := None, true;
      match turn.choice
      case OnCtx =>
        Take(WakeCtx(sid));
        end, waiting := Some(ClientGone), false;
      case OnNotify =>
        if notify in closed {
          Take(WakeNotify(sid));
          waiting := false;
        }
      case OnKill =>
        if kill in closed {
          Take(WakeKill(sid));
          Interfere(turn.beforeRead);
          end, waiting := Some(Killed(killCode)), false;
          Take(ReadCode(sid));
          Regroup(old(trace) + WritesOf(turn.beforeSelect), [WakeKill(sid)], WritesOf(turn.beforeRead), [ReadCode(sid)]);
          Regroup(old(events), EventsOf(turn.beforeSelect), EventsOf(turn.beforeRead), []);
        }
    }

    /** One iteration of the loop; `got` are the events of the parts of the turn it gets to. */
    method Round(sid: Sid, topic: Topic, turn: Turn<S>) returns (end: Option<End>, waiting: bool, ghost got: seq<Event>)
      requires Valid() && At(model, sid, AtCapture) && model.streams[sid].topic == topic
      modifies this
      ensures Valid() && old(trace) <= trace && events == old(events) + got
      ensures got == UpToSend(turn) + if end == Some(SendFailed) then []
                                      else if waiting then EventsOf(turn.beforeSelect) else FromSelect(turn)
      ensures sid in model.streams && model.streams[sid].topic == topic
      ensures |model.streams[sid].caps| == |old(model.streams[sid].caps)| + 1 == |model.streams[sid].snaps|
      ensures end == Some(SendFailed) <==> FailsToSend(model, sid, |old(model.streams[sid].caps)|, turn)
      ensures end.Some? ==> EndFits(end.value, turn)
      ensures end.Some? ==> At(model, sid, Ended(end.value)) && !waiting
      ensures end.None? ==> At(model, sid, if waiting then AtSelect else AtCapture)
      ensures waiting ==> Blocked(model, sid, turn.choice)
    {
      var notify, kill, failed := Advance(sid, topic, turn);
      if failed {
        return Some(SendFailed), false, UpToSend(turn) + [];
      }
      ghost var sent, was := trace, model;
      end, waiting := Select(sid, notify, kill, turn);
      SnapshotStays(sent, was, trace, model, sid, |old(model.streams[sid].caps)|);
      ghost var last := if waiting then EventsOf(turn.beforeSelect) else FromSelect(turn);
      Regroup(old(events), UpToSend(turn), last, []);
      got := UpToSend(turn) + last;
    }

    /** Iteration `i`, after `i` iterations none of which failed to send. */
    method Iterate(sid: Sid, topic: Topic, plan: seq<Turn<S>>, i: nat, ghost start: seq<Event>, ghost during: seq<Event>)
        returns (end: Option<End>, waiting: bool, ghost during': seq<Event>)
      requires Valid() && At(model, sid, AtCapture) && model.streams[sid].topic == topic
      requires i < |plan| && |model.streams[sid].caps| == i == |model.streams[sid].snaps| && Fared(model, sid, plan, None)
      requires during == TurnsEvents(plan[..i]) && Logged(start, during, events, plan)
      modifies this
      ensures Valid() && old(trace) <= trace && Logged(start, during', events, plan)
      ensures end.None? && !waiting ==> during' == TurnsEvents(plan[..i + 1])
      ensures sid in model.streams && model.streams[sid].topic == topic
      ensures |model.streams[sid].caps| == i + 1 == |model.streams[sid].snaps| && Fared(model, sid, plan, end)
      ensures end.Some? ==> At(model, sid, Ended(end.value)) && !waiting
      ensures end.None? ==> At(model, sid, if waiting then AtSelect else AtCapture)
      ensures waiting ==> Blocked(model, sid, plan[i].choice)
    {
      ghost var before, was := trace, model;
      ghost var got;
      end, waiting, got := Round(sid, topic, plan[i]);
      FaredNext(before, was, trace, model, sid, plan, i, end);
      during' := LogRound(start, during, got, plan, i, end == Some(SendFailed), waiting);
    }

    /**
     A server-streaming RPC against any behaviour of the outside. Whatever it does is a run of the
     transition system that extends the run so far, so every theorem about runs holds of it. The books
     get its own entry, and then what the others do in the turns it gets to.
     */
    method Fetch(rpc: string, hasHeader: bool, sid: Sid, topic: Topic, plan: seq<Turn<S>>)
        returns (code: Code, end: Option<End>, ghost during: seq<Event>)
      requires Valid() && sid !in model.streams
      modifies this
      ensures Valid() && old(trace) <= trace
      ensures code == Answer(old(Books()), rpc, hasHeader)
      ensures Logged(old(events) + [Rpc(rpc, hasHeader)], during, events, plan)
      ensures code != OK ==> trace == old(trace) && model == old(model) && end.None? && during == []
      ensures code == OK ==> sid in model.streams && model.streams[sid].topic == topic
      ensures code == OK && end.Some? ==> At(model, sid, Ended(end.value))
      ensures code == OK ==> Fared(model, sid, plan, end)
      ensures code == OK && end.None? ==>
                var rounds := |model.streams[sid].caps|;
                || (At(model, sid, AtCapture) && rounds == |plan| && during == TurnsEvents(plan))
                || (At(model, sid, AtSelect) && 0 < rounds <= |plan| && Blocked(model, sid, plan[rounds - 1].choice))
    {
      end, during := None, [];
      code := Begin(rpc, hasHeader);
      ghost var start := events;
      NothingLogged(start, plan);
      if code != OK {
        return;
      }
      Take(Open(sid, topic));
      for i := 0 to |plan|
        invariant Valid() && old(trace) <= trace && start == old(events) + [Rpc(rpc, hasHeader)]
        invariant during == TurnsEvents(plan[..i]) && Logged(start, during, events, plan)
        invariant At(model, sid, AtCapture) && model.streams[sid].topic == topic && end.None?
        invariant |model.streams[sid].caps| == i == |model.streams[sid].snaps|
        invariant Fared(model, sid, plan, end)
      {
        var waiting;
        end, waiting, during := Iterate(sid, topic, plan, i, start, during);
        if end.Some? || waiting {
          return;
        }
      }
      WholePlan(plan);
    }
  }

  lemma NothingLogged<S>(start: seq<Event>, plan: seq<Turn<S>>)
    ensures Logged(start, [], start, plan) && TurnsEvents(plan[..0]) == []
  {
  }

  lemma WholePlan<S>(plan: seq<Turn<S>>)
    ensures TurnsEvents(plan[..|plan|]) == TurnsEvents(plan)
  {
    assert plan[..|plan|] == plan;
  }

  lemma Regroup<T>(a: seq<T>, b: seq<T>, c: seq<T>, d: seq<T>)
    ensures a + b + c == a + (b + c)
    ensures a + b + c + d == a + (b + c + d)
  {
  }

  lemma OneMore<S>(others: seq<Other<S>>, i: nat)
    requires i < |others|
    ensures WritesOf(others[..i + 1]) ==
              if others[i].Writing? then WritesOf(others[..i]) + [others[i].write] else WritesOf(others[..i])
    ensures EventsOf(others[..i + 1]) ==
              if others[i].Keeping? then EventsOf(others[..i]) + [others[i].event] else EventsOf(others[..i])
  {
    assert others[..i + 1][..i] == others[..i];
  }

  lemma PrefixOfSum<T>(a: seq<T>, part: seq<T>, whole: seq<T>)
    requires part <= whole
    ensures a + part <= a + whole
  {
  }

  lemma PrefixOfPrefix<T>(a: seq<T>, b: seq<T>, c: seq<T>)
    requires a <= b <= c
    ensures a <= c
  {
  }

  /** What happens in a turn, or the parts of it that come first, follows what happened before. */
  lemma PrefixOfTurns<S>(plan: seq<Turn<S>>, i: nat, got: seq<Event>, failed: bool, waiting: bool)
    requires i < |plan|
    requires got == UpToSend(plan[i]) + if failed then []
                                        else if waiting then EventsOf(plan[i].beforeSelect) else FromSelect(plan[i])
    ensures TurnsEvents(plan[..i]) + got <= TurnsEvents(plan)
    ensures !failed && !waiting ==> TurnsEvents(plan[..i]) + got == TurnsEvents(plan[..i + 1])
  {
    assert plan[..i + 1][..i] == plan[..i];
    TurnsPrefix(plan, i + 1);
    var last := if failed then [] else if waiting then EventsOf(plan[i].beforeSelect) else FromSelect(plan[i]);
    PrefixOfSum(UpToSend(plan[i]), last, FromSelect(plan[i]));
    PrefixOfSum(TurnsEvents(plan[..i]), got, UpToSend(plan[i]) + FromSelect(plan[i]));
    PrefixOfPrefix(TurnsEvents(plan[..i]) + got, TurnsEvents(plan[..i + 1]), TurnsEvents(plan));
  }

  ghost predicate Logged<S>(start: seq<Event>, during: seq<Event>, events: seq<Event>, plan: seq<Turn<S>>) {
    events == start + during && during <= TurnsEvents(plan)
  }

  lemma LogRound<S>(start: seq<Event>, during: seq<Event>, got: seq<Event>, plan: seq<Turn<S>>, i: nat, failed: bool, waiting: bool)
      returns (during': seq<Event>)
    requires i < |plan| && during == TurnsEvents(plan[..i])
    requires got == UpToSend(plan[i]) + if failed then []
                                        else if waiting then EventsOf(plan[i].beforeSelect) else FromSelect(plan[i])
    ensures Logged(start, during', start + during + got, plan)
    ensures !failed && !waiting ==> during' == TurnsEvents(plan[..i + 1])
  {
    PrefixOfTurns(plan, i, got, failed, waiting);
    Regroup(start, during, got, []);
    during' := during + got;
  }

  lemma {:induction false} TurnsPrefix<S>(plan: seq<Turn<S>>, i: nat)
    requires i <= |plan|
    ensures TurnsEvents(plan[..i]) <= TurnsEvents(plan)
  {
    if i < |plan| {
      var init := plan[..|plan| - 1];
      TurnsPrefix(init, i);
      assert init[..i] == plan[..i];
    } else {
      assert plan[..i] == plan;
    }
  }
}
