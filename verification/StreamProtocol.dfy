/**
 The streaming half of the mock Workload API server as a transition system.

 Any number of streams loop over the steps of `Server.stream`; writers replace a state cell or
 close all streams at any moment between two steps. Every critical section of the source is one
 step. A Go channel is a number drawn from one counter, and `closed` is the set of closed ones.

 `log`, `chans`, `killLog`, `killChans`, `caps`, `snaps`, `sent`, `capKill` and `endKill` are
 history variables: no step reads them to decide anything.
 */
module StreamProtocol {
  import opened Wrappers

  type Chan = nat
  type Sid = nat

  /** A gRPC status code. */
  type Code = nat

  const OK: Code := 0

  datatype Topic = X509 | Jwt

  datatype End = ClientGone | SendFailed | Killed(code: Code)

  datatype Pc = AtCapture | AtSnapshot | AtSend | AtSelect | AtReadCode | Ended(end: End)

  /** A state cell, the channel announcing its next change, and the history of both. */
  datatype Cell<S> = Cell(value: Option<S>, notify: Chan, log: seq<Option<S>>, chans: seq<Chan>)

  /**
   One streaming RPC. Iteration i of its loop captured its channels at version `caps[i]` and took
   its snapshot at version `snaps[i]`; `sent` lists the iterations that sent a message.
   */
  datatype Stream<S> = Stream(
    topic: Topic, pc: Pc, notify: Chan, kill: Chan, got: Option<S>,
    caps: seq<nat>, snaps: seq<nat>, sent: seq<nat>, capKill: nat, endKill: nat)

  datatype Sys<S> = Sys(
    x509: Cell<S>, jwt: Cell<S>,
    kill: Chan, killCode: Code, killLog: seq<Code>, killChans: seq<Chan>,
    closed: set<Chan>, next: nat,
    streams: map<Sid, Stream<S>>)

  datatype Action<S> =
    | Set(topic: Topic, state: Option<S>)
    | CloseStreams(code: Code)
    | Open(sid: Sid, of: Topic)
    | Capture(sid: Sid)
    | Snapshot(sid: Sid)
    | Send(sid: Sid, ok: bool)
    | WakeCtx(sid: Sid)
    | WakeNotify(sid: Sid)
    | WakeKill(sid: Sid)
    | ReadCode(sid: Sid)

  function Init<S>(): Sys<S> {
    Sys(Cell(None, 0, [None], [0]), Cell(None, 1, [None], [1]), 2, OK, [], [2], {}, 3, map[])
  }

  function CellOf<S>(s: Sys<S>, t: Topic): Cell<S> {
    if t.X509? then s.x509 else s.jwt
  }

  /** The number of times the cell has been set. */
  function Version<S>(c: Cell<S>): nat {
    if |c.log| == 0 then 0 else |c.log| - 1
  }

  predicate At<S>(s: Sys<S>, sid: Sid, pc: Pc) {
    sid in s.streams && s.streams[sid].pc == pc
  }

  /** Whether the step can be taken: a receive proceeds once its channel is closed. */
  predicate Enabled<S>(s: Sys<S>, a: Action<S>) {
    match a
    case Set(_, _) => true
    case CloseStreams(_) => true
    case Open(sid, _) => sid !in s.streams
    case Capture(sid) => At(s, sid, AtCapture)
    case Snapshot(sid) => At(s, sid, AtSnapshot)
    case Send(sid, ok) => At(s, sid, AtSend) && (ok || s.streams[sid].got.Some?)
    case WakeCtx(sid) => At(s, sid, AtSelect)
    case WakeNotify(sid) => At(s, sid, AtSelect) && s.streams[sid].notify in s.closed
    case WakeKill(sid) => At(s, sid, AtSelect) && s.streams[sid].kill in s.closed
    case ReadCode(sid) => At(s, sid, AtReadCode)
  }

  function Replaced<S>(c: Cell<S>, v: Option<S>, next: Chan): Cell<S> {
    Cell(v, next, c.log + [v], c.chans + [next])
  }

  function NewStream<S>(t: Topic): Stream<S> {
    Stream(t, AtCapture, 0, 0, None, [], [], [], 0, 0)
  }

  function Captured<S>(s: Sys<S>, st: Stream<S>): Stream<S> {
    var c := CellOf(s, st.topic);
    st.(pc := AtSnapshot, notify := c.notify, kill := s.kill,
        caps := st.caps + [Version(c)], capKill := |s.killLog|)
  }

  function Snapped<S>(s: Sys<S>, st: Stream<S>): Stream<S> {
    var c := CellOf(s, st.topic);
    st.(pc := AtSend, got := c.value, snaps := st.snaps + [Version(c)])
  }

  /** `send` writes nothing when there is no state yet; an error from it ends the stream. */
  function Sent<S>(st: Stream<S>, ok: bool): Stream<S> {
    if !ok then st.(pc := Ended(SendFailed))
    else if st.got.None? || |st.snaps| == 0 then st.(pc := AtSelect)
    else st.(pc := AtSelect, sent := st.sent + [|st.snaps| - 1])
  }

  /** The next state of the stream that takes the step. */
  function StreamStep<S>(s: Sys<S>, a: Action<S>): Stream<S>
    requires Enabled(s, a) && !a.Set? && !a.CloseStreams?
  {
    if a.Open? then NewStream(a.of) else
    var st := s.streams[a.sid];
    match a
    case Capture(_) => Captured(s, st)
    case Snapshot(_) => Snapped(s, st)
    case Send(_, ok) => Sent(st, ok)
    case WakeCtx(_) => st.(pc := Ended(ClientGone))
    case WakeNotify(_) => st.(pc := AtCapture)
    case WakeKill(_) => st.(pc := AtReadCode)
    case ReadCode(_) => st.(pc := Ended(Killed(s.killCode)), endKill := |s.killLog|)
  }

  function Step<S>(s: Sys<S>, a: Action<S>): Sys<S>
    requires Enabled(s, a)
  {
    match a
    case Set(X509, v) =>
      s.(x509 := Replaced(s.x509, v, s.next), closed := s.closed + {s.x509.notify}, next := s.next + 1)
    case Set(Jwt, v) =>
      s.(jwt := Replaced(s.jwt, v, s.next), closed := s.closed + {s.jwt.notify}, next := s.next + 1)
    case CloseStreams(code) =>
      s.(kill := s.next, killCode := code, killLog := s.killLog + [code],
         killChans := s.killChans + [s.next], closed := s.closed + {s.kill}, next := s.next + 1)
    case _ => s.(streams := s.streams[a.sid := StreamStep(s, a)])
  }

  /** The state after a whole interleaving, or None if some step of it cannot be taken. */
  function Exec<S>(s: Sys<S>, acts: seq<Action<S>>): Option<Sys<S>>
    decreases |acts|
  {
    if |acts| == 0 then Some(s)
    else if Enabled(s, acts[0]) then Exec(Step(s, acts[0]), acts[1..])
    else None
  }

  ghost predicate Reaches<S(!new)>(acts: seq<Action<S>>, s: Sys<S>) {
    Exec(Init(), acts) == Some(s)
  }

  lemma {:induction false} ExecAppend<S>(s: Sys<S>, a: seq<Action<S>>, b: seq<Action<S>>)
    requires Exec(s, a).Some?
    ensures Exec(s, a + b) == Exec(Exec(s, a).value, b)
    decreases |a|
  {
    if |a| == 0 {
      assert a + b == b;
    } else {
      assert (a + b)[0] == a[0] && (a + b)[1..] == a[1..] + b;
      ExecAppend(Step(s, a[0]), a[1..], b);
    }
  }

  // ---------------------------------------------------------------------------------------------
  // The inductive invariant

  /** The channels one field has held: only the last is open. */
  ghost predicate ChansInv(chans: seq<Chan>, current: Chan, closed: set<Chan>, next: nat) {
    && |chans| > 0 && chans[|chans| - 1] == current
    && (forall i | 0 <= i < |chans| :: chans[i] < next)
    && (forall i, j | 0 <= i < j < |chans| :: chans[i] != chans[j])
    && (forall i | 0 <= i < |chans| :: chans[i] in closed <==> i < |chans| - 1)
  }

  ghost predicate Apart(a: seq<Chan>, b: seq<Chan>) {
    && (forall i, j | 0 <= i < |a| && 0 <= j < |b| :: a[i] != b[j])
    && (forall i, j | 0 <= i < |b| && 0 <= j < |a| :: b[i] != a[j])
  }

  ghost predicate CellInv<S>(c: Cell<S>, closed: set<Chan>, next: nat) {
    && ChansInv(c.chans, c.notify, closed, next)
    && |c.log| == |c.chans|
    && c.log[|c.log| - 1] == c.value
  }

  /** e_i <= s_i <= e_{i+1}, with the captured epochs strictly increasing. */
  ghost predicate Interleaved(caps: seq<nat>, snaps: seq<nat>, version: nat) {
    && |snaps| <= |caps|
    && (forall i | 0 <= i < |caps| :: caps[i] <= version)
    && (forall i, j | 0 <= i < j < |caps| :: caps[i] < caps[j])
    && (forall i | 0 <= i < |snaps| :: caps[i] <= snaps[i] <= version)
    && (forall i, j | 0 <= i < |snaps| && i < j < |caps| :: snaps[i] <= caps[j])
  }

  /** In order, exactly the iterations below `done` whose snapshot was not nil. */
  function NotNil<S>(log: seq<Option<S>>, snaps: seq<nat>, done: nat): seq<nat> {
    if done == 0 || done > |snaps| then []
    else
      NotNil(log, snaps, done - 1)
      + if snaps[done - 1] < |log| && log[snaps[done - 1]].Some? then [done - 1] else []
  }

  ghost predicate SentInv<S>(log: seq<Option<S>>, snaps: seq<nat>, sent: seq<nat>, done: nat) {
    && done <= |snaps|
    && (forall i | 0 <= i < |snaps| :: snaps[i] < |log|)
    && sent == NotNil(log, snaps, done)
  }

  ghost predicate GotLast<S>(c: Cell<S>, st: Stream<S>) {
    && |st.snaps| > 0 && st.snaps[|st.snaps| - 1] < |c.log|
    && st.got == c.log[st.snaps[|st.snaps| - 1]]
  }

  ghost predicate PcInv<S>(s: Sys<S>, st: Stream<S>) {
    var c := CellOf(s, st.topic);
    match st.pc
    case AtCapture =>
      && |st.caps| == |st.snaps|
      && (|st.caps| > 0 ==> st.caps[|st.caps| - 1] < Version(c))
    case AtSnapshot => |st.caps| == |st.snaps| + 1
    case AtSend => |st.caps| == |st.snaps| && GotLast(c, st)
    case AtSelect => |st.caps| == |st.snaps| && GotLast(c, st)
    case AtReadCode => |st.caps| == |st.snaps| > 0 && st.capKill < |s.killLog|
    case Ended(Killed(code)) =>
      && |st.caps| == |st.snaps| > 0
      && st.capKill < st.endKill <= |s.killLog| && code == s.killLog[st.endKill - 1]
    case Ended(_) => |st.caps| == |st.snaps| > 0
  }

  /** The iterations whose send step has completed. */
  function Completed<S>(st: Stream<S>): nat {
    if (st.pc.AtSend? || st.pc == Ended(SendFailed)) && |st.snaps| > 0 then |st.snaps| - 1 else |st.snaps|
  }

  ghost predicate StreamInv<S>(s: Sys<S>, st: Stream<S>) {
    var c := CellOf(s, st.topic);
    && Interleaved(st.caps, st.snaps, Version(c))
    && SentInv(c.log, st.snaps, st.sent, Completed(st))
    && PcInv(s, st)
    && (|st.caps| > 0 ==>
          && st.caps[|st.caps| - 1] < |c.chans| && st.notify == c.chans[st.caps[|st.caps| - 1]]
          && st.capKill < |s.killChans| && st.kill == s.killChans[st.capKill])
  }

  ghost predicate SharedInv<S>(s: Sys<S>) {
    && CellInv(s.x509, s.closed, s.next)
    && CellInv(s.jwt, s.closed, s.next)
    && ChansInv(s.killChans, s.kill, s.closed, s.next)
    && Apart(s.x509.chans, s.jwt.chans) && Apart(s.x509.chans, s.killChans) && Apart(s.jwt.chans, s.killChans)
    && (forall c | c in s.closed :: c < s.next)
    && |s.killChans| == |s.killLog| + 1
    && s.killCode == (if |s.killLog| == 0 then OK else s.killLog[|s.killLog| - 1])
  }

  ghost predicate Inv<S>(s: Sys<S>) {
    && SharedInv(s)
    && (forall sid | sid in s.streams :: StreamInv(s, s.streams[sid]))
  }

  lemma InitInv<S>()
    ensures Inv(Init<S>())
  {
  }

  /** Closing the current channel and replacing it by a new one. */
  lemma ReplaceChan(chans: seq<Chan>, current: Chan, closed: set<Chan>, next: nat)
    requires ChansInv(chans, current, closed, next) && next !in closed
    ensures ChansInv(chans + [next], next, closed + {current}, next + 1)
  {
    var chans' := chans + [next];
    forall i | 0 <= i < |chans'| ensures chans'[i] in closed + {current} <==> i < |chans'| - 1 {
      if i < |chans| - 1 {
        assert chans'[i] == chans[i];
      }
    }
  }

  /** The channels of another field are not affected, nor confused with the new one. */
  lemma KeepChans(chans: seq<Chan>, current: Chan, others: seq<Chan>, other: Chan, closed: set<Chan>, next: nat)
    requires ChansInv(chans, current, closed, next) && ChansInv(others, other, closed, next)
    requires Apart(chans, others)
    ensures ChansInv(chans, current, closed + {other}, next + 1)
    ensures Apart(chans, others + [next]) && Apart(others + [next], chans)
  {
    forall i | 0 <= i < |chans| ensures chans[i] in closed + {other} <==> i < |chans| - 1 {
      assert chans[i] != others[|others| - 1];
    }
  }

  lemma SetX509Shared<S>(s: Sys<S>, v: Option<S>)
    requires SharedInv(s)
    ensures SharedInv(Step(s, Set(X509, v)))
  {
    ReplaceChan(s.x509.chans, s.x509.notify, s.closed, s.next);
    KeepChans(s.jwt.chans, s.jwt.notify, s.x509.chans, s.x509.notify, s.closed, s.next);
    KeepChans(s.killChans, s.kill, s.x509.chans, s.x509.notify, s.closed, s.next);
    var s' := Step(s, Set(X509, v));
    assert CellInv(s'.x509, s'.closed, s'.next) && CellInv(s'.jwt, s'.closed, s'.next);
  }

  lemma SetJwtShared<S>(s: Sys<S>, v: Option<S>)
    requires SharedInv(s)
    ensures SharedInv(Step(s, Set(Jwt, v)))
  {
    ReplaceChan(s.jwt.chans, s.jwt.notify, s.closed, s.next);
    KeepChans(s.x509.chans, s.x509.notify, s.jwt.chans, s.jwt.notify, s.closed, s.next);
    KeepChans(s.killChans, s.kill, s.jwt.chans, s.jwt.notify, s.closed, s.next);
  }

  lemma CloseShared<S>(s: Sys<S>, code: Code)
    requires SharedInv(s)
    ensures SharedInv(Step(s, CloseStreams(code)))
  {
    ReplaceChan(s.killChans, s.kill, s.closed, s.next);
    KeepChans(s.x509.chans, s.x509.notify, s.killChans, s.kill, s.closed, s.next);
    KeepChans(s.jwt.chans, s.jwt.notify, s.killChans, s.kill, s.closed, s.next);
  }

  lemma {:induction false} NotNilStays<S>(log: seq<Option<S>>, snaps: seq<nat>, log': seq<Option<S>>, snaps': seq<nat>, done: nat)
    requires log <= log' && snaps <= snaps' && done <= |snaps|
    requires forall i | 0 <= i < |snaps| :: snaps[i] < |log|
    ensures NotNil(log', snaps', done) == NotNil(log, snaps, done)
  {
    if done > 0 {
      NotNilStays(log, snaps, log', snaps', done - 1);
    }
  }

  /** What holds of a stream survives the growth of all histories. */
  lemma HistoriesGrow<S>(s: Sys<S>, s': Sys<S>, st: Stream<S>)
    requires StreamInv(s, st) && 0 < |CellOf(s, st.topic).log|
    requires CellOf(s, st.topic).log <= CellOf(s', st.topic).log
    requires CellOf(s, st.topic).chans <= CellOf(s', st.topic).chans
    requires s.killLog <= s'.killLog && s.killChans <= s'.killChans
    ensures StreamInv(s', st)
  {
    NotNilStays(CellOf(s, st.topic).log, st.snaps, CellOf(s', st.topic).log, st.snaps, Completed(st));
  }

  /** A write leaves every stream's invariant in place: versions only grow and logs only extend. */
  lemma WriteKeepsStream<S>(s: Sys<S>, a: Action<S>, st: Stream<S>)
    requires SharedInv(s) && StreamInv(s, st) && (a.Set? || a.CloseStreams?)
    ensures StreamInv(Step(s, a), st)
  {
    HistoriesGrow(s, Step(s, a), st);
  }

  lemma CaptureInterleaves(caps: seq<nat>, snaps: seq<nat>, version: nat)
    requires Interleaved(caps, snaps, version) && |caps| == |snaps|
    requires |caps| > 0 ==> caps[|caps| - 1] < version
    ensures Interleaved(caps + [version], snaps, version)
  {
  }

  lemma CaptureStep<S>(s: Sys<S>, st: Stream<S>)
    requires SharedInv(s) && StreamInv(s, st) && st.pc.AtCapture?
    ensures StreamInv(s, Captured(s, st))
  {
    var c, st' := CellOf(s, st.topic), Captured(s, st);
    CaptureInterleaves(st.caps, st.snaps, Version(c));
    assert SentInv(c.log, st'.snaps, st'.sent, Completed(st'));
    assert PcInv(s, st');
  }

  lemma SnapshotStep<S>(s: Sys<S>, st: Stream<S>)
    requires SharedInv(s) && StreamInv(s, st) && st.pc.AtSnapshot?
    ensures StreamInv(s, Snapped(s, st))
  {
    var c, st' := CellOf(s, st.topic), Snapped(s, st);
    assert Interleaved(st.caps, st'.snaps, Version(c));
    NotNilStays(c.log, st.snaps, c.log, st'.snaps, |st.snaps|);
  }

  /** Steps other than capture and snapshot leave the rounds as they are. */
  lemma SameRounds<S>(s: Sys<S>, st: Stream<S>, st': Stream<S>)
    requires StreamInv(s, st) && PcInv(s, st')
    requires st' == st.(pc := st'.pc, sent := st'.sent, endKill := st'.endKill)
    requires SentInv(CellOf(s, st.topic).log, st.snaps, st'.sent, Completed(st'))
    ensures StreamInv(s, st')
  {
  }

  lemma SendStep<S>(s: Sys<S>, st: Stream<S>, ok: bool)
    requires StreamInv(s, st) && st.pc.AtSend?
    ensures StreamInv(s, Sent(st, ok))
  {
    SameRounds(s, st, Sent(st, ok));
  }

  /** A closed channel is not the current one, so its epoch lies strictly below the version. */
  lemma WakeStep<S>(s: Sys<S>, st: Stream<S>)
    requires SharedInv(s) && StreamInv(s, st) && st.pc.AtSelect?
    ensures st.notify in s.closed <==> st.caps[|st.caps| - 1] < Version(CellOf(s, st.topic))
    ensures st.kill in s.closed <==> st.capKill < |s.killLog|
  {
    assert CellOf(s, st.topic).chans[st.caps[|st.caps| - 1]] == st.notify;
    assert s.killChans[st.capKill] == st.kill;
  }

  lemma LeaveSelect<S>(s: Sys<S>, st: Stream<S>)
    requires StreamInv(s, st) && st.pc.AtSelect?
    ensures StreamInv(s, st.(pc := Ended(ClientGone)))
    ensures st.caps[|st.caps| - 1] < Version(CellOf(s, st.topic)) ==> StreamInv(s, st.(pc := AtCapture))
    ensures st.capKill < |s.killLog| ==> StreamInv(s, st.(pc := AtReadCode))
  {
    SameRounds(s, st, st.(pc := Ended(ClientGone)));
    if st.caps[|st.caps| - 1] < Version(CellOf(s, st.topic)) {
      SameRounds(s, st, st.(pc := AtCapture));
    }
    if st.capKill < |s.killLog| {
      SameRounds(s, st, st.(pc := AtReadCode));
    }
  }

  lemma ReadCodeStep<S>(s: Sys<S>, st: Stream<S>)
    requires SharedInv(s) && StreamInv(s, st) && st.pc.AtReadCode?
    ensures StreamInv(s, st.(pc := Ended(Killed(s.killCode)), endKill := |s.killLog|))
  {
  }

  lemma OpenStep<S>(s: Sys<S>, t: Topic)
    requires SharedInv(s)
    ensures StreamInv(s, NewStream(t))
  {
  }

  lemma WakeOwn<S>(s: Sys<S>, a: Action<S>)
    requires SharedInv(s) && Enabled(s, a) && (a.WakeCtx? || a.WakeNotify? || a.WakeKill?)
    requires StreamInv(s, s.streams[a.sid])
    ensures StreamInv(s, StreamStep(s, a))
  {
    WakeStep(s, s.streams[a.sid]);
    LeaveSelect(s, s.streams[a.sid]);
  }

  lemma OwnStep<S>(s: Sys<S>, a: Action<S>)
    requires SharedInv(s) && Enabled(s, a) && !a.Set? && !a.CloseStreams?
    requires a.Open? || StreamInv(s, s.streams[a.sid])
    ensures StreamInv(s, StreamStep(s, a))
  {
    match a
    case Open(_, t) => OpenStep(s, t);
    case Capture(sid) => CaptureStep(s, s.streams[sid]);
    case Snapshot(sid) => SnapshotStep(s, s.streams[sid]);
    case Send(sid, ok) => SendStep(s, s.streams[sid], ok);
    case WakeCtx(sid) => WakeOwn(s, a);
    case WakeNotify(sid) => WakeOwn(s, a);
    case WakeKill(sid) => WakeOwn(s, a);
    case ReadCode(sid) => ReadCodeStep(s, s.streams[sid]);
  }

  lemma WriteInv<S>(s: Sys<S>, a: Action<S>)
    requires Inv(s) && (a.Set? || a.CloseStreams?)
    ensures Inv(Step(s, a))
  {
    match a {
      case Set(X509, v) => SetX509Shared(s, v);
      case Set(Jwt, v) => SetJwtShared(s, v);
      case CloseStreams(code) => CloseShared(s, code);
    }
    var s' := Step(s, a);
    forall sid | sid in s'.streams ensures StreamInv(s', s'.streams[sid]) {
      WriteKeepsStream(s, a, s.streams[sid]);
    }
  }

  lemma StreamFrame<S>(s: Sys<S>, streams: map<Sid, Stream<S>>, st: Stream<S>)
    requires StreamInv(s, st)
    ensures StreamInv(s.(streams := streams), st)
  {
  }

  lemma OwnInv<S>(s: Sys<S>, sid: Sid, st: Stream<S>)
    requires Inv(s) && StreamInv(s, st)
    ensures Inv(s.(streams := s.streams[sid := st]))
  {
    var streams := s.streams[sid := st];
    forall x | x in streams ensures StreamInv(s.(streams := streams), streams[x]) {
      StreamFrame(s, streams, streams[x]);
    }
  }

  lemma StepInv<S>(s: Sys<S>, a: Action<S>)
    requires Inv(s) && Enabled(s, a)
    ensures Inv(Step(s, a))
  {
    if a.Set? || a.CloseStreams? {
      WriteInv(s, a);
    } else {
      OwnStep(s, a);
      OwnInv(s, a.sid, StreamStep(s, a));
    }
  }

  lemma {:induction false} ExecInv<S>(s: Sys<S>, acts: seq<Action<S>>)
    requires Inv(s) && Exec(s, acts).Some?
    ensures Inv(Exec(s, acts).value)
    decreases |acts|
  {
    if |acts| > 0 {
      StepInv(s, acts[0]);
      ExecInv(Step(s, acts[0]), acts[1..]);
    }
  }

  lemma ReachableInv<S(!new)>(acts: seq<Action<S>>, s: Sys<S>)
    requires Reaches(acts, s)
    ensures Inv(s)
  {
    InitInv<S>();
    ExecInv(Init(), acts);
  }
}
