/**
 What every interleaving of writers and streams guarantees. Runs are lists of actions; `Pushed` and
 `Codes` read the writes straight off the list, without looking at any state.
 */
module StreamTheorems {
  import opened Wrappers
  import opened StreamProtocol

  /** The values given to Set for one cell, in order. */
  function Pushed<S>(acts: seq<Action<S>>, t: Topic): seq<Option<S>> {
    if |acts| == 0 then [] else PushedBy(acts[0], t) + Pushed(acts[1..], t)
  }

  function PushedBy<S>(a: Action<S>, t: Topic): seq<Option<S>> {
    if a.Set? && a.topic == t then [a.state] else []
  }

  /** The codes given to CloseStreams, in order. */
  function Codes<S>(acts: seq<Action<S>>): seq<Code> {
    if |acts| == 0 then [] else CodesBy(acts[0]) + Codes(acts[1..])
  }

  function CodesBy<S>(a: Action<S>): seq<Code> {
    if a.CloseStreams? then [a.code] else []
  }

  ghost predicate NoSet<S>(acts: seq<Action<S>>, t: Topic) {
    forall i | 0 <= i < |acts| :: !(acts[i].Set? && acts[i].topic == t)
  }

  ghost predicate NoCapture<S>(acts: seq<Action<S>>, sid: Sid) {
    forall i | 0 <= i < |acts| :: !(acts[i].Capture? && acts[i].sid == sid)
  }

  lemma {:induction false} HistoryIsPushed<S>(s: Sys<S>, acts: seq<Action<S>>, t: Topic)
    requires Exec(s, acts).Some?
    ensures CellOf(Exec(s, acts).value, t).log == CellOf(s, t).log + Pushed(acts, t)
    ensures Exec(s, acts).value.killLog == s.killLog + Codes(acts)
    decreases |acts|
  {
    if |acts| > 0 {
      var a, s1, rest := acts[0], Step(s, acts[0]), acts[1..];
      HistoryIsPushed(s1, rest, t);
      StepHistory(s, a, t);
      Regroup(CellOf(s, t).log, PushedBy(a, t), Pushed(rest, t));
      Regroup(s.killLog, CodesBy(a), Codes(rest));
    }
  }

  lemma StepHistory<S>(s: Sys<S>, a: Action<S>, t: Topic)
    requires Enabled(s, a)
    ensures CellOf(Step(s, a), t).log == CellOf(s, t).log + PushedBy(a, t)
    ensures Step(s, a).killLog == s.killLog + CodesBy(a)
  {
  }

  lemma Regroup<T>(a: seq<T>, b: seq<T>, c: seq<T>)
    ensures a + b + c == a + (b + c)
  {
  }

  /** What a stream did never changes, and it only ever reads its own topic. */
  lemma {:induction false} StreamGrows<S>(s: Sys<S>, acts: seq<Action<S>>, sid: Sid)
    requires Exec(s, acts).Some? && sid in s.streams
    ensures sid in Exec(s, acts).value.streams
    ensures var st, st' := s.streams[sid], Exec(s, acts).value.streams[sid];
            && st'.topic == st.topic
            && st.caps <= st'.caps && st.snaps <= st'.snaps && st.sent <= st'.sent
            && (NoCapture(acts, sid) ==> st'.caps == st.caps && st'.capKill == st.capKill)
    decreases |acts|
  {
    if |acts| > 0 {
      var s1 := Step(s, acts[0]);
      StreamGrows(s1, acts[1..], sid);
      if NoCapture(acts, sid) {
        assert !(acts[0].Capture? && acts[0].sid == sid);
        assert NoCapture(acts[1..], sid);
      }
    }
  }

  /** On the list alone: the stream takes a snapshot between the v-th Set of the cell and the next. */
  ghost predicate Samples<S(!new)>(acts: seq<Action<S>>, sid: Sid, t: Topic, v: int) {
    exists n :: SamplesAt(acts, sid, t, v, n)
  }

  ghost predicate SamplesAt<S>(acts: seq<Action<S>>, sid: Sid, t: Topic, v: int, n: nat) {
    n < |acts| && acts[n] == Snapshot(sid) && |Pushed(acts[..n], t)| == v
  }

  function SnapsOf<S>(s: Sys<S>, sid: Sid): seq<nat> {
    if sid in s.streams then s.streams[sid].snaps else []
  }

  lemma SamplesCons<S(!new)>(acts: seq<Action<S>>, sid: Sid, t: Topic, v: int)
    requires |acts| > 0
    ensures Samples(acts, sid, t, v) <==>
              (acts[0] == Snapshot(sid) && v == 0) || Samples(acts[1..], sid, t, v - |PushedBy(acts[0], t)|)
  {
    if Samples(acts, sid, t, v) {
      var n: nat :| SamplesAt(acts, sid, t, v, n);
      if n > 0 {
        assert acts[..n][1..] == acts[1..][..n - 1];
        assert SamplesAt(acts[1..], sid, t, v - |PushedBy(acts[0], t)|, n - 1);
      }
    }
    if Samples(acts[1..], sid, t, v - |PushedBy(acts[0], t)|) {
      var m: nat :| SamplesAt(acts[1..], sid, t, v - |PushedBy(acts[0], t)|, m);
      assert acts[..m + 1][1..] == acts[1..][..m];
      assert SamplesAt(acts, sid, t, v, m + 1);
    }
    if acts[0] == Snapshot(sid) && v == 0 {
      assert SamplesAt(acts, sid, t, v, 0);
    }
  }

  lemma SnapshotAt<S>(s: Sys<S>, a: Action<S>, sid: Sid, v: int)
    requires Enabled(s, a) && sid in Step(s, a).streams
    ensures var st := Step(s, a).streams[sid];
            v in SnapsOf(Step(s, a), sid) <==>
              v in SnapsOf(s, sid) || (a == Snapshot(sid) && v == Version(CellOf(s, st.topic)))
  {
  }

  /** The versions in `snaps` are those the list of actions tells. */
  lemma {:induction false} SnapsAreSamples<S(!new)>(s: Sys<S>, acts: seq<Action<S>>, sid: Sid, t: Topic, v: int)
    requires Exec(s, acts).Some? && sid in Exec(s, acts).value.streams
    requires Exec(s, acts).value.streams[sid].topic == t && |CellOf(s, t).log| > 0
    ensures v in SnapsOf(Exec(s, acts).value, sid) <==>
              v in SnapsOf(s, sid) || Samples(acts, sid, t, v - Version(CellOf(s, t)))
    decreases |acts|
  {
    if |acts| > 0 {
      var a, s1 := acts[0], Step(s, acts[0]);
      StepHistory(s, a, t);
      SnapsAreSamples(s1, acts[1..], sid, t, v);
      SamplesCons(acts, sid, t, v - Version(CellOf(s, t)));
      if sid in s1.streams {
        StreamGrows(s1, acts[1..], sid);
        SnapshotAt(s, a, sid, v);
      }
    }
  }

  /** The k-th message a stream has sent. */
  function Delivered<S>(c: Cell<S>, st: Stream<S>, k: nat): Option<S> {
    if k < |st.sent| && st.sent[k] < |st.snaps| && st.snaps[st.sent[k]] < |c.log|
    then c.log[st.snaps[st.sent[k]]]
    else None
  }

  lemma ReachableStream<S(!new)>(acts: seq<Action<S>>, s: Sys<S>, sid: Sid)
    requires Reaches(acts, s) && sid in s.streams
    ensures SharedInv(s) && StreamInv(s, s.streams[sid])
    ensures CellOf(s, s.streams[sid].topic).log == [None] + Pushed(acts, s.streams[sid].topic)
  {
    ReachableInv(acts, s);
    HistoryIsPushed(Init(), acts, s.streams[sid].topic);
  }

  lemma {:induction false} NotNilLists<S>(log: seq<Option<S>>, snaps: seq<nat>, sent: seq<nat>, done: nat)
    requires SentInv(log, snaps, sent, done)
    ensures forall k | 0 <= k < |sent| :: sent[k] < done && log[snaps[sent[k]]].Some?
    ensures forall k, l | 0 <= k < l < |sent| :: sent[k] < sent[l]
    decreases done
  {
    if done > 0 {
      var init := NotNil(log, snaps, done - 1);
      NotNilLists(log, snaps, init, done - 1);
      forall k | 0 <= k < |sent| ensures k < |init| ==> sent[k] == init[k] {
      }
    }
  }

  lemma {:induction false} NotNilHas<S>(log: seq<Option<S>>, snaps: seq<nat>, done: nat, i: nat) returns (k: nat)
    requires i < done <= |snaps| && snaps[i] < |log| && log[snaps[i]].Some?
    ensures k < |NotNil(log, snaps, done)| && NotNil(log, snaps, done)[k] == i
  {
    if i == done - 1 {
      k := |NotNil(log, snaps, done)| - 1;
    } else {
      k := NotNilHas(log, snaps, done - 1, i);
    }
  }

  lemma ParkedIsCurrent<S>(s: Sys<S>, st: Stream<S>)
    requires SharedInv(s) && StreamInv(s, st) && st.pc.AtSelect? && st.notify !in s.closed
    ensures var c := CellOf(s, st.topic);
            && |st.snaps| > 0 && st.snaps[|st.snaps| - 1] == Version(c)
            && (c.value.Some? ==> |st.sent| > 0 && Delivered(c, st, |st.sent| - 1) == c.value)
  {
  }

  /**
   No lost update. A stream waiting in select whose notify channel is still open has taken its last
   snapshot at exactly the current version, and if that is a state, sent it last. Its channel is
   closed exactly when a Set came after its last capture.
   */
  lemma NoLostUpdate<S(!new)>(acts: seq<Action<S>>, s: Sys<S>, sid: Sid)
    requires Reaches(acts, s) && At(s, sid, AtSelect)
    ensures var st, c := s.streams[sid], CellOf(s, s.streams[sid].topic);
            && |st.snaps| == |st.caps| > 0
            && (st.notify in s.closed <==> st.caps[|st.caps| - 1] < |Pushed(acts, st.topic)|)
            && (st.notify !in s.closed ==>
                  && st.snaps[|st.snaps| - 1] == |Pushed(acts, st.topic)|
                  && (c.value.Some? ==> |st.sent| > 0 && Delivered(c, st, |st.sent| - 1) == c.value))
  {
    var st := s.streams[sid];
    ReachableStream(acts, s, sid);
    WakeStep(s, st);
    if st.notify !in s.closed {
      ParkedIsCurrent(s, st);
    }
  }

  lemma SnapshotsInterleave(caps: seq<nat>, snaps: seq<nat>, version: nat, i: nat, j: nat)
    requires Interleaved(caps, snaps, version) && i < j < |snaps|
    ensures snaps[i] <= snaps[j]
    ensures i + 1 < j ==> snaps[i] < snaps[j]
  {
    assert snaps[i] <= caps[i + 1] <= caps[j] <= snaps[j];
    assert i + 1 < j ==> caps[i + 1] < caps[j];
  }

  /** Each send is a value that was pushed, and sends follow the order of the pushes. */
  lemma SendsAreOrdered<S(!new)>(acts: seq<Action<S>>, s: Sys<S>, sid: Sid, k: nat)
    requires Reaches(acts, s) && sid in s.streams && k < |s.streams[sid].sent|
    ensures var st := s.streams[sid];
            var pushed := Pushed(acts, st.topic);
            && st.sent[k] < |st.snaps| && 1 <= st.snaps[st.sent[k]] <= |pushed|
            && pushed[st.snaps[st.sent[k]] - 1] == Delivered(CellOf(s, st.topic), st, k)
            && pushed[st.snaps[st.sent[k]] - 1].Some?
    ensures var st := s.streams[sid];
            forall l | k < l < |st.sent| ::
              && st.sent[l] < |st.snaps|
              && st.snaps[st.sent[k]] <= st.snaps[st.sent[l]]
              && (k + 1 < l ==> st.snaps[st.sent[k]] < st.snaps[st.sent[l]])
  {
    var st := s.streams[sid];
    ReachableStream(acts, s, sid);
    NotNilLists(CellOf(s, st.topic).log, st.snaps, st.sent, Completed(st));
    var version := Version(CellOf(s, st.topic));
    forall l | k < l < |st.sent|
      ensures st.sent[l] < |st.snaps|
      ensures st.snaps[st.sent[k]] <= st.snaps[st.sent[l]]
      ensures k + 1 < l ==> st.snaps[st.sent[k]] < st.snaps[st.sent[l]]
    {
      SnapshotsInterleave(st.caps, st.snaps, version, st.sent[k], st.sent[l]);
      assert k + 1 < l ==> st.sent[k] < st.sent[k + 1] < st.sent[l];
    }
  }

  /** No pushed version is sent more than twice. */
  lemma NoVersionSentThrice<S(!new)>(acts: seq<Action<S>>, s: Sys<S>, sid: Sid, k: nat, l: nat, m: nat)
    requires Reaches(acts, s) && sid in s.streams && k < l < m < |s.streams[sid].sent|
    ensures var st := s.streams[sid];
            && st.sent[k] < |st.snaps| && st.sent[m] < |st.snaps|
            && st.snaps[st.sent[k]] != st.snaps[st.sent[m]]
  {
    SendsAreOrdered(acts, s, sid, k);
  }

  lemma {:induction false} IncreasingIsBounded(a: seq<nat>, low: int, top: int)
    requires forall i | 0 <= i < |a| :: low <= a[i] <= top
    requires forall i, j | 0 <= i < j < |a| :: a[i] < a[j]
    ensures |a| > 0 ==> |a| <= 1 + top - low
  {
    if |a| > 1 {
      var last: int := a[|a| - 1];
      IncreasingIsBounded(a[..|a| - 1], low, last - 1);
    }
  }

  lemma SendsAtMostCaptures<S>(s: Sys<S>, st: Stream<S>)
    requires StreamInv(s, st) && |st.caps| > 0
    ensures |st.sent| <= 1 + Version(CellOf(s, st.topic)) - st.caps[0]
  {
    if |st.sent| > 0 {
      NotNilLists(CellOf(s, st.topic).log, st.snaps, st.sent, Completed(st));
      IncreasingIsBounded(st.sent, 0, |st.snaps| - 1);
    }
    IncreasingIsBounded(st.caps, st.caps[0], Version(CellOf(s, st.topic)));
  }

  /** A run that goes on after a capture. */
  lemma AfterCapture<S(!new)>(before: seq<Action<S>>, s0: Sys<S>, sid: Sid, after: seq<Action<S>>, s: Sys<S>)
    requires Reaches(before, s0) && At(s0, sid, AtCapture) && Exec(Step(s0, Capture(sid)), after) == Some(s)
    ensures sid in s.streams && SharedInv(s) && StreamInv(s, s.streams[sid])
    ensures s.streams[sid].topic == s0.streams[sid].topic
    ensures |s.streams[sid].caps| > |s0.streams[sid].caps|
    ensures s.streams[sid].caps[|s0.streams[sid].caps|] == Version(CellOf(s0, s0.streams[sid].topic))
    ensures NoCapture(after, sid) ==> s.streams[sid].capKill == |s0.killLog|
    ensures CellOf(s, s0.streams[sid].topic).log ==
              CellOf(s0, s0.streams[sid].topic).log + Pushed(after, s0.streams[sid].topic)
    ensures |CellOf(s0, s0.streams[sid].topic).log| > 0
    ensures s.killLog == s0.killLog + Codes(after)
  {
    var s1 := Step(s0, Capture(sid));
    ReachableInv(before, s0);
    StepInv(s0, Capture(sid));
    ExecInv(s1, after);
    StreamGrows(s1, after, sid);
    HistoryIsPushed(s1, after, s0.streams[sid].topic);
    assert s1.streams[sid] == Captured(s0, s0.streams[sid]);
  }

  /** A stream sends at most once more than there were Sets since its first capture. */
  lemma SendsAreBounded<S(!new)>(before: seq<Action<S>>, s0: Sys<S>, sid: Sid, after: seq<Action<S>>, s: Sys<S>)
    requires Reaches(before, s0) && At(s0, sid, AtCapture) && |s0.streams[sid].caps| == 0
    requires Exec(Step(s0, Capture(sid)), after) == Some(s)
    ensures sid in s.streams
    ensures |s.streams[sid].sent| <= 1 + |Pushed(after, s0.streams[sid].topic)|
  {
    AfterCapture(before, s0, sid, after, s);
    SendsAtMostCaptures(s, s.streams[sid]);
  }

  lemma {:induction false} EndedStays<S>(s: Sys<S>, acts: seq<Action<S>>, sid: Sid)
    requires Exec(s, acts).Some? && sid in s.streams && s.streams[sid].pc.Ended?
    ensures sid in Exec(s, acts).value.streams && Exec(s, acts).value.streams[sid] == s.streams[sid]
    decreases |acts|
  {
    if |acts| > 0 {
      EndedStays(Step(s, acts[0]), acts[1..], sid);
    }
  }

  /** Where a stream that ends by kill reads its code. */
  lemma {:induction false} CodeIsRead<S>(s: Sys<S>, acts: seq<Action<S>>, sid: Sid, code: Code) returns (i: nat, u: Sys<S>)
    requires Exec(s, acts).Some? && sid in s.streams && !s.streams[sid].pc.Ended?
    requires At(Exec(s, acts).value, sid, Ended(Killed(code)))
    ensures i < |acts| && acts[i] == ReadCode(sid) && Exec(s, acts[..i]) == Some(u)
    ensures At(u, sid, AtReadCode) && u.killCode == code
    decreases |acts|
  {
    var s1 := Step(s, acts[0]);
    if s1.streams[sid].pc.Ended? {
      EndedStays(s1, acts[1..], sid);
      i, u := 0, s;
    } else {
      var j;
      j, u := CodeIsRead(s1, acts[1..], sid, code);
      i := j + 1;
      assert acts[..i][1..] == acts[1..][..j];
    }
  }

  /**
   A stream killed after its last capture ends with the last code given to CloseStreams, of those
   since that capture, when it reads the code: not always the one of the call that woke it.
   */
  lemma KillCodeIsLastBeforeRead<S(!new)>(
      before: seq<Action<S>>, s0: Sys<S>, sid: Sid, after: seq<Action<S>>, s: Sys<S>, code: Code) returns (i: nat)
    requires Reaches(before, s0) && At(s0, sid, AtCapture) && Exec(Step(s0, Capture(sid)), after) == Some(s)
    requires NoCapture(after, sid) && At(s, sid, Ended(Killed(code)))
    ensures i < |after| && after[i] == ReadCode(sid)
    ensures var codes := Codes(after[..i]); |codes| > 0 && code == codes[|codes| - 1]
    ensures |Codes(after)| == 1 ==> code == Codes(after)[0]
  {
    var u;
    i, u := CodeIsRead(Step(s0, Capture(sid)), after, sid, code);
    CodeIsLast(before, s0, sid, after[..i], u);
    CodesPrefix(after, i);
  }

  lemma CodeIsLast<S(!new)>(before: seq<Action<S>>, s0: Sys<S>, sid: Sid, after: seq<Action<S>>, u: Sys<S>)
    requires Reaches(before, s0) && At(s0, sid, AtCapture) && Exec(Step(s0, Capture(sid)), after) == Some(u)
    requires NoCapture(after, sid) && At(u, sid, AtReadCode)
    ensures |Codes(after)| > 0 && u.killCode == Codes(after)[|Codes(after)| - 1]
  {
    AfterCapture(before, s0, sid, after, u);
    assert PcInv(u, u.streams[sid]);
  }

  lemma {:induction false} CodesPrefix<S>(acts: seq<Action<S>>, i: nat)
    requires i <= |acts|
    ensures Codes(acts[..i]) <= Codes(acts)
  {
    if i > 0 {
      CodesPrefix(acts[1..], i - 1);
      assert acts[..i][1..] == acts[1..][..i - 1];
    }
  }

  /**
   A parked stream woken by CloseStreams(code) ends with the code of a later call, whenever that call
   lands between its waking and its reading of the code.
   */
  lemma LaterCodeWins<S(!new)>(acts: seq<Action<S>>, s: Sys<S>, sid: Sid, code: Code, later: Code)
    requires Reaches(acts, s) && At(s, sid, AtSelect)
    ensures var way := [CloseStreams(code), WakeKill(sid), CloseStreams(later), ReadCode(sid)];
            Exec(s, way).Some? && At(Exec(s, way).value, sid, Ended(Killed(later)))
  {
    var way := [CloseStreams(code), WakeKill(sid), CloseStreams(later), ReadCode(sid)];
    WakeFacts(acts, s, sid);
    var s1 := ExecAt(s, way, 0);
    var s2 := ExecAt(s1, way, 1);
    var s3 := ExecAt(s2, way, 2);
    var s4 := ExecAt(s3, way, 3);
    assert way[0..] == way;
  }

  lemma ExecAt<S>(s: Sys<S>, acts: seq<Action<S>>, i: nat) returns (s': Sys<S>)
    requires i < |acts| && Enabled(s, acts[i])
    ensures s' == Step(s, acts[i]) && Exec(s, acts[i..]) == Exec(s', acts[i + 1..])
  {
    s' := Step(s, acts[i]);
    assert acts[i..][1..] == acts[i + 1..];
  }

  // ---------------------------------------------------------------------------------------------
  // Catching up

  /** How many steps of its own a live stream is away from being parked. */
  function Distance<S>(s: Sys<S>, st: Stream<S>): nat {
    match st.pc
    case AtCapture => 3
    case AtSnapshot => if st.notify in s.closed then 6 else 2
    case AtSend => if st.notify in s.closed then 5 else 1
    case AtSelect => if st.notify in s.closed then 4 else 0
    case _ => 0
  }

  function OwnAction<S>(st: Stream<S>, sid: Sid): Action<S> {
    match st.pc
    case AtCapture => Capture(sid)
    case AtSnapshot => Snapshot(sid)
    case AtSend => Send(sid, true)
    case _ => WakeNotify(sid)
  }

  lemma CurrentNotifyIsOpen<S(!new)>(acts: seq<Action<S>>, s: Sys<S>, t: Topic)
    requires Reaches(acts, s)
    ensures CellOf(s, t).notify !in s.closed
  {
    ReachableInv(acts, s);
  }

  lemma WakeFacts<S(!new)>(acts: seq<Action<S>>, s: Sys<S>, sid: Sid)
    requires Reaches(acts, s) && At(s, sid, AtSelect)
    ensures s.streams[sid].kill == s.kill || s.streams[sid].kill in s.closed
  {
    ReachableStream(acts, s, sid);
  }

  lemma CurrentKillIsOpen<S(!new)>(acts: seq<Action<S>>, s: Sys<S>)
    requires Reaches(acts, s)
    ensures s.kill !in s.closed
  {
    ReachableInv(acts, s);
  }

  /**
   From every reachable state, steps of its own alone park a live stream on an open notify channel,
   where by NoLostUpdate it has sent the current state.
   */
  lemma {:induction false} CatchesUp<S(!new)>(acts: seq<Action<S>>, s: Sys<S>, sid: Sid) returns (own: seq<Action<S>>, t: Sys<S>)
    requires Reaches(acts, s) && sid in s.streams && Live(s.streams[sid])
    ensures Exec(s, own) == Some(t) && Reaches(acts + own, t)
    ensures |own| == Distance(s, s.streams[sid])
    ensures forall i | 0 <= i < |own| :: !own[i].Set? && !own[i].CloseStreams?
    ensures At(t, sid, AtSelect) && t.streams[sid].notify !in t.closed
    decreases Distance(s, s.streams[sid])
  {
    var st := s.streams[sid];
    if st.pc.AtSelect? && st.notify !in s.closed {
      own, t := [], s;
      assert acts + own == acts;
    } else {
      var a := OwnAction(st, sid);
      CurrentNotifyIsOpen(acts, s, st.topic);
      ReachesStep(acts, s, a);
      var rest;
      rest, t := CatchesUp(acts + [a], Step(s, a), sid);
      own := [a] + rest;
      ExecCons(s, a, rest);
      assert acts + own == acts + [a] + rest;
    }
  }

  // ---------------------------------------------------------------------------------------------
  // When CloseStreams is final

  /** In its loop and holding a captured pair of channels. */
  predicate Holding<S>(st: Stream<S>) {
    st.pc.AtSnapshot? || st.pc.AtSend? || st.pc.AtSelect?
  }

  predicate Live<S>(st: Stream<S>) {
    !st.pc.Ended? && !st.pc.AtReadCode?
  }

  /** Without any further Set on its cell, the stream can go round its loop again. */
  ghost predicate CanRecapture<S(!new)>(s: Sys<S>, sid: Sid)
    requires sid in s.streams
  {
    exists acts :: Recaptures(s, sid, acts)
  }

  ghost predicate Recaptures<S>(s: Sys<S>, sid: Sid, acts: seq<Action<S>>)
    requires sid in s.streams
  {
    && Exec(s, acts).Some? && NoSet(acts, s.streams[sid].topic)
    && sid in Exec(s, acts).value.streams
    && |Exec(s, acts).value.streams[sid].caps| > |s.streams[sid].caps|
  }

  ghost predicate Doomed<S>(s: Sys<S>, sid: Sid) {
    && sid in s.streams
    && var st := s.streams[sid];
       && (st.pc.AtReadCode? || st.pc.Ended?
           || (Holding(st) && st.notify !in s.closed))
  }

  lemma OpenNotifyIsCurrent<S>(s: Sys<S>, st: Stream<S>)
    requires SharedInv(s) && StreamInv(s, st) && |st.caps| > 0 && st.notify !in s.closed
    ensures st.notify == CellOf(s, st.topic).notify
    ensures st.notify != s.kill
    ensures st.notify != CellOf(s, if st.topic.X509? then Jwt else X509).notify
  {
    var c := CellOf(s, st.topic);
    var other := CellOf(s, if st.topic.X509? then Jwt else X509);
    assert st.caps[|st.caps| - 1] == |c.chans| - 1;
    assert c.chans[|c.chans| - 1] != s.killChans[|s.killChans| - 1];
    assert c.chans[|c.chans| - 1] != other.chans[|other.chans| - 1];
  }

  lemma DoomedApart<S>(s: Sys<S>, sid: Sid)
    requires Inv(s) && Doomed(s, sid) && Holding(s.streams[sid])
    ensures var st := s.streams[sid];
            && st.notify != s.kill
            && st.notify != CellOf(s, if st.topic.X509? then Jwt else X509).notify
  {
  }

  lemma DoomedStep<S>(s: Sys<S>, a: Action<S>, sid: Sid)
    requires Enabled(s, a) && Doomed(s, sid) && !(a.Set? && a.topic == s.streams[sid].topic)
    requires var st := s.streams[sid];
             Holding(st) ==>
               && st.notify != s.kill
               && st.notify != CellOf(s, if st.topic.X509? then Jwt else X509).notify
    ensures Doomed(Step(s, a), sid)
    ensures Step(s, a).streams[sid].topic == s.streams[sid].topic
    ensures Step(s, a).streams[sid].caps == s.streams[sid].caps
    ensures Step(s, a).streams[sid].kill == s.streams[sid].kill
    ensures s.closed <= Step(s, a).closed
  {
  }

  /**
   A stream that holds a closed kill channel while its notify channel is open can only terminate,
   as long as no Set on its cell intervenes: it never captures again, and in select the kill case
   is ready and the notify case is not.
   */
  lemma {:induction false} KillIsFinal<S(!new)>(
      before: seq<Action<S>>, s: Sys<S>, sid: Sid, acts: seq<Action<S>>, t: Sys<S>)
    requires Reaches(before, s) && Doomed(s, sid)
    requires NoSet(acts, s.streams[sid].topic) && Exec(s, acts) == Some(t)
    ensures Doomed(t, sid)
    ensures t.streams[sid].caps == s.streams[sid].caps
    ensures s.streams[sid].kill in s.closed && At(t, sid, AtSelect) ==>
              Enabled(t, WakeKill(sid)) && !Enabled(t, WakeNotify(sid))
    decreases |acts|
  {
    if |acts| > 0 {
      if Holding(s.streams[sid]) {
        ReachableApart(before, s, sid);
      }
      DoomedStep(s, acts[0], sid);
      ReachesStep(before, s, acts[0]);
      assert NoSet(acts[1..], s.streams[sid].topic);
      KillIsFinal(before + [acts[0]], Step(s, acts[0]), sid, acts[1..], t);
    }
  }

  /** How many steps of its own a stream whose kill channel is closed has left, once doomed. */
  function Rank<S>(st: Stream<S>): nat {
    match st.pc
    case AtCapture => 5
    case AtSnapshot => 4
    case AtSend => 3
    case AtSelect => 2
    case AtReadCode => 1
    case Ended(_) => 0
  }

  /** How many of the steps are the stream's own. */
  function OwnSteps<S>(acts: seq<Action<S>>, sid: Sid): nat {
    if |acts| == 0 then 0
    else (if IsOwn(acts[0], sid) then 1 else 0) + OwnSteps(acts[1..], sid)
  }

  predicate IsOwn<S>(a: Action<S>, sid: Sid) {
    !a.Set? && !a.CloseStreams? && !a.Open? && a.sid == sid
  }

  function NextOwnStep<S>(st: Stream<S>, sid: Sid): Action<S>
    requires !st.pc.Ended?
  {
    match st.pc
    case AtCapture => Capture(sid)
    case AtSnapshot => Snapshot(sid)
    case AtSend => Send(sid, true)
    case AtSelect => WakeKill(sid)
    case _ => ReadCode(sid)
  }

  lemma DoomedRank<S>(s: Sys<S>, a: Action<S>, sid: Sid)
    requires Enabled(s, a) && Doomed(s, sid)
    ensures sid in Step(s, a).streams
    ensures Rank(Step(s, a).streams[sid]) + (if IsOwn(a, sid) then 1 else 0) <= Rank(s.streams[sid])
    ensures !IsOwn(a, sid) ==> Step(s, a).streams[sid] == s.streams[sid]
  {
  }

  /**
   So it terminates. In every run without a Set on its cell, a stream that holds a closed kill channel
   and an open notify channel takes at most four more steps of its own; as long as it has not ended,
   one of them can be taken.
   */
  lemma {:induction false} KilledStreamEnds<S(!new)>(
      before: seq<Action<S>>, s: Sys<S>, sid: Sid, acts: seq<Action<S>>, t: Sys<S>)
    requires Reaches(before, s) && Doomed(s, sid)
    requires s.streams[sid].kill in s.closed || !Holding(s.streams[sid])
    requires NoSet(acts, s.streams[sid].topic) && Exec(s, acts) == Some(t)
    ensures sid in t.streams && OwnSteps(acts, sid) + Rank(t.streams[sid]) <= Rank(s.streams[sid]) <= 4
    ensures !t.streams[sid].pc.Ended? ==> Enabled(t, NextOwnStep(t.streams[sid], sid)) && IsOwn(NextOwnStep(t.streams[sid], sid), sid)
    decreases |acts|
  {
    if |acts| > 0 {
      if Holding(s.streams[sid]) {
        ReachableApart(before, s, sid);
      }
      DoomedStep(s, acts[0], sid);
      DoomedRank(s, acts[0], sid);
      ReachesStep(before, s, acts[0]);
      assert NoSet(acts[1..], s.streams[sid].topic);
      KilledStreamEnds(before + [acts[0]], Step(s, acts[0]), sid, acts[1..], t);
    }
  }

  lemma ReachableApart<S(!new)>(acts: seq<Action<S>>, s: Sys<S>, sid: Sid)
    requires Reaches(acts, s) && Doomed(s, sid) && Holding(s.streams[sid])
    ensures var st := s.streams[sid];
            && st.notify != s.kill
            && st.notify != CellOf(s, if st.topic.X509? then Jwt else X509).notify
  {
    ReachableInv(acts, s);
    DoomedApart(s, sid);
  }

  lemma ReachesStep<S(!new)>(acts: seq<Action<S>>, s: Sys<S>, a: Action<S>)
    requires Reaches(acts, s) && Enabled(s, a)
    ensures Reaches(acts + [a], Step(s, a))
  {
    ExecAppend(Init(), acts, [a]);
    ExecCons(s, a, []);
    assert [a] + [] == [a];
  }

  /** The way round the loop of a live stream that is not doomed. */
  function WayRound<S>(st: Stream<S>, sid: Sid): seq<Action<S>>
    requires Live(st)
  {
    match st.pc
    case AtSnapshot => [Snapshot(sid), Send(sid, true), WakeNotify(sid), Capture(sid)]
    case AtSend => [Send(sid, true), WakeNotify(sid), Capture(sid)]
    case AtSelect => [WakeNotify(sid), Capture(sid)]
    case _ => [Capture(sid)]
  }

  lemma ExecCons<S>(s: Sys<S>, a: Action<S>, rest: seq<Action<S>>)
    requires Enabled(s, a)
    ensures Exec(s, [a] + rest) == Exec(Step(s, a), rest)
  {
  }

  lemma SurvivorRecaptures<S>(s: Sys<S>, sid: Sid)
    requires sid in s.streams && Live(s.streams[sid])
    requires s.streams[sid].pc.AtCapture? || s.streams[sid].notify in s.closed
    ensures Recaptures(s, sid, WayRound(s.streams[sid], sid))
    ensures Exec(s, WayRound(s.streams[sid], sid)).value.streams[sid].kill == s.kill
    decreases match s.streams[sid].pc { case AtSnapshot => 3 case AtSend => 2 case AtSelect => 1 case _ => 0 }
  {
    var st := s.streams[sid];
    var way := WayRound(st, sid);
    ExecCons(s, way[0], way[1..]);
    assert way == [way[0]] + way[1..];
    if st.pc != AtCapture {
      var s1 := Step(s, way[0]);
      SurvivorRecaptures(s1, sid);
      assert WayRound(s1.streams[sid], sid) == way[1..];
    } else {
      assert Exec(Step(s, way[0]), way[1..]) == Some(Step(s, way[0]));
    }
  }

  /**
   The exact condition, for every reachable state and every live stream: CloseStreams leaves the
   stream a way to go on, on a fresh kill channel, if and only if the stream is between waking and
   capturing, or its notify channel is already closed.
   */
  lemma SurvivesCloseStreams<S(!new)>(acts: seq<Action<S>>, s: Sys<S>, sid: Sid, code: Code)
    requires Reaches(acts, s) && sid in s.streams && Live(s.streams[sid])
    ensures CanRecapture(Step(s, CloseStreams(code)), sid) <==>
              s.streams[sid].pc.AtCapture? || s.streams[sid].notify in s.closed
  {
    var t := Step(s, CloseStreams(code));
    var st := s.streams[sid];
    if st.pc.AtCapture? || st.notify in s.closed {
      SurvivorRecaptures(t, sid);
    } else {
      ReachableApart(acts, s, sid);
      DoomedStep(s, CloseStreams(code), sid);
      ReachesStep(acts, s, CloseStreams(code));
      forall bs | Exec(t, bs).Some? && NoSet(bs, st.topic) ensures !Recaptures(t, sid, bs) {
        KillIsFinal(acts + [CloseStreams(code)], t, sid, bs, Exec(t, bs).value);
      }
    }
  }

  /**
   The race that makes the condition necessary, possible whenever a stream is parked: a Set and then
   a CloseStreams both land before it wakes. Both its channels are closed, it takes notify, and it
   captures a kill channel that is still open.
   */
  lemma CloseStreamsCanBeMissed<S(!new)>(acts: seq<Action<S>>, s: Sys<S>, sid: Sid, x: Option<S>, code: Code)
    requires Reaches(acts, s) && At(s, sid, AtSelect) && s.streams[sid].notify !in s.closed
    ensures var t := Step(Step(s, Set(s.streams[sid].topic, x)), CloseStreams(code));
            && Enabled(t, WakeKill(sid)) && Enabled(t, WakeNotify(sid))
            && Recaptures(t, sid, [WakeNotify(sid), Capture(sid)])
            && Exec(t, [WakeNotify(sid), Capture(sid)]).value.streams[sid].kill !in t.closed
  {
    var st := s.streams[sid];
    ReachableStream(acts, s, sid);
    OpenNotifyIsCurrent(s, st);
    var s1 := Step(s, Set(st.topic, x));
    var t := Step(s1, CloseStreams(code));
    assert WayRound(t.streams[sid], sid) == [WakeNotify(sid), Capture(sid)];
    SurvivorRecaptures(t, sid);
    ReachesStep(acts, s, Set(st.topic, x));
    ReachesStep(acts + [Set(st.topic, x)], s1, CloseStreams(code));
    CurrentKillIsOpen(acts + [Set(st.topic, x)], s1);
    CurrentKillIsOpen(acts + [Set(st.topic, x)] + [CloseStreams(code)], t);
    WakeFacts(acts, s, sid);
  }

  /**
   The other order of the race needs no condition at all: a Set that lands after CloseStreams, before
   a live stream wakes, gives it a way to go on with an open kill channel, even if CloseStreams alone
   had left it none.
   */
  lemma SetAfterCloseRevives<S(!new)>(acts: seq<Action<S>>, s: Sys<S>, sid: Sid, code: Code, x: Option<S>)
    requires Reaches(acts, s) && sid in s.streams && Live(s.streams[sid])
    ensures var t := Step(Step(s, CloseStreams(code)), Set(s.streams[sid].topic, x));
            var way := WayRound(s.streams[sid], sid);
            && Recaptures(t, sid, way) && CanRecapture(t, sid)
            && Exec(t, way).value.streams[sid].kill !in t.closed
  {
    var st := s.streams[sid];
    var s1 := Step(s, CloseStreams(code));
    var t := Step(s1, Set(st.topic, x));
    ReachesStep(acts, s, CloseStreams(code));
    ReachesStep(acts + [CloseStreams(code)], s1, Set(st.topic, x));
    CurrentKillIsOpen(acts + [CloseStreams(code)] + [Set(st.topic, x)], t);
    ReachableStream(acts, s, sid);
    if Holding(st) && st.notify !in s.closed {
      OpenNotifyIsCurrent(s, st);
    }
    SurvivorRecaptures(t, sid);
  }
}
