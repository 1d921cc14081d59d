/**
 Progress from server to watcher: what a stream and its watcher reach by their own steps alone, once
 the writers keep quiet.
 */
module Settling {
  import opened Wrappers
  import opened StreamProtocol
  import opened StreamTheorems
  import opened X509Messages
  import opened Watchers
  import opened Der
  import opened EndToEnd

  /** A step of the stream or of its watcher, not of a writer or another stream. */
  predicate Own(act: Act, sid: Sid) {
    act.Eat? || (!act.a.Set? && !act.a.CloseStreams? && !act.a.Open? && act.a.sid == sid)
  }

  predicate OwnRun(acts: seq<Act>, sid: Sid) {
    forall i | 0 <= i < |acts| :: Own(acts[i], sid)
  }

  ghost predicate SettlesBy(c: Comp, sid: Sid, own: seq<Act>) {
    OwnRun(own, sid) && Run(c, sid, own).Some? && Settled(Run(c, sid, own).value, sid)
  }

  predicate Sendable(v: Option<X509State>) {
    v.None? || Convertible(v.value)
  }

  /** About to send a state that cannot be converted. */
  predicate Stuck(s: Sys<X509State>, sid: Sid) {
    At(s, sid, AtSend) && !Sendable(s.streams[sid].got)
  }

  predicate Going(s: Sys<X509State>, sid: Sid) {
    && sid in s.streams && s.streams[sid].topic == X509 && Live(s.streams[sid])
    && Sendable(s.x509.value) && !Stuck(s, sid)
  }

  lemma {:induction false} ParksAlone(before: seq<Action<X509State>>, c: Comp, sid: Sid) returns (own: seq<Act>, c': Comp)
    requires Reaches(before, c.sys) && Going(c.sys, sid)
    ensures OwnRun(own, sid) && Run(c, sid, own) == Some(c')
    ensures At(c'.sys, sid, AtSelect) && c'.sys.streams[sid].notify !in c'.sys.closed
    decreases Distance(c.sys, c.sys.streams[sid])
  {
    var st := c.sys.streams[sid];
    if st.pc.AtSelect? && st.notify !in c.sys.closed {
      own, c' := [], c;
    } else {
      var a := OwnAction(st, sid);
      CurrentNotifyIsOpen(before, c.sys, X509);
      ReachesStep(before, c.sys, a);
      var rest;
      rest, c' := ParksAlone(before + [a], Do(c, sid, Srv(a)), sid);
      own := [Srv(a)] + rest;
      assert own[1..] == rest;
    }
  }

  lemma {:induction false} Drains(c: Comp, sid: Sid) returns (own: seq<Act>)
    ensures OwnRun(own, sid) && Run(c, sid, own) == Some(Comp(c.sys, [], c.eaten + c.queue))
    decreases |c.queue|
  {
    if |c.queue| == 0 {
      own := [];
      assert c.eaten + c.queue == c.eaten;
    } else {
      var rest := Drains(Do(c, sid, Eat), sid);
      own := [Eat] + rest;
      assert own[1..] == rest;
      assert c.eaten + [c.queue[0]] + c.queue[1..] == c.eaten + c.queue;
    }
  }

  lemma {:induction false} OwnStepsKeepState(c: Comp, sid: Sid, own: seq<Act>)
    requires OwnRun(own, sid) && Run(c, sid, own).Some?
    ensures Run(c, sid, own).value.sys.x509.value == c.sys.x509.value
    decreases |own|
  {
    if |own| > 0 {
      assert Own(own[0], sid);
      assert forall i | 0 <= i < |own[1..]| :: own[1..][i] == own[i + 1];
      OwnStepsKeepState(Do(c, sid, own[0]), sid, own[1..]);
    }
  }

  /** The send fails and the stream ends, whatever anyone does. */
  lemma {:induction false} StuckNeverParks(c: Comp, sid: Sid, acts: seq<Act>)
    requires Stuck(c.sys, sid) || At(c.sys, sid, Ended(SendFailed))
    requires Run(c, sid, acts).Some?
    ensures !At(Run(c, sid, acts).value.sys, sid, AtSelect)
    decreases |acts|
  {
    if |acts| > 0 {
      StuckNeverParks(Do(c, sid, acts[0]), sid, acts[1..]);
    }
  }

  /**
   From every reachable state in which the stream is alive, the steps of the stream and its watcher
   alone can settle them if and only if the response for the current state can be built and the
   stream is not about to send an older one that cannot.
   */
  lemma SettlesAlone(sid: Sid, acts: seq<Act>, c: Comp)
    requires Run(Start(), sid, acts) == Some(c) && sid in c.sys.streams && Live(c.sys.streams[sid])
    ensures (exists own :: SettlesBy(c, sid, own)) <==> Sendable(c.sys.x509.value) && !Stuck(c.sys, sid)
  {
    Reachable(sid, acts, c);
    if Going(c.sys, sid) {
      var own := SettlingRun(sid, acts, c);
    }
    forall own | SettlesBy(c, sid, own) ensures Sendable(c.sys.x509.value) && !Stuck(c.sys, sid) {
      RunAppend(Start(), sid, acts, own);
      OwnStepsKeepState(c, sid, own);
      var c' := Run(c, sid, own).value;
      if c'.sys.x509.value.Some? {
        SettledHasCurrent(sid, acts + own, c');
      }
      if Stuck(c.sys, sid) {
        StuckNeverParks(c, sid, own);
      }
    }
  }

  lemma SettlingRun(sid: Sid, acts: seq<Act>, c: Comp) returns (own: seq<Act>)
    requires Run(Start(), sid, acts) == Some(c) && Going(c.sys, sid)
    ensures SettlesBy(c, sid, own)
  {
    Reachable(sid, acts, c);
    var park, c' := ParksAlone(ServerActs(acts), c, sid);
    var drain := Drains(c', sid);
    own := park + drain;
    RunAppend(c, sid, park, drain);
  }

  /**
   Rotation happens: whatever has been done, once the writers keep quiet on a state that can be sent
   and loaded, the stream and jeengbe's watcher by themselves get to presenting its first material.
   */
  lemma RotationHappens(sid: Sid, acts: seq<Act>, c: Comp, loads: (seq<Bytes>, Bytes) -> bool)
      returns (own: seq<Act>, c': Comp)
    requires Run(Start(), sid, acts) == Some(c) && sid in c.sys.streams && Live(c.sys.streams[sid])
    requires c.sys.x509.value.Some? && Convertible(c.sys.x509.value.value) && !Stuck(c.sys, sid)
    requires FirstLoads(c.sys.x509.value.value, loads)
    ensures OwnRun(own, sid) && Run(c, sid, own) == Some(c') && Settled(c', sid)
    ensures var m := c.sys.x509.value.value.materials[0];
            Loader(Walk, loads).LastGood(c'.eaten) == Some(Context(CertChain(m), m.key.value))
  {
    Reachable(sid, acts, c);
    own := SettlingRun(sid, acts, c);
    c' := Run(c, sid, own).value;
    OwnStepsKeepState(c, sid, own);
    RunAppend(Start(), sid, acts, own);
    RotationIsPresented(sid, acts + own, c', loads);
  }

  /** node-spiffe gets to serving in the same way, if and only if the response is usable. */
  lemma ServingHappens(sid: Sid, acts: seq<Act>, c: Comp, loader: Loader) returns (own: seq<Act>, c': Comp)
    requires Run(Start(), sid, acts) == Some(c) && sid in c.sys.streams && Live(c.sys.streams[sid])
    requires c.sys.x509.value.Some? && Convertible(c.sys.x509.value.value) && !Stuck(c.sys, sid)
    ensures OwnRun(own, sid) && Run(c, sid, own) == Some(c') && Settled(c', sid)
    ensures loader.Serving(c'.eaten) <==> loader.Usable(ToProto(c.sys.x509.value.value).value)
  {
    Reachable(sid, acts, c);
    own := SettlingRun(sid, acts, c);
    c' := Run(c, sid, own).value;
    OwnStepsKeepState(c, sid, own);
    RunAppend(Start(), sid, acts, own);
    ServingIffCurrentUsable(sid, acts + own, c', loader);
  }
}
