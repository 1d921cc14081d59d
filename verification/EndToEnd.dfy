/**
 One FetchX509SVID stream, the FIFO transport below it and the watcher that consumes it, composed
 with everything else the server does. `eaten` are the responses consumed so far; what a watcher
 presents after them is `Loader.LastGood(eaten)`, as its WatchX509 guarantees.
 */
module EndToEnd {
  import opened Wrappers
  import opened StreamProtocol
  import opened StreamTheorems
  import opened Der
  import opened X509Messages
  import opened Watchers

  datatype Comp = Comp(sys: Sys<X509State>, queue: seq<Response>, eaten: seq<Response>)

  datatype Act = Srv(a: Action<X509State>) | Eat

  /** Stream `sid` carries X.509 states, and its send fails when the response cannot be built. */
  predicate Can(c: Comp, sid: Sid, act: Act) {
    match act
    case Eat => |c.queue| > 0
    case Srv(a) =>
      && Enabled(c.sys, a)
      && (a.Open? && a.sid == sid ==> a.of == X509)
      && (a.Send? && a.sid == sid && a.ok && c.sys.streams[sid].got.Some? ==>
            Convertible(c.sys.streams[sid].got.value))
  }

  function Do(c: Comp, sid: Sid, act: Act): Comp
    requires Can(c, sid, act)
  {
    match act
    case Eat => c.(queue := c.queue[1..], eaten := c.eaten + [c.queue[0]])
    case Srv(a) =>
      var c' := c.(sys := Step(c.sys, a));
      if a.Send? && a.sid == sid && a.ok && c.sys.streams[sid].got.Some?
      then c'.(queue := c.queue + [ToProto(c.sys.streams[sid].got.value).value])
      else c'
  }

  function Run(c: Comp, sid: Sid, acts: seq<Act>): Option<Comp>
    decreases |acts|
  {
    if |acts| == 0 then Some(c)
    else if Can(c, sid, acts[0]) then Run(Do(c, sid, acts[0]), sid, acts[1..])
    else None
  }

  function Start(): Comp {
    Comp(Init(), [], [])
  }

  /** The server's part of a run. */
  function ServerActs(acts: seq<Act>): seq<Action<X509State>> {
    if |acts| == 0 then []
    else (if acts[0].Srv? then [acts[0].a] else []) + ServerActs(acts[1..])
  }

  function Sends(s: Sys<X509State>, sid: Sid): nat {
    if sid in s.streams then |s.streams[sid].sent| else 0
  }

  /** The k-th message on the wire is the response for the k-th state sent. */
  ghost predicate OnWire(s: Sys<X509State>, sid: Sid, k: nat, resp: Response) {
    && sid in s.streams
    && var d := Delivered(s.x509, s.streams[sid], k);
       d.Some? && ToProto(d.value) == Some(resp)
  }

  /** FIFO: what was eaten, then what is queued, is what was sent. */
  ghost predicate Fifo(c: Comp, sid: Sid) {
    var wire := c.eaten + c.queue;
    && |wire| == Sends(c.sys, sid)
    && (sid in c.sys.streams ==> c.sys.streams[sid].topic == X509)
    && (forall k | 0 <= k < |wire| :: OnWire(c.sys, sid, k, wire[k]))
  }

  /** A message sent stays the message for the version it was sent for. */
  lemma DeliveredStays(s: Sys<X509State>, acts: seq<Action<X509State>>, sid: Sid, k: nat, resp: Response)
    requires Exec(s, acts).Some? && OnWire(s, sid, k, resp)
    ensures OnWire(Exec(s, acts).value, sid, k, resp)
  {
    StreamGrows(s, acts, sid);
    HistoryIsPushed(s, acts, X509);
  }

  lemma ExecOne(s: Sys<X509State>, a: Action<X509State>)
    requires Enabled(s, a)
    ensures Exec(s, [a]) == Some(Step(s, a))
  {
  }

  lemma SendGoesOnWire(acts: seq<Action<X509State>>, c: Comp, sid: Sid, a: Action<X509State>)
    requires Reaches(acts, c.sys) && Can(c, sid, Srv(a)) && Fifo(c, sid)
    requires a.Send? && a.sid == sid && a.ok && c.sys.streams[sid].got.Some?
    ensures OnWire(Step(c.sys, a), sid, Sends(c.sys, sid), ToProto(c.sys.streams[sid].got.value).value)
    ensures Sends(Step(c.sys, a), sid) == Sends(c.sys, sid) + 1
  {
    ReachableStream(acts, c.sys, sid);
    var st := c.sys.streams[sid];
    assert GotLast(c.sys.x509, st);
  }

  lemma OtherSends(s: Sys<X509State>, sid: Sid, a: Action<X509State>)
    requires Enabled(s, a) && !(a.Send? && a.sid == sid && a.ok && s.streams[sid].got.Some?)
    ensures Sends(Step(s, a), sid) == Sends(s, sid)
  {
  }

  lemma FifoStep(acts: seq<Action<X509State>>, c: Comp, sid: Sid, act: Act)
    requires Reaches(acts, c.sys) && Fifo(c, sid) && Can(c, sid, act)
    ensures Fifo(Do(c, sid, act), sid)
  {
    var c' := Do(c, sid, act);
    var wire, wire' := c.eaten + c.queue, c'.eaten + c'.queue;
    match act
    case Eat =>
      assert wire' == wire;
    case Srv(a) =>
      ExecOne(c.sys, a);
      forall k | 0 <= k < |wire| ensures OnWire(c'.sys, sid, k, wire[k]) {
        DeliveredStays(c.sys, [a], sid, k, wire[k]);
      }
      if sid in c.sys.streams {
        StreamGrows(c.sys, [a], sid);
      }
      if a.Send? && a.sid == sid && a.ok && c.sys.streams[sid].got.Some? {
        SendGoesOnWire(acts, c, sid, a);
        assert wire' == wire + [ToProto(c.sys.streams[sid].got.value).value];
      } else {
        OtherSends(c.sys, sid, a);
        assert wire' == wire;
      }
  }

  /** Leaving out the watcher's steps, a run is a run of the server. */
  lemma {:induction false} RunIsExec(c: Comp, sid: Sid, acts: seq<Act>, c': Comp)
    requires Run(c, sid, acts) == Some(c')
    ensures Exec(c.sys, ServerActs(acts)) == Some(c'.sys) && c.eaten <= c'.eaten
    decreases |acts|
  {
    if |acts| > 0 {
      RunIsExec(Do(c, sid, acts[0]), sid, acts[1..], c');
      if acts[0].Srv? {
        ExecCons(c.sys, acts[0].a, ServerActs(acts[1..]));
      } else {
        assert ServerActs(acts) == ServerActs(acts[1..]);
      }
    }
  }

  lemma {:induction false} RunFifo(before: seq<Action<X509State>>, c: Comp, sid: Sid, acts: seq<Act>, c': Comp)
    requires Reaches(before, c.sys) && Fifo(c, sid) && Run(c, sid, acts) == Some(c')
    ensures Fifo(c', sid)
    decreases |acts|
  {
    if |acts| > 0 {
      FifoStep(before, c, sid, acts[0]);
      var c1 := Do(c, sid, acts[0]);
      if acts[0].Srv? {
        ReachesStep(before, c.sys, acts[0].a);
        RunFifo(before + [acts[0].a], c1, sid, acts[1..], c');
      } else {
        RunFifo(before, c1, sid, acts[1..], c');
      }
    }
  }

  lemma Reachable(sid: Sid, acts: seq<Act>, c: Comp)
    requires Run(Start(), sid, acts) == Some(c)
    ensures Reaches(ServerActs(acts), c.sys) && Fifo(c, sid)
  {
    RunIsExec(Start(), sid, acts, c);
    RunFifo([], Start(), sid, acts, c);
  }

  /** A response the watcher has consumed, seen from the server. */
  lemma EatenWasSent(c: Comp, sid: Sid, k: nat)
    requires Fifo(c, sid) && k < |c.eaten|
    ensures OnWire(c.sys, sid, k, c.eaten[k]) && k < |c.sys.streams[sid].sent|
    ensures c.sys.streams[sid].topic == X509
  {
    assert (c.eaten + c.queue)[k] == c.eaten[k];
  }

  /** The version of the state behind what the watcher presents; 0 before the first. */
  ghost function AppliedVersion(c: Comp, sid: Sid, loader: Loader): nat {
    match loader.LastUsable(c.eaten)
    case None => 0
    case Some(k) =>
      if sid in c.sys.streams && k < |c.sys.streams[sid].sent| && c.sys.streams[sid].sent[k] < |c.sys.streams[sid].snaps|
      then c.sys.streams[sid].snaps[c.sys.streams[sid].sent[k]]
      else 0
  }

  /** Whatever the watcher presents was made from a state that was pushed: the one of that version. */
  lemma PresentedWasPushed(sid: Sid, acts: seq<Act>, c: Comp, loader: Loader)
    requires Run(Start(), sid, acts) == Some(c) && loader.LastGood(c.eaten).Some?
    ensures var pushed := Pushed(ServerActs(acts), X509);
            var v := AppliedVersion(c, sid, loader);
            && 1 <= v <= |pushed| && pushed[v - 1].Some? && ToProto(pushed[v - 1].value).Some?
            && loader.Load(ToProto(pushed[v - 1].value).value) == loader.LastGood(c.eaten)
  {
    EatenWasPushed(sid, acts, c, loader.LastUsable(c.eaten).value);
  }

  lemma {:induction false} LastUsableGrows(loader: Loader, a: seq<Response>, b: seq<Response>)
    requires a <= b && loader.LastUsable(a).Some?
    ensures loader.LastUsable(b).Some? && loader.LastUsable(a).value <= loader.LastUsable(b).value
  {
  }

  /** However a run goes on, the version presented never goes backwards. */
  lemma VersionsNeverGoBack(sid: Sid, acts: seq<Act>, c: Comp, more: seq<Act>, c': Comp, loader: Loader)
    requires Run(Start(), sid, acts) == Some(c) && Run(c, sid, more) == Some(c')
    ensures AppliedVersion(c, sid, loader) <= AppliedVersion(c', sid, loader)
  {
    if loader.LastUsable(c.eaten).Some? {
      RunAppend(Start(), sid, acts, more);
      LaterRun(sid, acts, c, more, c');
      LastUsableGrows(loader, c.eaten, c'.eaten);
      var k, l := loader.LastUsable(c.eaten).value, loader.LastUsable(c'.eaten).value;
      EatenVersion(sid, acts, c, k, k);
      EatenVersion(sid, acts + more, c', k, l);
    }
  }

  lemma LaterRun(sid: Sid, acts: seq<Act>, c: Comp, more: seq<Act>, c': Comp)
    requires Run(Start(), sid, acts) == Some(c) && Run(c, sid, more) == Some(c')
    ensures c.eaten <= c'.eaten
    ensures sid in c.sys.streams ==>
              && sid in c'.sys.streams
              && c.sys.streams[sid].sent <= c'.sys.streams[sid].sent
              && c.sys.streams[sid].snaps <= c'.sys.streams[sid].snaps
  {
    RunIsExec(c, sid, more, c');
    if sid in c.sys.streams {
      StreamGrows(c.sys, ServerActs(more), sid);
    }
  }

  lemma EatenVersion(sid: Sid, acts: seq<Act>, c: Comp, k: nat, l: nat)
    requires Run(Start(), sid, acts) == Some(c) && k <= l < |c.eaten|
    ensures sid in c.sys.streams && l < |c.sys.streams[sid].sent|
    ensures var st := c.sys.streams[sid];
            && st.sent[k] < |st.snaps| && st.sent[l] < |st.snaps|
            && st.snaps[st.sent[k]] <= st.snaps[st.sent[l]]
  {
    Reachable(sid, acts, c);
    EatenWasSent(c, sid, l);
    SendsAreOrdered(ServerActs(acts), c.sys, sid, k);
  }

  lemma {:induction false} RunAppend(c: Comp, sid: Sid, a: seq<Act>, b: seq<Act>)
    requires Run(c, sid, a).Some?
    ensures Run(c, sid, a + b) == Run(Run(c, sid, a).value, sid, b)
    decreases |a|
  {
    if |a| == 0 {
      assert a + b == b;
    } else {
      assert (a + b)[0] == a[0] && (a + b)[1..] == a[1..] + b;
      RunAppend(Do(c, sid, a[0]), sid, a[1..], b);
    }
  }

  /** Waiting in select with nothing new to fetch, and everything sent consumed. */
  ghost predicate Settled(c: Comp, sid: Sid) {
    && At(c.sys, sid, AtSelect) && c.sys.streams[sid].notify !in c.sys.closed
    && c.queue == []
  }

  /** The last message consumed by a settled watcher is the current state, unless that is nil. */
  lemma SettledHasCurrent(sid: Sid, acts: seq<Act>, c: Comp)
    requires Run(Start(), sid, acts) == Some(c) && Settled(c, sid) && c.sys.x509.value.Some?
    ensures |c.eaten| > 0 && ToProto(c.sys.x509.value.value) == Some(c.eaten[|c.eaten| - 1])
  {
    Reachable(sid, acts, c);
    NoLostUpdate(ServerActs(acts), c.sys, sid);
    var k := |c.eaten| - 1;
    assert c.eaten + c.queue == c.eaten;
    assert OnWire(c.sys, sid, k, c.eaten[k]);
  }

  /** The first material has a key, well-formed certificates, and the TLS stack takes the pair. */
  ghost predicate FirstLoads(state: X509State, loads: (seq<Bytes>, Bytes) -> bool) {
    && |state.materials| > 0
    && var m := state.materials[0];
       AllElements(CertChain(m)) && m.key.Some? && loads(CertChain(m), m.key.value)
  }

  /**
   Rotation reaches jeengbe-spiffe. Once settled on a state whose first material has well-formed
   certificates and can be loaded, it presents exactly that material: its certificate chain, cut
   back out of the concatenation the server sent, and its key.
   */
  lemma RotationIsPresented(sid: Sid, acts: seq<Act>, c: Comp, loads: (seq<Bytes>, Bytes) -> bool)
    requires Run(Start(), sid, acts) == Some(c) && Settled(c, sid)
    requires c.sys.x509.value.Some? && FirstLoads(c.sys.x509.value.value, loads)
    ensures var m := c.sys.x509.value.value.materials[0];
            Loader(Walk, loads).LastGood(c.eaten) == Some(Context(CertChain(m), m.key.value))
  {
    SettledHasCurrent(sid, acts, c);
    FirstMaterialLoads(c.sys.x509.value.value, c.eaten[|c.eaten| - 1], loads);
    UsableLastIsPresented(Loader(Walk, loads), c.eaten);
  }

  /**
   And only what the TLS stack takes: settled on a state whose first material is missing, does not
   split into certificates or cannot be loaded, it presents what it presented before that response.
   */
  lemma UnloadableKeepsLastGood(sid: Sid, acts: seq<Act>, c: Comp, loads: (seq<Bytes>, Bytes) -> bool)
    requires Run(Start(), sid, acts) == Some(c) && Settled(c, sid) && c.sys.x509.value.Some?
    requires var ms := c.sys.x509.value.value.materials;
             |ms| > 0 && ms[0].key.Some? ==>
               var certs := Walk(ms[0].certDer + Join(ms[0].intermediates));
               certs.None? || !loads(certs.value, ms[0].key.value)
    ensures |c.eaten| > 0
    ensures Loader(Walk, loads).LastGood(c.eaten) == Loader(Walk, loads).LastGood(c.eaten[..|c.eaten| - 1])
  {
    ServingIffCurrentUsable(sid, acts, c, Loader(Walk, loads));
    SettledHasCurrent(sid, acts, c);
    UnusableKeeps(Loader(Walk, loads), c.eaten);
  }

  lemma UnusableKeeps(loader: Loader, resps: seq<Response>)
    requires |resps| > 0 && !loader.Serving(resps)
    ensures loader.LastGood(resps) == loader.LastGood(resps[..|resps| - 1])
  {
  }

  /** The trust bundle pushed with the state is the one the workload has, whoever issued its SVIDs. */
  lemma SettledHasBundle(sid: Sid, acts: seq<Act>, c: Comp, i: nat)
    requires Run(Start(), sid, acts) == Some(c) && Settled(c, sid) && c.sys.x509.value.Some?
    requires i < |c.sys.x509.value.value.materials|
    ensures |c.eaten| > 0 && i < |c.eaten[|c.eaten| - 1].svids|
    ensures var state := c.sys.x509.value.value;
            c.eaten[|c.eaten| - 1].svids[i].bundle ==
              if |state.trustBundle| > 0 then Join(state.trustBundle) else state.materials[0].caCertDer
  {
    SettledHasCurrent(sid, acts, c);
    ResponseSays(c.eaten[|c.eaten| - 1], c.sys.x509.value.value, i);
  }

  lemma UsableLastIsPresented(loader: Loader, resps: seq<Response>)
    requires |resps| > 0 && loader.Usable(resps[|resps| - 1])
    ensures loader.LastGood(resps) == loader.Load(resps[|resps| - 1])
  {
  }

  lemma FirstMaterialLoads(state: X509State, resp: Response, loads: (seq<Bytes>, Bytes) -> bool)
    requires FirstLoads(state, loads) && Represents(resp, state)
    ensures var m := state.materials[0];
            Loader(Walk, loads).Load(resp) == Some(Context(CertChain(m), m.key.value))
  {
    var m := state.materials[0];
    assert resp.svids[0].chain == Join(CertChain(m)) && resp.svids[0].key == m.key.value;
    WalkOfJoin(CertChain(m));
  }

  /**
   node-spiffe: once settled on a state, its port has an identity exactly when the state's first
   material splits into certificates the TLS stack takes with its key, and then it is that one.
   */
  lemma ServingIffCurrentUsable(sid: Sid, acts: seq<Act>, c: Comp, loader: Loader)
    requires Run(Start(), sid, acts) == Some(c) && Settled(c, sid) && c.sys.x509.value.Some?
    ensures ToProto(c.sys.x509.value.value).Some?
    ensures var resp := ToProto(c.sys.x509.value.value).value;
            && (loader.Serving(c.eaten) <==> loader.Usable(resp))
            && (loader.Serving(c.eaten) ==> loader.LastGood(c.eaten) == loader.Load(resp))
    ensures var ms := c.sys.x509.value.value.materials;
            loader.Serving(c.eaten) <==>
              && |ms| > 0 && ms[0].key.Some?
              && var certs := loader.parse(ms[0].certDer + Join(ms[0].intermediates));
                 certs.Some? && loader.loads(certs.value, ms[0].key.value)
  {
    SettledHasCurrent(sid, acts, c);
    if |c.sys.x509.value.value.materials| > 0 {
      ResponseSays(c.eaten[|c.eaten| - 1], c.sys.x509.value.value, 0);
    }
    if loader.Serving(c.eaten) {
      UsableLastIsPresented(loader, c.eaten);
    }
  }

  /** The k-th message consumed carried version `v`. */
  ghost predicate ConsumedAs(c: Comp, sid: Sid, v: nat, k: nat) {
    && k < |c.eaten| && sid in c.sys.streams
    && k < |c.sys.streams[sid].sent| && c.sys.streams[sid].sent[k] < |c.sys.streams[sid].snaps|
    && c.sys.streams[sid].snaps[c.sys.streams[sid].sent[k]] == v
  }

  lemma SnapsAreSampled(sid: Sid, acts: seq<Act>, c: Comp, v: nat)
    requires Run(Start(), sid, acts) == Some(c) && sid in c.sys.streams
    ensures v in c.sys.streams[sid].snaps <==> Samples(ServerActs(acts), sid, X509, v)
  {
    Reachable(sid, acts, c);
    SnapsAreSamples(Init(), ServerActs(acts), sid, X509, v);
  }

  /**
   Which pushed states reach the watcher, told from the list of actions alone: once settled, it has
   consumed the response for a version that is not nil if and only if the stream took a snapshot
   after that Set and before the next.
   */
  lemma ConsumedIffSampled(sid: Sid, acts: seq<Act>, c: Comp, v: nat)
    requires Run(Start(), sid, acts) == Some(c) && Settled(c, sid)
    requires 1 <= v <= |Pushed(ServerActs(acts), X509)| && Pushed(ServerActs(acts), X509)[v - 1].Some?
    ensures (exists k: nat :: ConsumedAs(c, sid, v, k)) <==> Samples(ServerActs(acts), sid, X509, v)
    ensures forall k: nat | ConsumedAs(c, sid, v, k) ::
              ToProto(Pushed(ServerActs(acts), X509)[v - 1].value) == Some(c.eaten[k])
  {
    SnapsAreSampled(sid, acts, c, v);
    if Samples(ServerActs(acts), sid, X509, v) {
      var k := SampledIsEaten(sid, acts, c, v);
      assert ConsumedAs(c, sid, v, k);
    }
    forall k: nat | ConsumedAs(c, sid, v, k)
      ensures ToProto(Pushed(ServerActs(acts), X509)[v - 1].value) == Some(c.eaten[k])
    {
      EatenWasPushed(sid, acts, c, k);
    }
  }

  /** The version was pushed, and the loader can use its response. */
  ghost predicate Presentable(pushed: seq<Option<X509State>>, loader: Loader, v: nat) {
    && 1 <= v <= |pushed| && pushed[v - 1].Some?
    && ToProto(pushed[v - 1].value).Some? && loader.Usable(ToProto(pushed[v - 1].value).value)
  }

  /**
   What a settled watcher presents, for any history of pushes, nil or not: the last presentable
   version the stream took a snapshot of.
   */
  lemma PresentedIffLastSampled(sid: Sid, acts: seq<Act>, c: Comp, loader: Loader, v: nat)
    requires Run(Start(), sid, acts) == Some(c) && Settled(c, sid)
    requires Presentable(Pushed(ServerActs(acts), X509), loader, v)
    ensures AppliedVersion(c, sid, loader) == v <==>
              && Samples(ServerActs(acts), sid, X509, v)
              && (forall w | v < w && Presentable(Pushed(ServerActs(acts), X509), loader, w) ::
                    !Samples(ServerActs(acts), sid, X509, w))
  {
    var pushed := Pushed(ServerActs(acts), X509);
    forall w: nat | Presentable(pushed, loader, w) && Samples(ServerActs(acts), sid, X509, w)
      ensures w <= AppliedVersion(c, sid, loader)
    {
      SampledIsApplied(sid, acts, c, loader, w);
    }
    if AppliedVersion(c, sid, loader) > 0 {
      var l := loader.LastUsable(c.eaten).value;
      EatenWasPushed(sid, acts, c, l);
      SnapsAreSampled(sid, acts, c, AppliedVersion(c, sid, loader));
      assert Presentable(pushed, loader, AppliedVersion(c, sid, loader));
    }
  }

  /** What is presented is no older than any presentable version sampled. */
  lemma SampledIsApplied(sid: Sid, acts: seq<Act>, c: Comp, loader: Loader, v: nat)
    requires Run(Start(), sid, acts) == Some(c) && Settled(c, sid)
    requires Presentable(Pushed(ServerActs(acts), X509), loader, v) && Samples(ServerActs(acts), sid, X509, v)
    ensures v <= AppliedVersion(c, sid, loader)
  {
    SnapsAreSampled(sid, acts, c, v);
    var k := SampledIsEaten(sid, acts, c, v);
    EatenVersion(sid, acts, c, k, loader.LastUsable(c.eaten).value);
  }

  lemma EatenWasPushed(sid: Sid, acts: seq<Act>, c: Comp, l: nat)
    requires Run(Start(), sid, acts) == Some(c) && l < |c.eaten|
    ensures sid in c.sys.streams && l < |c.sys.streams[sid].sent|
    ensures var st, pushed := c.sys.streams[sid], Pushed(ServerActs(acts), X509);
            && st.sent[l] < |st.snaps| && 1 <= st.snaps[st.sent[l]] <= |pushed|
            && pushed[st.snaps[st.sent[l]] - 1].Some?
            && ToProto(pushed[st.snaps[st.sent[l]] - 1].value) == Some(c.eaten[l])
  {
    Reachable(sid, acts, c);
    EatenWasSent(c, sid, l);
    SendsAreOrdered(ServerActs(acts), c.sys, sid, l);
  }

  /** A settled watcher has consumed the response for every version sampled, if it was not nil. */
  lemma SampledIsEaten(sid: Sid, acts: seq<Act>, c: Comp, v: nat) returns (k: nat)
    requires Run(Start(), sid, acts) == Some(c) && Settled(c, sid) && v in c.sys.streams[sid].snaps
    requires 1 <= v <= |Pushed(ServerActs(acts), X509)| && Pushed(ServerActs(acts), X509)[v - 1].Some?
    ensures k < |c.eaten| && k < |c.sys.streams[sid].sent| && c.sys.streams[sid].sent[k] < |c.sys.streams[sid].snaps|
    ensures c.sys.streams[sid].snaps[c.sys.streams[sid].sent[k]] == v
    ensures ToProto(Pushed(ServerActs(acts), X509)[v - 1].value) == Some(c.eaten[k])
  {
    Reachable(sid, acts, c);
    var st := c.sys.streams[sid];
    assert c.eaten + c.queue == c.eaten && st.topic == X509;
    k := SampledIsSent(ServerActs(acts), c.sys, sid, v);
    EatenWasPushed(sid, acts, c, k);
  }

  lemma SampledIsSent(acts: seq<Action<X509State>>, s: Sys<X509State>, sid: Sid, v: nat) returns (k: nat)
    requires Reaches(acts, s) && At(s, sid, AtSelect) && s.streams[sid].topic == X509 && v in s.streams[sid].snaps
    requires 1 <= v <= |Pushed(acts, X509)| && Pushed(acts, X509)[v - 1].Some?
    ensures k < |s.streams[sid].sent| && s.streams[sid].sent[k] < |s.streams[sid].snaps|
    ensures s.streams[sid].snaps[s.streams[sid].sent[k]] == v
  {
    ReachableStream(acts, s, sid);
    var st := s.streams[sid];
    var i :| 0 <= i < |st.snaps| && st.snaps[i] == v;
    assert s.x509.log[v] == Pushed(acts, X509)[v - 1];
    k := NotNilHas(s.x509.log, st.snaps, |st.snaps|, i);
  }

  /** A state replaced by nil before the stream looks is never sent, whatever was presented before. */
  lemma NilHidesAState(sid: Sid, acts: seq<Act>, c: Comp, x: X509State)
    requires Run(Start(), sid, acts) == Some(c) && Settled(c, sid)
    ensures var way := [Srv(Set(X509, Some(x))), Srv(Set(X509, None)), Srv(WakeNotify(sid)),
                        Srv(Capture(sid)), Srv(Snapshot(sid)), Srv(Send(sid, true))];
            && Run(c, sid, way).Some? && Settled(Run(c, sid, way).value, sid)
            && Run(c, sid, way).value.eaten == c.eaten
  {
    var way := [Srv(Set(X509, Some(x))), Srv(Set(X509, None)), Srv(WakeNotify(sid)),
                Srv(Capture(sid)), Srv(Snapshot(sid)), Srv(Send(sid, true))];
    Reachable(sid, acts, c);
    var c2 := SetThenNil(ServerActs(acts), c, sid, x, way);
    ParkOnNil(c2, sid, way);
    assert way[0..] == way;
  }

  lemma SetThenNil(acts: seq<Action<X509State>>, c: Comp, sid: Sid, x: X509State, way: seq<Act>) returns (c2: Comp)
    requires Reaches(acts, c.sys) && Settled(c, sid) && c.sys.streams[sid].topic == X509
    requires |way| == 6 && way[0] == Srv(Set(X509, Some(x))) && way[1] == Srv(Set(X509, None))
    ensures Run(c, sid, way[0..]) == Run(c2, sid, way[2..])
    ensures c2.queue == [] && c2.eaten == c.eaten && c2.sys.streams == c.sys.streams
    ensures c2.sys.x509.value.None? && c2.sys.x509.notify !in c2.sys.closed
    ensures c2.sys.streams[sid].notify in c2.sys.closed
  {
    ReachableStream(acts, c.sys, sid);
    OpenNotifyIsCurrent(c.sys, c.sys.streams[sid]);
    var c1 := RunAt(c, sid, way, 0);
    c2 := RunAt(c1, sid, way, 1);
    ReachesStep(acts, c.sys, way[0].a);
    ReachesStep(acts + [way[0].a], c1.sys, way[1].a);
    CurrentNotifyIsOpen(acts + [way[0].a] + [way[1].a], c2.sys, X509);
  }

  lemma ParkOnNil(c2: Comp, sid: Sid, way: seq<Act>)
    requires At(c2.sys, sid, AtSelect) && c2.sys.streams[sid].topic == X509 && c2.queue == []
    requires c2.sys.x509.value.None? && c2.sys.x509.notify !in c2.sys.closed
    requires c2.sys.streams[sid].notify in c2.sys.closed
    requires |way| == 6
    requires way[2] == Srv(WakeNotify(sid)) && way[3] == Srv(Capture(sid))
    requires way[4] == Srv(Snapshot(sid)) && way[5] == Srv(Send(sid, true))
    ensures Run(c2, sid, way[2..]).Some? && Settled(Run(c2, sid, way[2..]).value, sid)
    ensures Run(c2, sid, way[2..]).value.eaten == c2.eaten
  {
    var c3 := RunAt(c2, sid, way, 2);
    var c4 := RunAt(c3, sid, way, 3);
    var c5 := RunAt(c4, sid, way, 4);
    var c6 := RunAt(c5, sid, way, 5);
  }

  lemma RunAt(c: Comp, sid: Sid, acts: seq<Act>, i: nat) returns (c': Comp)
    requires i < |acts| && Can(c, sid, acts[i])
    ensures c' == Do(c, sid, acts[i])
    ensures Run(c, sid, acts[i..]) == Run(c', sid, acts[i + 1..])
  {
    c' := Do(c, sid, acts[i]);
    assert acts[i..][1..] == acts[i + 1..];
  }
}
