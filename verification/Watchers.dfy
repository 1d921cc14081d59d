/** The two harnesses that consume the raw FetchX509SVID stream. */
module Watchers {
  import opened Wrappers
  import opened Der
  import opened X509Messages

  /** What the TLS server presents. */
  datatype Context = Context(certs: seq<Bytes>, key: Bytes)

  /**
   `parse` splits a certificate chain and `loads` says whether the key parses and the TLS stack takes
   the pair; either failing is the exception both harnesses catch.
   */
  datatype Loader = Loader(parse: Bytes -> Option<seq<Bytes>>, loads: (seq<Bytes>, Bytes) -> bool) {
    /** The context made from the default identity, if there is a usable one. */
    function Load(resp: Response): Option<Context> {
      if |resp.svids| == 0 then None
      else
        var svid := resp.svids[0];
        match parse(svid.chain)
        case None => None
        case Some(certs) => if loads(certs, svid.key) then Some(Context(certs, svid.key)) else None
    }

    ghost predicate Usable(resp: Response) {
      Load(resp).Some?
    }

    /**
     What makes a response usable, and what is made of it: it has an SVID, the first one's chain splits,
     and the TLS stack takes the certificates with its key.
     */
    lemma LoadMeans(resp: Response)
      ensures Usable(resp) <==>
                && |resp.svids| > 0 && parse(resp.svids[0].chain).Some?
                && loads(parse(resp.svids[0].chain).value, resp.svids[0].key)
      ensures Usable(resp) ==> Load(resp) == Some(Context(parse(resp.svids[0].chain).value, resp.svids[0].key))
      ensures !Usable(resp) ==> Load(resp) == None
    {
    }

    /** node-spiffe's `serving` after these responses. */
    ghost predicate Serving(resps: seq<Response>) {
      |resps| > 0 && Usable(resps[|resps| - 1])
    }

    /** The last response that could be loaded. */
    ghost function LastUsable(resps: seq<Response>): (r: Option<nat>)
      ensures r.Some? ==> r.value < |resps| && Usable(resps[r.value])
      ensures r.Some? ==> forall i | r.value < i < |resps| :: !Usable(resps[i])
      ensures r.None? ==> forall i | 0 <= i < |resps| :: !Usable(resps[i])
    {
      if |resps| == 0 then None
      else if Usable(resps[|resps| - 1]) then Some(|resps| - 1)
      else LastUsable(resps[..|resps| - 1])
    }

    /** The context of the last usable response, if any. */
    ghost function LastGood(resps: seq<Response>): Option<Context> {
      match LastUsable(resps)
      case None => None
      case Some(i) => Load(resps[i])
    }
  }

  /** jeengbe-spiffe: keeps serving the last response it could load. */
  class JeengbeWatcher {
    const loader: Loader
    var current: Option<Context>
    var firstSvid: bool

    constructor (loads: (seq<Bytes>, Bytes) -> bool)
      ensures loader == Loader(Walk, loads) && current.None? && !firstSvid
    {
      loader := Loader(Walk, loads);
      current, firstSvid := None, false;
    }

    method OnResponse(resp: Response)
      requires loader.parse == Walk
      modifies this
      ensures current == if loader.Usable(resp) then loader.Load(resp) else old(current)
      ensures firstSvid == (old(firstSvid) || loader.Usable(resp))
      ensures |resp.svids| == 0 || Walk(resp.svids[0].chain).None?
                || !loader.loads(Walk(resp.svids[0].chain).value, resp.svids[0].key) ==>
                current == old(current) && firstSvid == old(firstSvid)
    {
      if |resp.svids| == 0 {
        return;
      }
      var svid := resp.svids[0];
      var certs := DerChainToPem(svid.chain);
      if certs.Some? && loader.loads(certs.value, svid.key) {
        current := Some(Context(certs.value, svid.key));
        firstSvid := true;
      }
    }

    /** Until the stream ends; the harness exits when it never had an identity. */
    method WatchX509(resps: seq<Response>) returns (exit: bool)
      requires loader.parse == Walk && current.None? && !firstSvid
      modifies this
      ensures current == loader.LastGood(resps) && firstSvid == current.Some?
      ensures exit <==> forall i | 0 <= i < |resps| :: !loader.Usable(resps[i])
    {
      for i := 0 to |resps|
        invariant current == loader.LastGood(resps[..i]) && firstSvid == current.Some?
      {
        OnResponse(resps[i]);
        assert resps[..i + 1][..i] == resps[..i];
      }
      assert resps[..|resps|] == resps;
      exit := current.None?;
    }
  }

  /** node-spiffe: an unusable response leaves the port without an identity. */
  class NodeWatcher {
    const loader: Loader
    var serving: bool
    var firstSvid: bool
    var readySignals: nat
    var context: Option<Context>

    constructor (loader: Loader)
      ensures this.loader == loader && !serving && firstSvid && readySignals == 0 && context.None?
    {
      this.loader := loader;
      serving, firstSvid, readySignals, context := false, true, 0, None;
    }

    method ApplyX509Response(resp: Response)
      modifies this
      ensures serving == loader.Usable(resp)
      ensures context == if loader.Usable(resp) then loader.Load(resp) else old(context)
      ensures firstSvid == (old(firstSvid) && !loader.Usable(resp))
      ensures readySignals == old(readySignals) + if old(firstSvid) && loader.Usable(resp) then 1 else 0
      ensures serving <==>
                && |resp.svids| > 0 && loader.parse(resp.svids[0].chain).Some?
                && loader.loads(loader.parse(resp.svids[0].chain).value, resp.svids[0].key)
      ensures serving ==> context == Some(Context(loader.parse(resp.svids[0].chain).value, resp.svids[0].key))
      ensures !serving ==> context == old(context) && readySignals == old(readySignals)
    {
      if |resp.svids| == 0 {
        serving := false;
        return;
      }
      var svid := resp.svids[0];
      var certs := loader.parse(svid.chain);
      if certs.None? || !loader.loads(certs.value, svid.key) {
        serving := false;
        return;
      }
      context := Some(Context(certs.value, svid.key));
      serving := true;
      if firstSvid {
        firstSvid := false;
        readySignals := readySignals + 1;
      }
    }

    /**
     `serving` holds exactly when the last response was usable, and then the port presents that
     response; ready is signalled once if any response was usable and never otherwise.
     */
    method WatchX509(resps: seq<Response>)
      requires !serving && firstSvid && readySignals == 0 && context.None?
      modifies this
      ensures serving <==> loader.Serving(resps)
      ensures serving ==> context == loader.Load(resps[|resps| - 1])
      ensures context == loader.LastGood(resps)
      ensures readySignals == if exists i :: 0 <= i < |resps| && loader.Usable(resps[i]) then 1 else 0
    {
      for i := 0 to |resps|
        invariant serving <==> loader.Serving(resps[..i])
        invariant context == loader.LastGood(resps[..i])
        invariant firstSvid <==> loader.LastUsable(resps[..i]).None?
        invariant readySignals == if firstSvid then 0 else 1
      {
        ApplyX509Response(resps[i]);
        assert resps[..i + 1][..i] == resps[..i];
      }
      assert resps[..|resps|] == resps;
    }
  }
}
