/** The X.509 state of the mock server and the responses its FetchX509SVID stream carries. */
module X509Messages {
  import opened Wrappers
  import opened Der

  /** `key` is the PKCS #8 encoding, or None when marshalling the key fails. */
  datatype Material = Material(
    spiffeId: string, certDer: Bytes, intermediates: seq<Bytes>, key: Option<Bytes>, caCertDer: Bytes, hint: string)

  datatype X509State = X509State(
    materials: seq<Material>, trustBundle: seq<Bytes>, federatedBundles: map<string, seq<Bytes>>)

  datatype Svid = Svid(spiffeId: string, chain: Bytes, key: Bytes, bundle: Bytes, hint: string)

  datatype Response = Response(svids: seq<Svid>, federatedBundles: map<string, Bytes>)

  /** The leaf followed by its intermediates; the root is not included. */
  function CertChain(m: Material): seq<Bytes> {
    [m.certDer] + m.intermediates
  }

  function OwnBundle(state: X509State): Bytes {
    if |state.trustBundle| > 0 then Join(state.trustBundle)
    else if |state.materials| > 0 then state.materials[0].caCertDer
    else []
  }

  function Convertible(state: X509State): bool {
    forall i | 0 <= i < |state.materials| :: state.materials[i].key.Some?
  }

  /** What a response for the state has to say, entry by entry. */
  ghost predicate Represents(resp: Response, state: X509State) {
    && |resp.svids| == |state.materials|
    && (forall i | 0 <= i < |resp.svids| ::
          var m := state.materials[i];
          m.key.Some? && resp.svids[i] == Svid(m.spiffeId, Join(CertChain(m)), m.key.value, OwnBundle(state), m.hint))
    && resp.federatedBundles.Keys == state.federatedBundles.Keys
    && (forall td | td in resp.federatedBundles :: resp.federatedBundles[td] == Join(state.federatedBundles[td]))
  }

  function ToProto(state: X509State): (r: Option<Response>)
    ensures r.Some? <==> Convertible(state)
    ensures r.Some? ==> Represents(r.value, state)
  {
    if Convertible(state) then
      var svids := seq(|state.materials|, i requires 0 <= i < |state.materials| =>
        var m := state.materials[i];
        Svid(m.spiffeId, Join(CertChain(m)), if m.key.Some? then m.key.value else [], OwnBundle(state), m.hint));
      Some(Response(svids, map td | td in state.federatedBundles :: Join(state.federatedBundles[td])))
    else None
  }

  /**
   What the workload gets as its trust bundle, in every SVID of the response: the one set for the state
   if there is one, whichever CA issued the materials, and otherwise the first material's CA. Each chain
   is the leaf, then its intermediates; ID, key and hint are the material's; and every federated bundle
   comes with its trust domain.
   */
  lemma ResponseSays(resp: Response, state: X509State, i: nat)
    requires Represents(resp, state) && i < |resp.svids|
    ensures |state.trustBundle| > 0 ==> resp.svids[i].bundle == Join(state.trustBundle)
    ensures |state.trustBundle| == 0 ==> resp.svids[i].bundle == state.materials[0].caCertDer
    ensures |resp.svids| == |state.materials|
    ensures resp.svids[i].chain == state.materials[i].certDer + Join(state.materials[i].intermediates)
    ensures Some(resp.svids[i].key) == state.materials[i].key
    ensures resp.svids[i].spiffeId == state.materials[i].spiffeId && resp.svids[i].hint == state.materials[i].hint
    ensures forall td :: td in resp.federatedBundles <==> td in state.federatedBundles
    ensures forall td | td in resp.federatedBundles :: resp.federatedBundles[td] == Join(state.federatedBundles[td])
  {
    assert ([state.materials[i].certDer] + state.materials[i].intermediates)[1..] == state.materials[i].intermediates;
  }

  /** A state has exactly one response. */
  lemma RepresentsIsFunctional(a: Response, b: Response, state: X509State)
    requires Represents(a, state) && Represents(b, state)
    ensures a == b
  {
  }

  method X509StateToProto(state: X509State) returns (resp: Option<Response>)
    ensures resp == ToProto(state)
    ensures resp.None? <==> exists i :: 0 <= i < |state.materials| && state.materials[i].key.None?
    ensures resp.Some? ==> forall i | 0 <= i < |resp.value.svids| ::
              resp.value.svids[i].bundle ==
                if |state.trustBundle| > 0 then Join(state.trustBundle) else state.materials[0].caCertDer
  {
    var bundle := OwnBundle(state);
    var svids: seq<Svid> := [];
    for i := 0 to |state.materials|
      invariant |svids| == i
      invariant forall j | 0 <= j < i ::
        var m := state.materials[j];
        m.key.Some? && svids[j] == Svid(m.spiffeId, Join(CertChain(m)), m.key.value, bundle, m.hint)
    {
      var m := state.materials[i];
      if m.key.None? {
        return None;
      }
      svids := svids + [Svid(m.spiffeId, Join(CertChain(m)), m.key.value, bundle, m.hint)];
    }
    var federated: map<string, Bytes> := map[];
    var todo := state.federatedBundles.Keys;
    while todo != {}
      invariant todo <= state.federatedBundles.Keys
      invariant federated.Keys == state.federatedBundles.Keys - todo
      invariant forall td | td in federated :: federated[td] == Join(state.federatedBundles[td])
      decreases todo
    {
      var td :| td in todo;
      federated := federated[td := Join(state.federatedBundles[td])];
      todo := todo - {td};
    }
    resp := Some(Response(svids, federated));
    RepresentsIsFunctional(resp.value, ToProto(state).value, state);
  }
}
