/** Building a JWT-SVID: the options of IssueJWT and the claims and headers they produce. */
module Tokens {
  import opened Wrappers

  datatype Value = Text(s: string) | Number(n: int) | Texts(ss: seq<string>)

  datatype Opt =
    | WithKey(key: Option<nat>)
    | WithTTL(ttl: int)
    | WithAudience(audience: seq<string>)
    | WithClaim(name: string, value: Value)
    | DeleteClaim(name: string)
    | WithHeader(name: string, value: Value)

  const DEFAULT_TTL := 3600
  const DEFAULT_AUDIENCE: seq<string> := ["test"]

  // What the options mean, option by option from the last one backwards.

  function LastTTL(opts: seq<Opt>): int {
    if opts == [] then DEFAULT_TTL
    else if opts[|opts| - 1].WithTTL? then opts[|opts| - 1].ttl
    else LastTTL(opts[..|opts| - 1])
  }

  function LastAudience(opts: seq<Opt>): seq<string> {
    if opts == [] then DEFAULT_AUDIENCE
    else if opts[|opts| - 1].WithAudience? then opts[|opts| - 1].audience
    else LastAudience(opts[..|opts| - 1])
  }

  function LastKey(opts: seq<Opt>): Option<nat> {
    if opts == [] then None
    else if opts[|opts| - 1].WithKey? then opts[|opts| - 1].key
    else LastKey(opts[..|opts| - 1])
  }

  function LastClaim(opts: seq<Opt>, name: string): Option<Value> {
    if opts == [] then None
    else if opts[|opts| - 1].WithClaim? && opts[|opts| - 1].name == name then Some(opts[|opts| - 1].value)
    else LastClaim(opts[..|opts| - 1], name)
  }

  function LastHeader(opts: seq<Opt>, name: string): Option<Value> {
    if opts == [] then None
    else if opts[|opts| - 1].WithHeader? && opts[|opts| - 1].name == name then Some(opts[|opts| - 1].value)
    else LastHeader(opts[..|opts| - 1], name)
  }

  function StandardClaim(spiffeID: string, now: int, opts: seq<Opt>, name: string): Option<Value> {
    if name == "sub" then Some(Text(spiffeID))
    else if name == "aud" then Some(Texts(LastAudience(opts)))
    else if name == "iat" then Some(Number(now))
    else if name == "exp" then Some(Number(now + LastTTL(opts)))
    else None
  }

  /** A deleted claim is absent, whatever sets it; otherwise the last setting wins over the default. */
  function ClaimOf(spiffeID: string, now: int, opts: seq<Opt>, name: string): Option<Value> {
    if DeleteClaim(name) in opts then None
    else if LastClaim(opts, name).Some? then LastClaim(opts, name)
    else StandardClaim(spiffeID, now, opts, name)
  }

  function HeaderOf(alg: string, kid: string, opts: seq<Opt>, name: string): Option<Value> {
    if LastHeader(opts, name).Some? then LastHeader(opts, name)
    else if name == "typ" then Some(Text("JWT"))
    else if name == "alg" then Some(Text(alg))
    else if name == "kid" then Some(Text(kid))
    else None
  }

  ghost predicate Is(m: map<string, Value>, of: string -> Option<Value>) {
    forall name: string :: of(name) == if name in m then Some(m[name]) else None
  }

  /** jwtSVIDConfig, which the option closures update in place. */
  class Config {
    var ttl: int
    var audience: seq<string>
    var extra: map<string, Value>
    var deleteClaims: seq<string>
    var extraHeaders: map<string, Value>
    var key: Option<nat>

    ghost predicate Applied(opts: seq<Opt>)
      reads this
    {
      && ttl == LastTTL(opts) && audience == LastAudience(opts) && key == LastKey(opts)
      && Is(extra, name => LastClaim(opts, name))
      && Is(extraHeaders, name => LastHeader(opts, name))
      && (forall name :: name in deleteClaims <==> DeleteClaim(name) in opts)
    }

    constructor ()
      ensures Applied([])
    {
      ttl, audience, extra, deleteClaims, extraHeaders, key := DEFAULT_TTL, DEFAULT_AUDIENCE, map[], [], map[], None;
    }

    method Apply(o: Opt, ghost before: seq<Opt>)
      requires Applied(before)
      modifies this
      ensures Applied(before + [o])
    {
      assert (before + [o])[..|before|] == before;
      match o
      case WithKey(k) => key := k;
      case WithTTL(d) => ttl := d;
      case WithAudience(aud) => audience := aud;
      case WithClaim(name, value) => extra := extra[name := value];
      case DeleteClaim(name) => deleteClaims := deleteClaims + [name];
      case WithHeader(name, value) => extraHeaders := extraHeaders[name := value];
    }
  }

  datatype Key = Key(id: nat, alg: string, kid: string)

  datatype Token = Token(key: Key, headers: map<string, Value>, claims: map<string, Value>)

  /** Copies one map over another, in whatever order the runtime iterates. */
  method Override(base: map<string, Value>, over: map<string, Value>) returns (m: map<string, Value>)
    ensures m == base + over
  {
    m := base;
    var todo := over.Keys;
    while todo != {}
      invariant todo <= over.Keys
      invariant m == base + map name | name in over.Keys - todo :: over[name]
      decreases todo
    {
      var name :| name in todo;
      m := m[name := over[name]];
      todo := todo - {name};
    }
    assert over == map name | name in over.Keys :: over[name];
  }

  method Without(base: map<string, Value>, names: seq<string>) returns (m: map<string, Value>)
    ensures m == base - (set name | name in names)
  {
    m := base;
    for i := 0 to |names|
      invariant m == base - (set name | name in names[..i])
    {
      m := m - {names[i]};
    }
    assert names[..|names|] == names;
  }

  method BuildConfig(opts: seq<Opt>) returns (cfg: Config)
    ensures fresh(cfg) && cfg.Applied(opts)
  {
    cfg := new Config();
    for i := 0 to |opts|
      invariant fresh(cfg) && cfg.Applied(opts[..i])
    {
      cfg.Apply(opts[i], opts[..i]);
      assert opts[..i + 1] == opts[..i] + [opts[i]];
    }
    assert opts[..|opts|] == opts;
  }

  method BuildClaims(spiffeID: string, now: int, cfg: Config, ghost opts: seq<Opt>) returns (claims: map<string, Value>)
    requires cfg.Applied(opts)
    ensures Is(claims, name => ClaimOf(spiffeID, now, opts, name))
  {
    claims := map["sub" := Text(spiffeID), "aud" := Texts(cfg.audience),
                  "iat" := Number(now), "exp" := Number(now + cfg.ttl)];
    assert Is(claims, name => StandardClaim(spiffeID, now, opts, name));
    claims := Override(claims, cfg.extra);
    claims := Without(claims, cfg.deleteClaims);
  }

  method BuildHeaders(key: Key, cfg: Config, ghost opts: seq<Opt>) returns (headers: map<string, Value>)
    requires cfg.Applied(opts)
    ensures Is(headers, name => HeaderOf(key.alg, key.kid, opts, name))
  {
    headers := map["typ" := Text("JWT"), "alg" := Text(key.alg), "kid" := Text(key.kid)];
    headers := Override(headers, cfg.extraHeaders);
  }

  datatype IssueError = NoKey | UnsupportedAlgorithm | SigningFailed

  /**
   IssueJWT: `keys` are the keys options can name and `first` is the CA's first JWT key, which also
   signs when the last WithJWTKey gave nil. `supports` is what the JWT library knows, and `signs`
   tells whether it can encode and sign the token. Each error has its cause, in this order; without
   one the claims are exactly `ClaimOf`, for any list of options.
   */
  method IssueJWT(
      spiffeID: string, now: int, opts: seq<Opt>, keys: map<nat, Key>, first: Option<Key>,
      supports: string -> bool, signs: Token -> bool) returns (r: Result<Token, IssueError>)
    requires forall o | o in opts && o.WithKey? && o.key.Some? :: o.key.value in keys
    ensures r == Err(NoKey) <==> LastKey(opts).None? && first.None?
    ensures LastKey(opts).Some? ==> LastKey(opts).value in keys
    ensures r != Err(NoKey) ==>
              var key := if LastKey(opts).Some? then keys[LastKey(opts).value] else first.value;
              && (r == Err(UnsupportedAlgorithm) <==> !supports(key.alg))
              && (r == Err(SigningFailed) ==>
                    exists t :: IsToken(t, key, spiffeID, now, opts) && !signs(t))
              && (r.Ok? ==> IsToken(r.value, key, spiffeID, now, opts) && signs(r.value))
  {
    var cfg := BuildConfig(opts);
    KeyIsGiven(opts);
    var key;
    if cfg.key.None? {
      if first.None? {
        return Err(NoKey);
      }
      key := first.value;
    } else {
      key := keys[cfg.key.value];
    }
    if !supports(key.alg) {
      return Err(UnsupportedAlgorithm);
    }
    var claims := BuildClaims(spiffeID, now, cfg, opts);
    var headers := BuildHeaders(key, cfg, opts);
    var token := Token(key, headers, claims);
    assert IsToken(token, key, spiffeID, now, opts);
    r := if signs(token) then Ok(token) else Err(SigningFailed);
  }

  ghost predicate IsToken(t: Token, key: Key, spiffeID: string, now: int, opts: seq<Opt>) {
    && t.key == key
    && Is(t.claims, name => ClaimOf(spiffeID, now, opts, name))
    && Is(t.headers, name => HeaderOf(key.alg, key.kid, opts, name))
  }

  /** Both options set the same thing. */
  predicate SameTarget(a: Opt, b: Opt) {
    match (a, b)
    case (WithKey(_), WithKey(_)) => true
    case (WithTTL(_), WithTTL(_)) => true
    case (WithAudience(_), WithAudience(_)) => true
    case (WithClaim(m, _), WithClaim(n, _)) => m == n
    case (WithHeader(m, _), WithHeader(n, _)) => m == n
    case _ => false
  }

  /** Option `i` is the last to set what it sets. */
  ghost predicate IsLast(opts: seq<Opt>, i: nat) {
    i < |opts| && forall j | i < j < |opts| :: !SameTarget(opts[i], opts[j])
  }

  lemma {:induction false} LastWins(opts: seq<Opt>, i: nat)
    requires IsLast(opts, i)
    ensures match opts[i]
            case WithKey(k) => LastKey(opts) == k
            case WithTTL(d) => LastTTL(opts) == d
            case WithAudience(aud) => LastAudience(opts) == aud
            case WithClaim(n, v) => LastClaim(opts, n) == Some(v)
            case WithHeader(n, v) => LastHeader(opts, n) == Some(v)
            case DeleteClaim(_) => true
  {
    if i < |opts| - 1 {
      assert !SameTarget(opts[i], opts[|opts| - 1]);
      LastWins(opts[..|opts| - 1], i);
    }
  }

  lemma {:induction false} NothingSet(opts: seq<Opt>, name: string)
    ensures (forall o | o in opts :: !o.WithKey?) ==> LastKey(opts) == None
    ensures (forall o | o in opts :: !o.WithTTL?) ==> LastTTL(opts) == 3600
    ensures (forall o | o in opts :: !o.WithAudience?) ==> LastAudience(opts) == ["test"]
    ensures (forall o | o in opts :: !(o.WithClaim? && o.name == name)) ==> LastClaim(opts, name) == None
    ensures (forall o | o in opts :: !(o.WithHeader? && o.name == name)) ==> LastHeader(opts, name) == None
  {
    if opts != [] {
      NothingSet(opts[..|opts| - 1], name);
      assert opts[|opts| - 1] in opts;
    }
  }

  /** Deleting a claim beats setting it, whether before or after, and beats the default. */
  lemma DeletedIsAbsent(t: Token, key: Key, spiffeID: string, now: int, opts: seq<Opt>, name: string)
    requires IsToken(t, key, spiffeID, now, opts) && DeleteClaim(name) in opts
    ensures name !in t.claims
  {
    assert ClaimOf(spiffeID, now, opts, name) == None;
  }

  /** A claim that is not deleted has the value it was last set to; so has a header. */
  lemma LastSettingCounts(t: Token, key: Key, spiffeID: string, now: int, opts: seq<Opt>, i: nat)
    requires IsToken(t, key, spiffeID, now, opts) && IsLast(opts, i)
    ensures opts[i].WithClaim? && DeleteClaim(opts[i].name) !in opts ==>
              opts[i].name in t.claims && t.claims[opts[i].name] == opts[i].value
    ensures opts[i].WithHeader? ==> opts[i].name in t.headers && t.headers[opts[i].name] == opts[i].value
  {
    LastWins(opts, i);
    if opts[i].WithClaim? && DeleteClaim(opts[i].name) !in opts {
      assert ClaimOf(spiffeID, now, opts, opts[i].name) == Some(opts[i].value);
    }
    if opts[i].WithHeader? {
      assert HeaderOf(key.alg, key.kid, opts, opts[i].name) == Some(opts[i].value);
    }
  }

  /**
   A claim neither set nor deleted: the four standard ones have their values, for the last audience and
   lifetime given, or else "test" and one hour; no other exists. So with the three standard headers.
   */
  lemma DefaultsOtherwise(t: Token, key: Key, spiffeID: string, now: int, opts: seq<Opt>, name: string)
    requires IsToken(t, key, spiffeID, now, opts)
    ensures DeleteClaim(name) !in opts && (forall o | o in opts :: !(o.WithClaim? && o.name == name)) ==>
              && (name in t.claims <==> name in {"sub", "aud", "iat", "exp"})
              && (name == "sub" ==> t.claims[name] == Text(spiffeID))
              && (name == "iat" ==> t.claims[name] == Number(now))
              && (name == "exp" && (forall o | o in opts :: !o.WithTTL?) ==> t.claims[name] == Number(now + 3600))
              && (name == "aud" && (forall o | o in opts :: !o.WithAudience?) ==> t.claims[name] == Texts(["test"]))
              && (forall i: nat | IsLast(opts, i) ::
                    && (name == "exp" && opts[i].WithTTL? ==> t.claims[name] == Number(now + opts[i].ttl))
                    && (name == "aud" && opts[i].WithAudience? ==> t.claims[name] == Texts(opts[i].audience)))
    ensures (forall o | o in opts :: !(o.WithHeader? && o.name == name)) ==>
              && (name in t.headers <==> name in {"typ", "alg", "kid"})
              && (name == "typ" ==> t.headers[name] == Text("JWT"))
              && (name == "alg" ==> t.headers[name] == Text(key.alg))
              && (name == "kid" ==> t.headers[name] == Text(key.kid))
  {
    NothingSet(opts, name);
    var claim := ClaimOf(spiffeID, now, opts, name);
    var header := HeaderOf(key.alg, key.kid, opts, name);
    assert claim == if name in t.claims then Some(t.claims[name]) else None;
    assert header == if name in t.headers then Some(t.headers[name]) else None;
    forall i: nat | IsLast(opts, i)
      ensures opts[i].WithTTL? ==> LastTTL(opts) == opts[i].ttl
      ensures opts[i].WithAudience? ==> LastAudience(opts) == opts[i].audience
    {
      LastWins(opts, i);
    }
  }

  /** The options leave no freedom: there is one token for them, and so IssueJWT fails iff that one cannot be signed. */
  lemma TokenIsUnique(t: Token, u: Token, key: Key, spiffeID: string, now: int, opts: seq<Opt>)
    requires IsToken(t, key, spiffeID, now, opts) && IsToken(u, key, spiffeID, now, opts)
    ensures t == u
  {
    SameMap(t.claims, u.claims, name => ClaimOf(spiffeID, now, opts, name));
    SameMap(t.headers, u.headers, name => HeaderOf(key.alg, key.kid, opts, name));
  }

  lemma SameMap(m: map<string, Value>, n: map<string, Value>, of: string -> Option<Value>)
    requires Is(m, of) && Is(n, of)
    ensures m == n
  {
    forall name ensures name in m <==> name in n {
      assert of(name) == if name in m then Some(m[name]) else None;
    }
    forall name | name in m ensures m[name] == n[name] {
      assert of(name) == Some(m[name]);
    }
  }

  lemma {:induction false} KeyIsGiven(opts: seq<Opt>)
    ensures LastKey(opts).Some? ==> WithKey(LastKey(opts)) in opts
  {
    if opts != [] && !opts[|opts| - 1].WithKey? {
      KeyIsGiven(opts[..|opts| - 1]);
    }
  }

  /** The options assign the same thing, so that the later one wins. */
  predicate Compete(a: Opt, b: Opt) {
    SameTarget(a, b) && !a.WithKey? && !a.WithHeader?
  }

  lemma {:induction false} AppendKeepsClaims(a: seq<Opt>, b: seq<Opt>, o: Opt, name: string)
    requires LastClaim(a, name) == LastClaim(b, name) && LastTTL(a) == LastTTL(b) && LastAudience(a) == LastAudience(b)
    ensures LastClaim(a + [o], name) == LastClaim(b + [o], name)
    ensures LastTTL(a + [o]) == LastTTL(b + [o]) && LastAudience(a + [o]) == LastAudience(b + [o])
  {
  }

  /**
   Exchanging two neighbouring options changes no claim unless they assign the same thing; in
   particular it never matters whether a claim is deleted before or after it is set.
   */
  lemma {:induction false} OrderOnlyMattersBetweenRivals(
      spiffeID: string, now: int, a: seq<Opt>, x: Opt, y: Opt, b: seq<Opt>, name: string)
    requires !Compete(x, y)
    ensures ClaimOf(spiffeID, now, a + [x, y] + b, name) == ClaimOf(spiffeID, now, a + [y, x] + b, name)
    decreases |b|
  {
    Exchanged(a, x, y, b, name);
    forall o ensures o in a + [x, y] + b <==> o in a + [y, x] + b {
    }
  }

  lemma {:induction false} Exchanged(a: seq<Opt>, x: Opt, y: Opt, b: seq<Opt>, name: string)
    requires !Compete(x, y)
    ensures var p, q := a + [x, y] + b, a + [y, x] + b;
            LastClaim(p, name) == LastClaim(q, name) && LastTTL(p) == LastTTL(q) && LastAudience(p) == LastAudience(q)
    decreases |b|
  {
    var p, q := a + [x, y] + b, a + [y, x] + b;
    if b == [] {
      assert p == a + [x] + [y] && q == a + [y] + [x];
      assert p[..|p| - 1] == a + [x] && q[..|q| - 1] == a + [y];
      assert (a + [x])[..|a|] == a && (a + [y])[..|a|] == a;
    } else {
      var init := b[..|b| - 1];
      Exchanged(a, x, y, init, name);
      AppendKeepsClaims(a + [x, y] + init, a + [y, x] + init, b[|b| - 1], name);
      assert p == a + [x, y] + init + [b[|b| - 1]] && q == a + [y, x] + init + [b[|b| - 1]];
    }
  }
}
