/**
 The JWT test cases against an arbitrary harness: its answer to a request may depend on everything
 that happened before, so what a test concludes can only come from the answers it saw.
 */
module Verdict {
  import opened Wrappers
  import opened ErrorTrees
  import Polling

  type Token = string

  /** The body of an HTTP response: a JSON object with the two fields looked at, or something else. */
  datatype Body = NotJson | Json(status: string, id: string)

  datatype Reply = NoReply | Http(code: int, body: Body)

  datatype Event = Serve(bundle: string) | Ask(token: Token, reply: Reply)

  type Trace = seq<Event>

  type Harness = (Trace, Token) -> Reply

  datatype Outcome = OutcomeOK | OutcomeRejected | OutcomeError | OutcomeUnsupported

  function OutcomeOf(status: string): Option<Outcome> {
    if status == "ok" then Some(OutcomeOK)
    else if status == "rejected" then Some(OutcomeRejected)
    else if status == "error" then Some(OutcomeError)
    else if status == "unsupported" then Some(OutcomeUnsupported)
    else None
  }

  function StatusFor(o: Outcome): int {
    match o
    case OutcomeOK => 200
    case OutcomeRejected => 422
    case OutcomeError => 500
    case OutcomeUnsupported => 501
  }

  /** Control.post: None is an error, including every breach of the response contract. */
  function Post(reply: Reply): Option<(Outcome, string)> {
    match reply
    case NoReply => None
    case Http(code, NotJson) => if code == 501 || code == 404 then Some((OutcomeUnsupported, "")) else None
    case Http(code, Json(status, id)) =>
      match OutcomeOf(status)
      case None => None
      case Some(o) => if StatusFor(o) == code then Some((o, id)) else None
  }

  datatype JWTVerdict = JWTVerdict(accepted: bool, id: string)

  /** TestEnv.ValidateJWT for the audience the JWT tests use, with and without a control port. */
  function Judge(v1: bool, reply: Reply): Result<JWTVerdict, Err> {
    if v1 then
      match Post(reply)
      case None => Err(Exec(Plain("call failed")))
      case Some((OutcomeOK, id)) => Ok(JWTVerdict(true, id))
      case Some((OutcomeRejected, _)) => Ok(JWTVerdict(false, ""))
      case Some((OutcomeUnsupported, _)) => Err(Skip("harness does not support JWT validation"))
      case Some((OutcomeError, _)) => Err(Exec(Plain("harness could not validate the JWT")))
    else
      match reply
      case Http(code, Json(status, id)) => Ok(JWTVerdict(code == 200 && status == "valid", id))
      case _ => Err(Exec(Plain("probe failed")))
  }

  predicate Accepts(v1: bool, reply: Reply) {
    Judge(v1, reply).Ok? && Judge(v1, reply).value.accepted
  }

  predicate AcceptsAs(v1: bool, reply: Reply, id: string) {
    Accepts(v1, reply) && Judge(v1, reply).value.id == id
  }

  predicate Rejects(v1: bool, reply: Reply) {
    Judge(v1, reply).Ok? && !Judge(v1, reply).value.accepted
  }

  /**
   On the wire, a v1 harness accepts with 200 and "ok" and rejects with 422 and "rejected", nothing else;
   a v0 harness accepts with 200 and "valid" and rejects with every other JSON answer.
   */
  lemma WireMeaning(reply: Reply, id: string)
    ensures AcceptsAs(true, reply, id) <==> reply == Http(200, Json("ok", id))
    ensures Rejects(true, reply) <==> exists x :: reply == Http(422, Json("rejected", x))
    ensures AcceptsAs(false, reply, id) <==> reply == Http(200, Json("valid", id))
    ensures Rejects(false, reply) <==>
              reply.Http? && reply.body.Json? && !(reply.code == 200 && reply.body.status == "valid")
  {
  }

  /** The status of a test that ends because of this answer. */
  function StatusOf(v1: bool, reply: Reply): Status {
    match Judge(v1, reply)
    case Err(e) => Classify(Some(e))
    case Ok(_) => FAIL
  }

  predicate Unsupported(reply: Reply) {
    reply.Http? && match reply.body
                   case NotJson => reply.code == 404 || reply.code == 501
                   case Json(status, _) => reply.code == 501 && status == "unsupported"
  }

  predicate IsVerdict(reply: Reply) {
    reply.Http? && reply.body.Json?
    && ((reply.code == 200 && reply.body.status == "ok") || (reply.code == 422 && reply.body.status == "rejected"))
  }

  /**
   What the answer a test ends with makes of it. It never passes. With a control port it is skipped
   for exactly the two ways to say "unsupported", it fails for exactly a well-formed verdict, and all
   else is an ERROR: no answer, a status that contradicts the code, an unknown status, or "error".
   Without one every JSON answer is a verdict and everything else an ERROR.
   */
  lemma StatusOfReply(reply: Reply)
    ensures StatusOf(true, reply) == if Unsupported(reply) then SKIP else if IsVerdict(reply) then FAIL else ERROR
    ensures StatusOf(false, reply) == if reply.Http? && reply.body.Json? then FAIL else ERROR
  {
  }

  /** The trace after asking about the tokens in order. */
  function Asked(h: Harness, start: Trace, tokens: seq<Token>): Trace
    decreases |tokens|
  {
    if |tokens| == 0 then start
    else
      var before := Asked(h, start, tokens[..|tokens| - 1]);
      before + [Ask(tokens[|tokens| - 1], h(before, tokens[|tokens| - 1]))]
  }

  function ReplyTo(h: Harness, start: Trace, tokens: seq<Token>, i: nat): Reply
    requires i < |tokens|
  {
    h(Asked(h, start, tokens[..i]), tokens[i])
  }

  /**
   How a test goes that wants the first token accepted and all others rejected, when the suite
   manages to make the first `issued` of them. It makes `k` requests, each but the last answered as
   wanted. It passes if and only if all were made and answered so; otherwise its status is the one
   the last answer stands for, or ERROR if the next token could not be made.
   */
  ghost predicate Goes(
      h: Harness, v1: bool, start: Trace, id: string, tokens: seq<Token>, issued: nat,
      k: nat, err: Option<Err>, trace: Trace)
  {
    && k <= |tokens| && k <= issued
    && trace == Asked(h, start, tokens[..k])
    && (forall i | 0 <= i < k - 1 :: AsWanted(h, v1, start, id, tokens, i))
    && (err.None? <==> k == |tokens| && (k > 0 ==> AsWanted(h, v1, start, id, tokens, k - 1)))
    && (err.Some? ==>
          if k > 0 && !AsWanted(h, v1, start, id, tokens, k - 1)
          then Classify(err) == StatusOf(v1, ReplyTo(h, start, tokens, k - 1))
          else k == issued && Classify(err) == ERROR)
  }

  predicate AsWanted(h: Harness, v1: bool, start: Trace, id: string, tokens: seq<Token>, i: nat)
    requires i < |tokens|
  {
    if i == 0 then AcceptsAs(v1, ReplyTo(h, start, tokens, i), id) else Rejects(v1, ReplyTo(h, start, tokens, i))
  }

  class TestEnv {
    const v1: bool
    const harness: Harness
    var trace: Trace

    constructor (v1: bool, harness: Harness)
      ensures this.v1 == v1 && this.harness == harness && trace == []
    {
      this.v1, this.harness, trace := v1, harness, [];
    }

    method SetJWTState(bundle: string)
      modifies this
      ensures trace == old(trace) + [Serve(bundle)]
    {
      trace := trace + [Serve(bundle)];
    }

    method ValidateJWT(token: Token) returns (r: Result<JWTVerdict, Err>)
      modifies this
      ensures trace == old(trace) + [Ask(token, harness(old(trace), token))]
      ensures r == Judge(v1, harness(old(trace), token))
    {
      var reply := harness(trace, token);
      trace := trace + [Ask(token, reply)];
      r := Judge(v1, reply);
    }

    method ExpectAccepted(token: Token, wantID: string) returns (err: Option<Err>)
      modifies this
      ensures var reply := harness(old(trace), token);
              && trace == old(trace) + [Ask(token, reply)]
              && (err.None? <==> AcceptsAs(v1, reply, wantID))
              && (err.Some? ==> Classify(err) == StatusOf(v1, reply))
    {
      var v := ValidateJWT(token);
      match v
      case Err(e) => err := Some(e);
      case Ok(verdict) =>
        if !verdict.accepted {
          return Some(Plain("SDK rejected a valid JWT-SVID"));
        }
        if verdict.id != wantID {
          return Some(Plain("SDK returned another SPIFFE ID"));
        }
        err := None;
    }

    method ExpectRejected(token: Token) returns (err: Option<Err>)
      modifies this
      ensures var reply := harness(old(trace), token);
              && trace == old(trace) + [Ask(token, reply)]
              && (err.None? <==> Rejects(v1, reply))
              && (err.Some? ==> Classify(err) == StatusOf(v1, reply))
    {
      var v := ValidateJWT(token);
      match v
      case Err(e) => err := Some(e);
      case Ok(verdict) => err := if verdict.accepted then Some(Plain("SDK accepted a bad token")) else None;
    }

    /** `bundle` is None when the JWKS cannot be built, `canIssue` false when the token cannot. */
    method ServeBundleWithControl(bundle: Option<string>, valid: Token, canIssue: bool, id: string) returns (err: Option<Err>)
      modifies this
      ensures bundle.None? ==> trace == old(trace) && err.Some? && Classify(err) == ERROR
      ensures bundle.Some? && !canIssue ==>
                trace == old(trace) + [Serve(bundle.value)] && err.Some? && Classify(err) == ERROR
      ensures bundle.Some? && canIssue ==>
                var start := old(trace) + [Serve(bundle.value)];
                var reply := harness(start, valid);
                && trace == start + [Ask(valid, reply)]
                && (err.None? <==> AcceptsAs(v1, reply, id))
                && (err.Some? ==> Classify(err) == StatusOf(v1, reply))
    {
      if bundle.None? {
        return Some(Exec(Wrap(Plain("build JWKS"))));
      }
      SetJWTState(bundle.value);
      if !canIssue {
        return Some(Exec(Wrap(Plain("issue control JWT"))));
      }
      err := ExpectAccepted(valid, id);
      if err.Some? {
        ContextKeepsStatus(err.value, []);
        err := Some(Wrap(err.value));
      }
    }

    /**
     J2 to J12: serve the bundle, run the positive control, then expect every bad token to be
     rejected (J9 has two, the others one).
     */
    method ControlThenReject(bundle: Option<string>, tokens: seq<Token>, issued: nat, id: string)
        returns (err: Option<Err>, ghost k: nat)
      requires |tokens| > 1
      modifies this
      ensures bundle.None? ==> err.Some? && Classify(err) == ERROR && trace == old(trace)
      ensures bundle.Some? ==> Goes(harness, v1, old(trace) + [Serve(bundle.value)], id, tokens, issued, k, err, trace)
    {
      err := ServeBundleWithControl(bundle, tokens[0], issued > 0, id);
      k := 0;
      if bundle.None? {
        return;
      }
      ghost var start := old(trace) + [Serve(bundle.value)];
      if issued == 0 {
        return;
      }
      AskedOneMore(harness, start, tokens, 0);
      k := 1;
      if err.Some? {
        return;
      }
      for i := 1 to |tokens|
        invariant k == i <= issued && trace == Asked(harness, start, tokens[..k]) && err.None?
        invariant forall j | 0 <= j < k :: AsWanted(harness, v1, start, id, tokens, j)
      {
        if issued == i {
          return Some(Exec(Wrap(Plain("issue JWT")))), k;
        }
        AskedOneMore(harness, start, tokens, k);
        err := ExpectRejected(tokens[i]);
        k := k + 1;
        if err.Some? {
          return;
        }
      }
    }

    /**
     J13, key rotation. `setup` says how many of the five preparations work: token 1, bundle 1, the
     second CA, bundle 2, token 2. `n` counts the polls; the clock is read after each. Whatever the
     ending, the trace and the status are those of the step it ended at.
     */
    method RunJ13(p: Rotation, setup: nat, clock: nat -> int, cancelled: nat -> bool) returns (err: Option<Err>, n: nat)
      requires Polling.Ticks(clock)
      modifies this
      ensures n <= 52
      ensures n > 0 <==> setup >= 5 && AcceptsAs(v1, harness(old(trace) + [Serve(p.bundle1)], p.token1), p.id)
      ensures forall i | 0 <= i < n - 1 ::
                Rejects(v1, PollReply(harness, BeforePolls(harness, old(trace), p), p.token2, i))
      ensures err.None? <==> setup >= 5 && Rotated(harness, v1, old(trace), p, n)
                             && forall i | 1 <= i < n :: clock(i) <= clock(0) + 5000 && !cancelled(i)
      ensures n > 0 && Rejects(v1, PollReply(harness, BeforePolls(harness, old(trace), p), p.token2, n - 1)) ==>
                clock(n) > clock(0) + 5000 || cancelled(n)
      ensures trace == RotationTrace(harness, v1, old(trace), p, setup, n)
      ensures err.Some? ==> Classify(err) == RotationFailure(harness, v1, old(trace), p, setup, n)
    {
      n := 0;
      if setup < 1 {
        return Some(Exec(Wrap(Plain("issue JWT1")))), n;
      }
      if setup < 2 {
        return Some(Exec(Wrap(Plain("serve initial JWKS")))), n;
      }
      SetJWTState(p.bundle1);
      err := ExpectAccepted(p.token1, p.id);
      if err.Some? {
        ContextKeepsStatus(err.value, []);
        return Some(Wrap(err.value)), n;
      }
      if setup < 4 {
        return Some(Exec(Wrap(Plain("create ca2")))), n;
      }
      SetJWTState(p.bundle2);
      if setup < 5 {
        return Some(Exec(Wrap(Plain("issue JWT2")))), n;
      }
      var accepted;
      accepted, err, n := PollUntilAccepted(p.token2, clock, cancelled);
      if err.Some? {
        return;
      }
      err := ExpectRejected(p.token1);
    }

    method PollUntilAccepted(token: Token, clock: nat -> int, cancelled: nat -> bool)
        returns (accepted: bool, err: Option<Err>, n: nat)
      requires Polling.Ticks(clock)
      modifies this
      ensures 1 <= n <= 52 && trace == Polled(harness, old(trace), token, n)
      ensures forall i | 0 <= i < n - 1 :: Rejects(v1, PollReply(harness, old(trace), token, i))
      ensures forall i | 1 <= i < n :: clock(i) <= clock(0) + 5000 && !cancelled(i)
      ensures accepted <==> Accepts(v1, PollReply(harness, old(trace), token, n - 1))
      ensures accepted <==> err.None?
      ensures err.Some? ==> Classify(err) == StatusOf(v1, PollReply(harness, old(trace), token, n - 1))
      ensures err.Some? && Rejects(v1, PollReply(harness, old(trace), token, n - 1)) ==>
                clock(n) > clock(0) + 5000 || cancelled(n)
    {
      var deadline := clock(0) + 5000;
      n := 0;
      accepted, err := false, None;
      while true
        invariant trace == Polled(harness, old(trace), token, n)
        invariant forall i | 0 <= i < n :: Rejects(v1, PollReply(harness, old(trace), token, i))
        invariant forall i | 1 <= i <= n :: clock(i) <= deadline && !cancelled(i)
        decreases 52 - n
      {
        if n > 0 {
          Polling.RoundsAreBounded(clock, 5000, n);
        }
        var v := ValidateJWT(token);
        n := n + 1;
        match v {
          case Err(e) => return false, Some(e), n;
          case Ok(verdict) =>
            if verdict.accepted {
              return true, None, n;
            }
        }
        if clock(n) > deadline {
          return false, Some(Plain("SDK did not pick up the rotated JWT bundle within 5s")), n;
        }
        if cancelled(n) {
          return false, Some(Plain("context done")), n;
        }
      }
    }
  }

  lemma AskedOneMore(h: Harness, start: Trace, tokens: seq<Token>, i: nat)
    requires i < |tokens|
    ensures Asked(h, start, tokens[..i + 1]) == Asked(h, start, tokens[..i]) + [Ask(tokens[i], ReplyTo(h, start, tokens, i))]
    ensures i == 0 ==> Asked(h, start, tokens[..i]) == start
  {
    assert tokens[..i + 1][..i] == tokens[..i];
  }

  lemma {:induction false} AskedAt(h: Harness, start: Trace, tokens: seq<Token>, i: nat)
    requires i < |tokens|
    ensures |Asked(h, start, tokens)| == |start| + |tokens| && start <= Asked(h, start, tokens)
    ensures Asked(h, start, tokens)[|start| + i] == Ask(tokens[i], ReplyTo(h, start, tokens, i))
    ensures Asked(h, start, tokens)[..|start| + i] == Asked(h, start, tokens[..i])
    decreases |tokens|
  {
    var init := tokens[..|tokens| - 1];
    if |init| > 0 {
      AskedAt(h, start, init, 0);
    }
    if i < |init| {
      AskedAt(h, start, init, i);
      assert init[..i] == tokens[..i];
    }
  }

  /**
   What a PASS of J2 to J12 implies about a v1 harness: the control token was answered with 200, "ok"
   and exactly the expected ID, and every bad token after it with 422 and "rejected".
   */
  lemma PassMeansOnTheWire(h: Harness, start: Trace, id: string, tokens: seq<Token>, issued: nat, k: nat, trace: Trace, i: nat)
    requires Goes(h, true, start, id, tokens, issued, k, None, trace) && i < |tokens|
    ensures |trace| == |start| + |tokens| && start <= trace
    ensures trace[|start| + i].Ask? && trace[|start| + i].token == tokens[i]
    ensures trace[|start| + i].reply == h(trace[..|start| + i], tokens[i])
    ensures i == 0 ==> trace[|start|].reply == Http(200, Json("ok", id))
    ensures i > 0 ==> exists x :: trace[|start| + i].reply == Http(422, Json("rejected", x))
  {
    assert tokens[..k] == tokens;
    AskedAt(h, start, tokens, i);
    assert AsWanted(h, true, start, id, tokens, i);
    WireMeaning(ReplyTo(h, start, tokens, i), id);
  }

  /**
   A harness with one answer for everything never passes a test with a control; the status it gets
   is the one that answer stands for, FAIL for any verdict.
   */
  lemma ConstantHarness(
      h: Harness, r: Reply, v1: bool, start: Trace, id: string, tokens: seq<Token>, issued: nat,
      k: nat, err: Option<Err>, trace: Trace)
    requires forall t, token :: h(t, token) == r
    requires |tokens| > 1 && issued >= |tokens| && Goes(h, v1, start, id, tokens, issued, k, err, trace)
    ensures err.Some? && Classify(err) == StatusOf(v1, r) != PASS
  {
    assert forall i | 0 <= i < |tokens| :: ReplyTo(h, start, tokens, i) == r;
    assert AsWanted(h, v1, start, id, tokens, 0) <==> AcceptsAs(v1, r, id);
    assert AsWanted(h, v1, start, id, tokens, 1) <==> Rejects(v1, r);
  }

  // ---------------------------------------------------------------------------------------------
  // J13

  datatype Rotation = Rotation(token1: Token, bundle1: string, token2: Token, bundle2: string, id: string)

  function Polled(h: Harness, start: Trace, token: Token, n: nat): Trace {
    if n == 0 then start
    else Polled(h, start, token, n - 1) + [Ask(token, h(Polled(h, start, token, n - 1), token))]
  }

  function PollReply(h: Harness, start: Trace, token: Token, i: nat): Reply {
    h(Polled(h, start, token, i), token)
  }

  function BeforePolls(h: Harness, start: Trace, p: Rotation): Trace {
    var served := start + [Serve(p.bundle1)];
    served + [Ask(p.token1, h(served, p.token1))] + [Serve(p.bundle2)]
  }

  function AfterRotation(h: Harness, start: Trace, p: Rotation, n: nat): Trace {
    var polled := Polled(h, BeforePolls(h, start, p), p.token2, n);
    polled + [Ask(p.token1, h(polled, p.token1))]
  }

  /** How far J13 gets: the trace of any run of it, passing or not, that polls `n` times. */
  function RotationTrace(h: Harness, v1: bool, start: Trace, p: Rotation, setup: nat, n: nat): Trace {
    var served := start + [Serve(p.bundle1)];
    var before := BeforePolls(h, start, p);
    if setup < 2 then start
    else if setup < 4 || !AcceptsAs(v1, h(served, p.token1), p.id) then served + [Ask(p.token1, h(served, p.token1))]
    else if n == 0 || !Accepts(v1, PollReply(h, before, p.token2, n - 1)) then Polled(h, before, p.token2, n)
    else AfterRotation(h, start, p, n)
  }

  /** The status of a J13 that fails: ERROR for a preparation, otherwise what the last answer stands for. */
  function RotationFailure(h: Harness, v1: bool, start: Trace, p: Rotation, setup: nat, n: nat): Status {
    var first := h(start + [Serve(p.bundle1)], p.token1);
    var before := BeforePolls(h, start, p);
    if setup < 2 then ERROR
    else if !AcceptsAs(v1, first, p.id) then StatusOf(v1, first)
    else if setup < 5 || n == 0 then ERROR
    else if !Accepts(v1, PollReply(h, before, p.token2, n - 1)) then StatusOf(v1, PollReply(h, before, p.token2, n - 1))
    else StatusOf(v1, h(Polled(h, before, p.token2, n), p.token1))
  }

  /** The old key is accepted, then only rejections until the new one is, then the old is rejected. */
  ghost predicate Rotated(h: Harness, v1: bool, start: Trace, p: Rotation, n: nat) {
    var before := BeforePolls(h, start, p);
    && n >= 1
    && AcceptsAs(v1, h(start + [Serve(p.bundle1)], p.token1), p.id)
    && (forall i | 0 <= i < n - 1 :: Rejects(v1, PollReply(h, before, p.token2, i)))
    && Accepts(v1, PollReply(h, before, p.token2, n - 1))
    && Rejects(v1, h(Polled(h, before, p.token2, n), p.token1))
  }

  lemma {:induction false} PolledAt(h: Harness, start: Trace, token: Token, n: nat, i: nat)
    requires i < n
    ensures |Polled(h, start, token, n)| == |start| + n && start <= Polled(h, start, token, n)
    ensures Polled(h, start, token, n)[|start| + i] == Ask(token, PollReply(h, start, token, i))
    ensures Polled(h, start, token, n)[..|start| + i] == Polled(h, start, token, i)
  {
    PolledLength(h, start, token, n - 1);
    if i < n - 1 {
      PolledAt(h, start, token, n - 1, i);
      assert Polled(h, start, token, n)[..|start| + i] == Polled(h, start, token, n - 1)[..|start| + i];
    }
  }

  lemma {:induction false} PolledLength(h: Harness, start: Trace, token: Token, n: nat)
    ensures |Polled(h, start, token, n)| == |start| + n && start <= Polled(h, start, token, n)
  {
    if n > 0 {
      PolledLength(h, start, token, n - 1);
    }
  }

  /** The event at this place is a request about the token, answered on the strength of all before it. */
  predicate AsksAt(h: Harness, trace: Trace, at: nat, token: Token) {
    at < |trace| && trace[at] == Ask(token, h(trace[..at], token))
  }

  predicate AsksFor(h: Harness, trace: Trace, from: nat, n: nat, token: Token) {
    forall k | from <= k < from + n :: AsksAt(h, trace, k, token)
  }

  /**
   What J13 does, place by place, once it polls: it serves the first bundle, asks about token 1, serves
   the second bundle, asks about token 2 as often as it polls, and in the end, if token 2 was accepted,
   asks about token 1 again.
   */
  lemma RotationEvents(h: Harness, v1: bool, start: Trace, p: Rotation, setup: nat, n: nat)
    requires setup >= 5 && n > 0 && AcceptsAs(v1, h(start + [Serve(p.bundle1)], p.token1), p.id)
    ensures var trace, s := RotationTrace(h, v1, start, p, setup, n), |start|;
            && start <= trace && |trace| >= s + 3 + n
            && trace[s] == Serve(p.bundle1)
            && AsksAt(h, trace, s + 1, p.token1)
            && trace[s + 2] == Serve(p.bundle2)
            && AsksFor(h, trace, s + 3, n, p.token2) && AsksAt(h, trace, s + 2 + n, p.token2)
            && if Accepts(v1, trace[s + 2 + n].reply)
               then |trace| == s + 4 + n && AsksAt(h, trace, s + 3 + n, p.token1)
               else |trace| == s + 3 + n
  {
    var before, s := BeforePolls(h, start, p), |start|;
    var polled, trace := Polled(h, before, p.token2, n), RotationTrace(h, v1, start, p, setup, n);
    PolledLength(h, before, p.token2, n);
    assert trace[..s + 3 + n] == polled && polled[..s + 3] == before;
    assert trace[..s + 1] == before[..s + 1] == start + [Serve(p.bundle1)];
    PollsAsk(h, before, p.token2, n, trace);
    PolledAt(h, before, p.token2, n, n - 1);
  }

  lemma PollsAsk(h: Harness, before: Trace, token: Token, n: nat, trace: Trace)
    requires Polled(h, before, token, n) <= trace
    ensures AsksFor(h, trace, |before|, n, token)
  {
    forall k | |before| <= k < |before| + n ensures AsksAt(h, trace, k, token) {
      PolledAt(h, before, token, n, k - |before|);
      assert trace[..k] == Polled(h, before, token, n)[..k];
    }
  }

  /**
   What a PASS of J13 implies on the wire for a v1 harness: acceptance of token 1 with the exact ID, then
   rejections of token 2 until it is accepted, then the rejection of token 1.
   */
  lemma RotationOnTheWire(h: Harness, start: Trace, p: Rotation, setup: nat, n: nat, i: nat)
    requires setup >= 5 && Rotated(h, true, start, p, n) && i < n
    ensures var trace, s := RotationTrace(h, true, start, p, setup, n), |start|;
            && |trace| == s + 4 + n
            && trace[s + 1] == Ask(p.token1, Http(200, Json("ok", p.id)))
            && (i < n - 1 ==> exists x :: trace[s + 3 + i] == Ask(p.token2, Http(422, Json("rejected", x))))
            && (exists x :: trace[s + 2 + n] == Ask(p.token2, Http(200, Json("ok", x))))
            && (exists x :: trace[s + 3 + n] == Ask(p.token1, Http(422, Json("rejected", x))))
  {
    var before, s := BeforePolls(h, start, p), |start|;
    var polled, trace := Polled(h, before, p.token2, n), RotationTrace(h, true, start, p, setup, n);
    PolledLength(h, before, p.token2, n);
    PolledAt(h, before, p.token2, n, i);
    PolledAt(h, before, p.token2, n, n - 1);
    assert trace == polled + [Ask(p.token1, h(polled, p.token1))] && polled[..s + 3] == before;
    var accepted := PollReply(h, before, p.token2, n - 1);
    WireMeaning(h(start + [Serve(p.bundle1)], p.token1), p.id);
    WireMeaning(PollReply(h, before, p.token2, i), p.id);
    WireMeaning(accepted, Judge(true, accepted).value.id);
    WireMeaning(h(polled, p.token1), p.id);
  }

  /**
   How J13 ends when it does not get to poll, or does not pass. When a preparation fails, it has only done
   what came before and is an ERROR; otherwise its last event is a request, and it has the status that
   request's answer stands for.
   */
  lemma RotationStops(h: Harness, v1: bool, start: Trace, p: Rotation, setup: nat, n: nat)
    ensures var trace, status := RotationTrace(h, v1, start, p, setup, n), RotationFailure(h, v1, start, p, setup, n);
            var served := start + [Serve(p.bundle1)];
            var asked := served + [Ask(p.token1, h(served, p.token1))];
            var accepted := AcceptsAs(v1, h(served, p.token1), p.id);
            && (setup < 2 ==> trace == start && status == ERROR)
            && (2 <= setup < 4 && accepted ==> trace == asked && status == ERROR)
            && (setup == 4 && accepted && n == 0 ==> trace == asked + [Serve(p.bundle2)] && status == ERROR)
            && (setup >= 2 && !accepted ==> trace == asked)
            && (setup >= 2 && (!accepted || (setup >= 5 && n > 0)) ==>
                  && trace != [] && trace[|trace| - 1].Ask?
                  && status == StatusOf(v1, trace[|trace| - 1].reply))
  {
    var before := BeforePolls(h, start, p);
    if n > 0 {
      PolledLength(h, before, p.token2, n);
      PolledAt(h, before, p.token2, n, n - 1);
    }
  }

  /** The bundle served last. */
  function LastServed(trace: Trace): Option<string> {
    if trace == [] then None
    else if trace[|trace| - 1].Serve? then Some(trace[|trace| - 1].bundle)
    else LastServed(trace[..|trace| - 1])
  }

  /** A v1 harness that judges every token by the bundle served last. */
  ghost predicate Conforms(h: Harness, trusts: (string, Token) -> bool, id: string) {
    forall trace: Trace, token: Token :: h(trace, token) ==
      if LastServed(trace).Some? && trusts(LastServed(trace).value, token)
      then Http(200, Json("ok", id)) else Http(422, Json("rejected", ""))
  }

  /**
   J13 is not too hard: a conforming harness, for which the first bundle holds the key of token 1 and
   the second only that of token 2, passes, and it takes one poll.
   */
  lemma ConformingRotates(h: Harness, trusts: (string, Token) -> bool, start: Trace, p: Rotation, n: nat)
    requires Conforms(h, trusts, p.id) && n >= 1
    requires trusts(p.bundle1, p.token1) && !trusts(p.bundle2, p.token1) && trusts(p.bundle2, p.token2)
    ensures AcceptsAs(true, h(start + [Serve(p.bundle1)], p.token1), p.id)
    ensures Rotated(h, true, start, p, n) <==> n == 1
    ensures (forall i | 0 <= i < n - 1 :: Rejects(true, PollReply(h, BeforePolls(h, start, p), p.token2, i))) <==> n == 1
  {
    var before := BeforePolls(h, start, p);
    assert LastServed(start + [Serve(p.bundle1)]) == Some(p.bundle1);
    assert LastServed(before) == Some(p.bundle2);
    assert Polled(h, before, p.token2, 0) == before;
    assert h(before, p.token2) == Http(200, Json("ok", p.id));
    assert !Rejects(true, PollReply(h, before, p.token2, 0));
    var polled := Polled(h, before, p.token2, 1);
    assert polled[..|polled| - 1] == before;
    assert h(polled, p.token1) == Http(422, Json("rejected", ""));
  }

  /** Nor are J2 to J12: it passes if the bundle served makes it trust the control and no bad token. */
  lemma ConformingPasses(
      h: Harness, trusts: (string, Token) -> bool, id: string, start: Trace, bundle: string, tokens: seq<Token>,
      issued: nat, k: nat, err: Option<Err>, trace: Trace)
    requires Conforms(h, trusts, id) && |tokens| > 1 && issued >= |tokens|
    requires trusts(bundle, tokens[0]) && forall i | 1 <= i < |tokens| :: !trusts(bundle, tokens[i])
    requires Goes(h, true, start + [Serve(bundle)], id, tokens, issued, k, err, trace)
    ensures err.None?
  {
    var served := start + [Serve(bundle)];
    assert LastServed(served) == Some(bundle);
    forall i: nat | i < |tokens| ensures AsWanted(h, true, served, id, tokens, i) {
      StillServed(h, served, tokens[..i]);
    }
  }

  lemma {:induction false} StillServed(h: Harness, start: Trace, tokens: seq<Token>)
    ensures LastServed(Asked(h, start, tokens)) == LastServed(start)
    decreases |tokens|
  {
    if |tokens| > 0 {
      var before := Asked(h, start, tokens[..|tokens| - 1]);
      StillServed(h, start, tokens[..|tokens| - 1]);
      assert Asked(h, start, tokens)[..|Asked(h, start, tokens)| - 1] == before;
    }
  }

  /**
   Passing J13 takes a harness that changes its mind: about token 1 between the first and the last
   request, and about the two tokens at the end.
   */
  lemma RotationNeedsChange(h: Harness, v1: bool, start: Trace, p: Rotation, n: nat)
    requires Rotated(h, v1, start, p, n)
    ensures var before := BeforePolls(h, start, p);
            && h(start + [Serve(p.bundle1)], p.token1) != h(Polled(h, before, p.token2, n), p.token1)
            && h(Polled(h, before, p.token2, n - 1), p.token2) != h(Polled(h, before, p.token2, n), p.token1)
  {
    var reply := PollReply(h, BeforePolls(h, start, p), p.token2, n - 1);
    assert !Rejects(v1, reply);
  }
}
