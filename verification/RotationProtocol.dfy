/**
 * Capability rotation as a two-party protocol: the bridge asks, the server answers, and the network
 * loses, delays and duplicates both. One clock in milliseconds; the server reads whole seconds.
 */
module RotationProtocol {
  import opened Common
  import opened Rotation
  import opened RotationHistory

  const OVERLAP_MS := 300_000
  const GENERATION_TTL_MS := 1_800_000

  /** The capability state of a bridge session. */
  datatype Client = Client(
    sessionId: Id, bridgeInstanceId: Id, callId: Id, streamSid: Id, rotation: nat,
    refreshAfterMs: int, expiresAtMs: int, eventJti: Jti, mcpJti: Jti, renewal: Scope, alive: bool)

  /** A rotation request: what the client sends and what it keeps to check the answer against. */
  datatype Ask = Ask(
    sessionId: Id, bridgeInstanceId: Id, callId: Id, streamSid: Id, rotation: nat, key: Key,
    expiresAtMs: int, eventJti: Jti, mcpJti: Jti, renewal: Scope)

  /** The bundle of capabilities a successful rotation returns. */
  datatype Grant = Grant(
    sessionId: Id, bridgeInstanceId: Id, callId: Id, streamSid: Id, rotation: nat,
    refreshAfterMs: int, expiresAtMs: int, eventJti: Jti, mcpJti: Jti, renewal: Scope)

  // The server's answer

  function RenewalScope(l: Lease): Scope {
    Scope(l.callId, RefreshJti(l.root, l.generation, l.transport), l.issuedAt, l.issuedAt + TTL_SECONDS, l.provider,
          RefreshAudience(l.transport), true, true, l.streamSid, true)
  }

  /** Rebuilt from the root, the generation and the second of issue alone. */
  function Issue(l: Lease): Grant
    requires l.bridgeInstanceId.Some? && l.streamSid.Some?
  {
    Grant(l.sessionId, l.bridgeInstanceId.value, l.callId, l.streamSid.value, l.generation,
          1000 * (l.issuedAt + TTL_SECONDS - OVERLAP_SECONDS), 1000 * (l.issuedAt + TTL_SECONDS),
          Derived(l.root, l.generation, TelephonyEvents), Derived(l.root, l.generation, BridgeMcp), RenewalScope(l))
  }

  function InputOf(a: Ask, nowMs: nat): Input {
    Input(Telephony, a.renewal, a.sessionId, Some(a.bridgeInstanceId), Some(a.streamSid), a.rotation, a.key,
          nowMs / 1000)
  }

  // The client's checks

  function MakeAsk(c: Client): Ask {
    Ask(c.sessionId, c.bridgeInstanceId, c.callId, c.streamSid, c.rotation + 1, Key(c.sessionId, c.rotation + 1),
        c.expiresAtMs, c.eventJti, c.mcpJti, c.renewal)
  }

  predicate Distinct3(a: Jti, b: Jti, c: Jti) { a != b && a != c && b != c }

  predicate RequestValid(a: Ask, nowMs: nat) {
    && 1 <= a.rotation <= MAX_ROTATION
    && nowMs < a.expiresAtMs <= nowMs + GENERATION_TTL_MS
    && Distinct3(a.eventJti, a.mcpJti, a.renewal.jti)
  }

  predicate TimesValid(g: Grant, a: Ask, nowMs: nat) {
    && nowMs < g.refreshAfterMs < g.expiresAtMs
    && g.expiresAtMs - g.refreshAfterMs == OVERLAP_MS
    && a.expiresAtMs < g.expiresAtMs <= nowMs + GENERATION_TTL_MS
  }

  predicate SixDistinct(g: Grant, a: Ask) {
    && Distinct3(g.eventJti, g.mcpJti, g.renewal.jti) && Distinct3(a.eventJti, a.mcpJti, a.renewal.jti)
    && g.eventJti != a.eventJti && g.eventJti != a.mcpJti && g.eventJti != a.renewal.jti
    && g.mcpJti != a.eventJti && g.mcpJti != a.mcpJti && g.mcpJti != a.renewal.jti
    && g.renewal.jti != a.eventJti && g.renewal.jti != a.mcpJti && g.renewal.jti != a.renewal.jti
  }

  predicate ResponseValid(g: Grant, a: Ask, nowMs: nat) {
    && g.sessionId == a.sessionId && g.bridgeInstanceId == a.bridgeInstanceId && g.callId == a.callId
    && g.streamSid == a.streamSid && g.rotation == a.rotation
    && TimesValid(g, a, nowMs) && SixDistinct(g, a)
  }

  predicate AllDifferent(ids: seq<Jti>) {
    forall i, j :: 0 <= i < j < |ids| ==> ids[i] != ids[j]
  }

  /**
   * The client takes a response exactly when it is for its own session, bridge, call, stream and generation, its three
   * capabilities and the three old ones are all different, and its times fit: it lasts longer than the old one and no
   * more than thirty minutes, and asks to be renewed in time, five minutes before it ends.
   */
  lemma TakenExactly(g: Grant, a: Ask, nowMs: nat)
    ensures ResponseValid(g, a, nowMs) <==>
            && (g.sessionId, g.bridgeInstanceId, g.callId) == (a.sessionId, a.bridgeInstanceId, a.callId)
            && (g.streamSid, g.rotation) == (a.streamSid, a.rotation)
            && AllDifferent([g.eventJti, g.mcpJti, g.renewal.jti, a.eventJti, a.mcpJti, a.renewal.jti])
            && a.expiresAtMs < g.expiresAtMs <= nowMs + 1_800_000
            && g.refreshAfterMs == g.expiresAtMs - 300_000 && nowMs < g.refreshAfterMs
  {
    var ids := [g.eventJti, g.mcpJti, g.renewal.jti, a.eventJti, a.mcpJti, a.renewal.jti];
    assert ids[0] == g.eventJti && ids[1] == g.mcpJti && ids[2] == g.renewal.jti;
    assert ids[3] == a.eventJti && ids[4] == a.mcpJti && ids[5] == a.renewal.jti;
  }

  /** What one attempt of the client's retry loop met, and the clock readings around it. */
  datatype Attempt = Attempt(startMs: nat, endMs: nat, met: Met)

  datatype Met = Retryable | Refused | Answered(grant: Grant)

  datatype RotateError =
    | RequestInvalid
    | CapabilityExpired
    | ExpiryInvalid
    | SeparationInvalid
    | NotRetryable
    | ResponseInvalid
    | AttemptsExhausted

  /** The first check that a request fails. */
  function RequestError(a: Ask, nowMs: nat): (r: Option<RotateError>)
    ensures r.None? <==> RequestValid(a, nowMs)
  {
    if !(1 <= a.rotation <= MAX_ROTATION) then Some(RequestInvalid)
    else if a.expiresAtMs <= nowMs then Some(CapabilityExpired)
    else if a.expiresAtMs > nowMs + GENERATION_TTL_MS then Some(ExpiryInvalid)
    else if !Distinct3(a.eventJti, a.mcpJti, a.renewal.jti) then Some(SeparationInvalid)
    else None
  }

  /** The loop goes on past this attempt: it was made before the expiry and failed in a way worth retrying. */
  predicate Passes(a: Ask, attempt: Attempt) {
    attempt.startMs < a.expiresAtMs && attempt.met.Retryable?
  }

  /** What an attempt that ends the loop means. */
  function Verdict(a: Ask, attempt: Attempt): Result<Grant, RotateError>
    requires !Passes(a, attempt)
  {
    if attempt.startMs >= a.expiresAtMs then Err(CapabilityExpired)
    else if attempt.met.Refused? then Err(NotRetryable)
    else if attempt.endMs >= a.expiresAtMs then Err(CapabilityExpired)
    else if !ResponseValid(attempt.met.grant, a, attempt.endMs) then Err(ResponseInvalid)
    else Ok(attempt.met.grant)
  }

  /**
   * The bounded retry loop.  A request that fails a check is never sent.  Otherwise the first attempt that is not
   * worth retrying decides: `used` attempts were sent, all before the old expiry.
   */
  method RotateWithRetry(a: Ask, startedMs: nat, attempts: seq<Attempt>)
    returns (r: Result<Grant, RotateError>, used: nat)
    ensures !RequestValid(a, startedMs) ==> r.Err? && RequestError(a, startedMs) == Some(r.error) && used == 0
    ensures used <= |attempts| && forall k :: 0 <= k < used ==> attempts[k].startMs < a.expiresAtMs
    ensures RequestValid(a, startedMs) && (forall k :: 0 <= k < |attempts| ==> Passes(a, attempts[k])) ==>
              r == Err(AttemptsExhausted) && used == |attempts|
    ensures forall d :: RequestValid(a, startedMs) && 0 <= d < |attempts| && !Passes(a, attempts[d])
                        && (forall k :: 0 <= k < d ==> Passes(a, attempts[k])) ==>
              && r == Verdict(a, attempts[d])
              && used == if attempts[d].startMs < a.expiresAtMs then d + 1 else d
  {
    used := 0;
    var fault := RequestError(a, startedMs);
    if fault.Some? { return Err(fault.value), 0; }
    while used < |attempts|
      invariant 0 <= used <= |attempts|
      invariant forall k :: 0 <= k < used ==> Passes(a, attempts[k])
    {
      var attempt := attempts[used];
      if attempt.startMs >= a.expiresAtMs { return Err(CapabilityExpired), used; }
      used := used + 1;
      match attempt.met
      case Retryable =>
      case Refused => return Err(NotRetryable), used;
      case Answered(grant) =>
        if attempt.endMs >= a.expiresAtMs { return Err(CapabilityExpired), used; }
        if !ResponseValid(grant, a, attempt.endMs) { return Err(ResponseInvalid), used; }
        return Ok(grant), used;
    }
    r := Err(AttemptsExhausted);
  }

  // Runs

  datatype World = World(nowMs: nat, lease: Lease, client: Client, asks: set<Ask>, grants: set<Grant>)

  datatype Action =
    | Tick(nowMs: nat)
    | Send
    | Serve(ask: Ask, active: bool)
    | Receive(grant: Grant)
    | Expire

  predicate MaySend(c: Client, nowMs: nat) {
    c.alive && c.refreshAfterMs <= nowMs < c.expiresAtMs && RequestValid(MakeAsk(c), nowMs)
  }

  predicate MayAdopt(c: Client, g: Grant, nowMs: nat) {
    c.alive && nowMs < c.expiresAtMs && ResponseValid(g, MakeAsk(c), nowMs)
  }

  function Adopt(c: Client, g: Grant): Client {
    c.(rotation := g.rotation, refreshAfterMs := g.refreshAfterMs, expiresAtMs := g.expiresAtMs,
       eventJti := g.eventJti, mcpJti := g.mcpJti, renewal := g.renewal)
  }

  /** A message once sent may be delivered never, later, or again: it stays in its set. */
  function Step(w: World, a: Action): World {
    match a
    case Tick(nowMs) => if nowMs < w.nowMs then w else w.(nowMs := nowMs)
    case Send => if MaySend(w.client, w.nowMs) then w.(asks := w.asks + {MakeAsk(w.client)}) else w
    case Serve(ask, active) =>
      if ask !in w.asks then w
      else
        var o := Rotate(Some(w.lease), active, InputOf(ask, w.nowMs));
        if (o.Rotated? || o.Replayed?) && o.lease.bridgeInstanceId.Some? && o.lease.streamSid.Some?
        then w.(lease := o.lease, grants := w.grants + {Issue(o.lease)})
        else w
    case Receive(grant) =>
      if grant in w.grants && MayAdopt(w.client, grant, w.nowMs) then w.(client := Adopt(w.client, grant)) else w
    case Expire => if w.nowMs >= w.client.expiresAtMs then w.(client := w.client.(alive := false)) else w
  }

  /**
   * The retry loop takes only steps of the runs: each attempt it makes is a request the client may send at that
   * moment, and the grant it returns is exactly one the client may then adopt.
   */
  lemma RetryTakesRunSteps(c: Client, startedMs: nat, attempt: Attempt)
    requires c.alive && c.refreshAfterMs <= startedMs <= attempt.startMs <= attempt.endMs
    requires RequestValid(MakeAsk(c), startedMs)
    ensures attempt.startMs < c.expiresAtMs ==> MaySend(c, attempt.startMs)
    ensures forall g :: !Passes(MakeAsk(c), attempt) && Verdict(MakeAsk(c), attempt) == Ok(g) <==>
              attempt.met == Answered(g) && MayAdopt(c, g, attempt.endMs)
  {
  }

  function Run(w: World, actions: seq<Action>): World {
    if actions == [] then w
    else Step(Run(w, actions[..|actions| - 1]), actions[|actions| - 1])
  }

  // The invariant

  /** The client's capability is the one of its own generation of this lease. */
  ghost predicate ClientSound(l: Lease, c: Client) {
    && c.sessionId == l.sessionId && l.bridgeInstanceId == Some(c.bridgeInstanceId) && c.callId == l.callId
    && l.streamSid == Some(c.streamSid)
    && c.renewal == RenewalScope(l.(generation := c.rotation, issuedAt := c.renewal.iat))
    && c.expiresAtMs == 1000 * c.renewal.exp && c.refreshAfterMs == c.expiresAtMs - OVERLAP_MS
    && c.eventJti == Derived(l.root, c.rotation, TelephonyEvents) && c.mcpJti == Derived(l.root, c.rotation, BridgeMcp)
  }

  /** The client holds the server's current generation. */
  ghost predicate InSync(l: Lease, c: Client) {
    l.generation == c.rotation && l.issuedAt == c.renewal.iat
  }

  /** The server consumed the client's capability and the answer has not been adopted yet. */
  ghost predicate OneAhead(l: Lease, c: Client) {
    && l.generation == c.rotation + 1
    && l.lastConsumedJti == Some(c.renewal.jti) && l.lastKey == Some(Key(c.sessionId, l.generation))
    && c.renewal.exp - OVERLAP_SECONDS <= l.issuedAt < c.renewal.exp
  }

  ghost predicate AsksSound(w: World) {
    forall a :: a in w.asks ==>
      && a.rotation <= w.client.rotation + 1
      && a.renewal.jti == RefreshJti(w.lease.root, if a.rotation > 0 then a.rotation - 1 else 0, Telephony)
      && (a.rotation == w.client.rotation + 1 ==> a == MakeAsk(w.client))
  }

  ghost predicate GrantsSound(w: World) {
    forall g :: g in w.grants ==>
      && g.rotation <= w.lease.generation
      && (g.rotation == w.lease.generation ==>
            w.lease.bridgeInstanceId.Some? && w.lease.streamSid.Some? && g == Issue(w.lease))
  }

  ghost predicate Sound(w: World) {
    && LeaseSound(w.lease) && w.lease.transport.Telephony? && !w.lease.provider.Twilio?
    && 1000 * w.lease.issuedAt <= w.nowMs
    && ClientSound(w.lease, w.client)
    && (InSync(w.lease, w.client) || OneAhead(w.lease, w.client))
    && AsksSound(w) && GrantsSound(w)
  }

  lemma ServeDecision(w: World, ask: Ask, active: bool)
    requires Sound(w) && ask in w.asks
    ensures var o := Rotate(Some(w.lease), active, InputOf(ask, w.nowMs));
            && (o.Replayed? ==> o.lease == w.lease)
            && (o.Rotated? ==> InSync(w.lease, w.client) && ask == MakeAsk(w.client))
  {
    var i := InputOf(ask, w.nowMs);
    var o := Rotate(Some(w.lease), active, i);
    if o.Rotated? {
      assert i.requestedGeneration == w.lease.generation + 1;
    }
  }

  lemma RotatedStep(w: World, active: bool)
    requires Sound(w) && InSync(w.lease, w.client)
    requires var i := InputOf(MakeAsk(w.client), w.nowMs); Rotate(Some(w.lease), active, i).Rotated?
    ensures var l := Rotate(Some(w.lease), active, InputOf(MakeAsk(w.client), w.nowMs)).lease;
            && LeaseSound(l) && l.transport.Telephony? && !l.provider.Twilio? && 1000 * l.issuedAt <= w.nowMs
            && l.root == w.lease.root && l.generation == w.lease.generation + 1
            && ClientSound(l, w.client) && OneAhead(l, w.client)
  {
    var i := InputOf(MakeAsk(w.client), w.nowMs);
    RotationAdvances(Some(w.lease), active, i);
    var l := Rotate(Some(w.lease), active, i).lease;
    assert l == Advance(w.lease, i);
  }

  lemma ServeKeeps(w: World, ask: Ask, active: bool)
    requires Sound(w)
    ensures Sound(Step(w, Serve(ask, active)))
  {
    hide Rotate, LeaseSound, RefreshJti;
    if ask in w.asks {
      ServeDecision(w, ask, active);
      var o := Rotate(Some(w.lease), active, InputOf(ask, w.nowMs));
      if o.Rotated? {
        RotatedStep(w, active);
      }
    }
  }

  lemma AdoptedGrant(w: World, grant: Grant)
    requires Sound(w) && grant in w.grants && MayAdopt(w.client, grant, w.nowMs)
    ensures OneAhead(w.lease, w.client) && w.lease.bridgeInstanceId.Some? && w.lease.streamSid.Some?
    ensures grant == Issue(w.lease)
  {
    hide LeaseSound, TimesValid, SixDistinct;
  }

  lemma ReceiveKeeps(w: World, grant: Grant)
    requires Sound(w)
    ensures Sound(Step(w, Receive(grant)))
  {
    if grant in w.grants && MayAdopt(w.client, grant, w.nowMs) {
      AdoptedGrant(w, grant);
      hide MayAdopt;
      var next := Step(w, Receive(grant));
      assert InSync(next.lease, next.client) && ClientSound(next.lease, next.client);
      assert AsksSound(next);
    }
  }

  lemma StepKeeps(w: World, a: Action)
    requires Sound(w)
    ensures Sound(Step(w, a))
  {
    match a
    case Serve(ask, active) => ServeKeeps(w, ask, active);
    case Receive(grant) => ReceiveKeeps(w, grant);
    case Tick(_) =>
    case Send =>
    case Expire =>
  }

  function ClientOf(g: Grant): Client {
    Client(g.sessionId, g.bridgeInstanceId, g.callId, g.streamSid, g.rotation, g.refreshAfterMs, g.expiresAtMs,
           g.eventJti, g.mcpJti, g.renewal, true)
  }

  /** The protocol starts right after bootstrap: generation 0 on both sides, nothing in the network. */
  ghost predicate Initial(w: World) {
    && LeaseSound(w.lease) && w.lease.transport.Telephony? && !w.lease.provider.Twilio? && w.lease.generation == 0
    && 1000 * w.lease.issuedAt <= w.nowMs && w.lease.bridgeInstanceId.Some? && w.lease.streamSid.Some?
    && w.client == ClientOf(Issue(w.lease))
    && w.asks == {} && w.grants == {}
  }

  /**
   * In every run, under any loss, delay and duplication, the server's generation is the client's
   * or exactly one more.
   */
  lemma {:induction false} GenerationGap(w: World, actions: seq<Action>)
    requires Initial(w)
    ensures var end := Run(w, actions);
            Sound(end) && end.client.rotation <= end.lease.generation <= end.client.rotation + 1
  {
    if actions == [] {
      BootstrapSound(w);
    } else {
      hide Step;
      GenerationGap(w, actions[..|actions| - 1]);
      StepKeeps(Run(w, actions[..|actions| - 1]), actions[|actions| - 1]);
    }
  }

  lemma BootstrapSound(w: World)
    requires Initial(w)
    ensures Sound(w)
  {
  }

  /** A grant of the next generation passes every check of the client until the old capability expires. */
  lemma GrantInTimeIsValid(w: World, nowMs: nat)
    requires Sound(w) && OneAhead(w.lease, w.client) && w.nowMs <= nowMs < w.client.expiresAtMs
    ensures w.lease.bridgeInstanceId.Some? && w.lease.streamSid.Some?
    ensures ResponseValid(Issue(w.lease), MakeAsk(w.client), nowMs)
  {
    hide LeaseSound;
    GenerationsDiffer(w.lease.root, w.client.rotation, w.lease.generation, Telephony);
    assert LeaseTimes(w.lease) by {
      LeaseSoundTimes(w.lease);
    }
    RootNotDerived(w.lease.root, w.client.rotation, TelephonyEvents);
    RootNotDerived(w.lease.root, w.client.rotation, BridgeMcp);
    RootNotDerived(w.lease.root, w.lease.generation, TelephonyEvents);
    RootNotDerived(w.lease.root, w.lease.generation, BridgeMcp);
  }

  ghost predicate LeaseTimes(l: Lease) {
    l.expiresAt == l.issuedAt + TTL_SECONDS && l.refreshAfter == l.expiresAt - OVERLAP_SECONDS
  }

  lemma LeaseSoundTimes(l: Lease)
    requires LeaseSound(l)
    ensures LeaseTimes(l)
  {
  }

  lemma RootNotDerived(root: Jti, generation: nat, audience: Audience)
    ensures root != Derived(root, generation, audience)
  {
    assert DerivationDepth(Derived(root, generation, audience)) == DerivationDepth(root) + 1;
  }

  /**
   * If the answer to a committed rotation was lost, the client's retry before its old expiry is
   * answered with that same lease, changes nothing at the server, and is accepted by the client.
   */
  lemma LostAnswerIsReplayed(w: World)
    requires Sound(w) && OneAhead(w.lease, w.client) && w.client.alive && w.nowMs < w.client.expiresAtMs
    ensures Rotate(Some(w.lease), true, InputOf(MakeAsk(w.client), w.nowMs)) == Replayed(w.lease)
    ensures MayAdopt(w.client, Issue(w.lease), w.nowMs)
    ensures InSync(w.lease, Adopt(w.client, Issue(w.lease))) && ClientSound(w.lease, Adopt(w.client, Issue(w.lease)))
  {
    GrantInTimeIsValid(w, w.nowMs);
    hide ResponseValid;
  }

  /** From a state in sync, a request sent in the refresh window rotates, and its answer is acceptable. */
  lemma DueRequestRotates(w: World)
    requires Sound(w) && InSync(w.lease, w.client) && MaySend(w.client, w.nowMs)
    ensures var o := Rotate(Some(w.lease), true, InputOf(MakeAsk(w.client), w.nowMs));
            && o.Rotated? && o.lease.bridgeInstanceId.Some? && o.lease.streamSid.Some?
            && MayAdopt(w.client, Issue(o.lease), w.nowMs)
  {
    var i := InputOf(MakeAsk(w.client), w.nowMs);
    assert Rotate(Some(w.lease), true, i).Rotated?;
    hide Rotate, ResponseValid;
    RotatedStep(w, true);
    var l := Rotate(Some(w.lease), true, i).lease;
    GrantInTimeIsValid(w.(lease := l, asks := {}, grants := {}), w.nowMs);
  }

  // When the server answers

  /** A request of a call or stream that has ended changes neither the lease nor what was granted. */
  lemma EndedCallGetsNothing(w: World, ask: Ask)
    ensures Step(w, Serve(ask, false)) == w
  {
    if ask in w.asks {
      AnsweredExactly(Some(w.lease), false, InputOf(ask, w.nowMs));
    }
  }

  /**
   * In every reachable state, exactly which requests of a live call the server grants: the client's own request, from
   * its refresh time until its expiry, and once more whenever the client asks again before the answer reached it.
   */
  lemma ServedExactly(w: World, ask: Ask)
    requires Sound(w) && ask in w.asks
    ensures var next := Step(w, Serve(ask, true));
            && (next.lease != w.lease <==>
                  && InSync(w.lease, w.client) && ask == MakeAsk(w.client) && w.client.rotation < MAX_ROTATION
                  && w.client.refreshAfterMs <= w.nowMs < w.client.expiresAtMs)
            && (next.lease != w.lease ==>
                  next.lease.generation == ask.rotation && next.lease.issuedAt == w.nowMs / 1000)
            && (OneAhead(w.lease, w.client) && ask == MakeAsk(w.client) && w.nowMs < w.client.expiresAtMs ==>
                  next == w.(grants := w.grants + {Issue(w.lease)}))
  {
    var i := InputOf(ask, w.nowMs);
    AnsweredExactly(Some(w.lease), true, i);
    hide Rotate;
    var o := Rotate(Some(w.lease), true, i);
    ServeDecision(w, ask, true);
    SecondsWindow(w);
    if o.Rotated? {
      RotatedStep(w, true);
      Granted(Some(w.lease), true, i);
    }
  }

  lemma SecondsWindow(w: World)
    requires ClientSound(w.lease, w.client)
    ensures w.client.refreshAfterMs <= w.nowMs <==> w.client.renewal.exp - OVERLAP_SECONDS <= w.nowMs / 1000
    ensures w.nowMs < w.client.expiresAtMs <==> w.nowMs / 1000 < w.client.renewal.exp
  {
  }

  /** In every reachable state the client adopts exactly the grants of the next generation, until its own expires. */
  lemma AdoptedExactly(w: World, grant: Grant)
    requires Sound(w) && grant in w.grants
    ensures var next := Step(w, Receive(grant)).client;
            && (next != w.client <==>
                  w.client.alive && w.nowMs < w.client.expiresAtMs && grant.rotation == w.client.rotation + 1)
            && (next != w.client ==> next == ClientOf(Issue(w.lease)))
  {
    if MayAdopt(w.client, grant, w.nowMs) {
      AdoptedGrant(w, grant);
    } else if w.client.alive && w.nowMs < w.client.expiresAtMs && grant.rotation == w.client.rotation + 1 {
      GrantInTimeIsValid(w, w.nowMs);
    }
  }
}
