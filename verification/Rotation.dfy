/** The server half of capability rotation: one lease row per session, advanced one generation at a time. */
module Rotation {
  import opened Common

  type Id = nat

  const TTL_SECONDS := 1800
  const OVERLAP_SECONDS := 300
  const MAX_ROTATION := 1_000_000

  datatype Transport = Browser | Telephony

  datatype Provider = Xai | OpenAi | Gemini | Twilio

  datatype Audience = BrowserRefresh | BridgeRefresh | TelephonyEvents | BridgeMcp

  /** A token id is random or derived from a root, a generation and an audience, injectively. */
  datatype Jti = Root(id: Id) | Derived(root: Jti, generation: nat, audience: Audience)

  /** The text `session:generation`. */
  datatype Key = Key(session: Id, generation: int)

  datatype Scope = Scope(
    callId: Id, jti: Jti, iat: nat, exp: nat, provider: Provider, aud: Audience, rotationPurpose: bool, post: bool,
    streamSid: Option<Id>, overTwilio: bool)

  datatype Lease = Lease(
    transport: Transport, callId: Id, sessionId: Id, bridgeInstanceId: Option<Id>, streamSid: Option<Id>,
    provider: Provider, root: Jti, generation: nat, currentJti: Jti, previousJti: Option<Jti>,
    lastConsumedJti: Option<Jti>, lastKey: Option<Key>, issuedAt: nat, refreshAfter: int, expiresAt: nat)

  datatype Input = Input(
    transport: Transport, scope: Scope, sessionId: Id, bridgeInstanceId: Option<Id>, streamSid: Option<Id>,
    requestedGeneration: int, idempotencyKey: Key, nowEpoch: int)

  datatype Outcome =
    | Rotated(lease: Lease)
    | Replayed(lease: Lease)
    | NotFound
    | Conflict
    | TooEarly
    | Expired

  function RefreshAudience(t: Transport): Audience {
    if t.Browser? then BrowserRefresh else BridgeRefresh
  }

  function ExpectedKey(i: Input): Key {
    Key(if i.transport.Browser? then i.scope.callId else i.sessionId, i.requestedGeneration)
  }

  predicate BindingValid(i: Input) {
    if i.transport.Browser? then
      i.sessionId == i.scope.callId && i.bridgeInstanceId.None? && i.streamSid.None? && !i.scope.provider.Twilio?
    else
      i.bridgeInstanceId.Some? && i.streamSid.Some? && i.streamSid == i.scope.streamSid
      && i.scope.overTwilio && !i.scope.provider.Twilio?
  }

  predicate InputValid(i: Input) {
    && 1 <= i.requestedGeneration <= MAX_ROTATION
    && i.nowEpoch >= 0
    && i.idempotencyKey == ExpectedKey(i)
    && BindingValid(i)
    && i.scope.aud == RefreshAudience(i.transport) && i.scope.rotationPurpose && i.scope.post
    && i.scope.exp - i.scope.iat == TTL_SECONDS
  }

  /** A browser session has no lease until its first rotation, which starts from the root itself. */
  function InitialBrowserLease(i: Input): Option<Lease> {
    if i.requestedGeneration != 1 || i.sessionId != i.scope.callId || i.scope.aud != BrowserRefresh
       || i.scope.exp - i.scope.iat != TTL_SECONDS then None
    else Some(Lease(Browser, i.scope.callId, i.scope.callId, None, None, i.scope.provider, i.scope.jti, 0, i.scope.jti,
                    None, None, None, i.scope.iat, i.scope.exp - OVERLAP_SECONDS, i.scope.exp))
  }

  predicate ExactCurrentCapability(lease: Lease, scope: Scope) {
    lease.currentJti == scope.jti && lease.issuedAt == scope.iat && lease.expiresAt == scope.exp
    && lease.provider == scope.provider
  }

  predicate IsReplay(lease: Lease, i: Input) {
    lease.generation == i.requestedGeneration && lease.lastConsumedJti == Some(i.scope.jti)
    && lease.lastKey == Some(i.idempotencyKey)
  }

  function Advance(lease: Lease, i: Input): Lease
    requires i.nowEpoch >= 0 && i.requestedGeneration >= 0
  {
    lease.(generation := i.requestedGeneration,
           previousJti := Some(lease.currentJti),
           lastConsumedJti := Some(lease.currentJti),
           lastKey := Some(i.idempotencyKey),
           currentJti := Derived(lease.root, i.requestedGeneration, RefreshAudience(i.transport)),
           issuedAt := i.nowEpoch,
           refreshAfter := i.nowEpoch + TTL_SECONDS - OVERLAP_SECONDS,
           expiresAt := i.nowEpoch + TTL_SECONDS)
  }

  /** The decision once a lease row is locked. */
  function Decide(lease: Lease, i: Input): Outcome
    requires InputValid(i)
  {
    if lease.provider != i.scope.provider || lease.streamSid != i.streamSid
       || lease.bridgeInstanceId != i.bridgeInstanceId then
      Conflict
    else if i.nowEpoch >= i.scope.exp then Expired
    else if IsReplay(lease, i) then Replayed(lease)
    else if i.requestedGeneration != lease.generation + 1 || !ExactCurrentCapability(lease, i.scope) then Conflict
    else if i.nowEpoch < lease.refreshAfter then TooEarly
    else if i.nowEpoch >= lease.expiresAt then Expired
    else Rotated(Advance(lease, i))
  }

  /** The locked transaction: `row` is the selected lease, `active` whether the call and stream are live. */
  function Rotate(row: Option<Lease>, active: bool, i: Input): Outcome {
    if !InputValid(i) then Conflict
    else if !active then NotFound
    else
      var lease := if row.None? && i.transport.Browser? then InitialBrowserLease(i) else row;
      if lease.None? then NotFound else Decide(lease.value, i)
  }

  /** Only a rotation commits a change; every other outcome rolls back, a fresh browser row included. */
  function RowAfter(row: Option<Lease>, o: Outcome): Option<Lease> {
    if o.Rotated? then Some(o.lease) else row
  }

  /** The lease table row of one session, overwritten in place. */
  class LeaseRow {
    var row: Option<Lease>

    constructor (row: Option<Lease>)
      ensures this.row == row
    {
      this.row := row;
    }

    method RotateCapabilityLease(active: bool, i: Input) returns (o: Outcome)
      modifies this
      ensures o == Rotate(old(row), active, i)
      ensures row == RowAfter(old(row), o)
    {
      if !InputValid(i) { return Conflict; }
      if !active { return NotFound; }
      var lease := row;
      if lease.None? && i.transport.Browser? {
        lease := InitialBrowserLease(i);
      }
      if lease.None? { return NotFound; }
      var l := lease.value;
      if l.provider != i.scope.provider || l.streamSid != i.streamSid || l.bridgeInstanceId != i.bridgeInstanceId {
        return Conflict;
      }
      if i.nowEpoch >= i.scope.exp { return Expired; }
      if l.generation == i.requestedGeneration && l.lastConsumedJti == Some(i.scope.jti)
         && l.lastKey == Some(i.idempotencyKey) {
        return Replayed(l);
      }
      if i.requestedGeneration != l.generation + 1 || !ExactCurrentCapability(l, i.scope) { return Conflict; }
      if i.nowEpoch < l.refreshAfter { return TooEarly; }
      if i.nowEpoch >= l.expiresAt { return Expired; }
      var next := Advance(l, i);
      row := Some(next);
      o := Rotated(next);
    }
  }

  // What every sequence of requests keeps

  /** The refresh token id of each generation of a lease. */
  function RefreshJti(root: Jti, generation: nat, t: Transport): Jti {
    if generation == 0 then root else Derived(root, generation, RefreshAudience(t))
  }

  ghost predicate LeaseSound(l: Lease) {
    && l.expiresAt == l.issuedAt + TTL_SECONDS && l.refreshAfter == l.expiresAt - OVERLAP_SECONDS
    && l.currentJti == RefreshJti(l.root, l.generation, l.transport)
    && (l.generation > 0 ==> l.lastConsumedJti == Some(RefreshJti(l.root, l.generation - 1, l.transport)))
    && (l.generation == 0 ==> l.lastConsumedJti.None?)
    && l.generation <= MAX_ROTATION
  }

  ghost predicate RowSound(row: Option<Lease>, t: Transport) {
    row.Some? ==> LeaseSound(row.value) && row.value.transport == t
  }

  lemma InitialSound(i: Input)
    requires InitialBrowserLease(i).Some?
    ensures LeaseSound(InitialBrowserLease(i).value) && InitialBrowserLease(i).value.transport.Browser?
  {
  }

  /** Each rotation advances one generation and moves the expiry by at least 1500 and less than 1800 seconds. */
  lemma RotationAdvances(row: Option<Lease>, active: bool, i: Input)
    requires RowSound(row, i.transport) && Rotate(row, active, i).Rotated?
    ensures var prior := if row.Some? then row.value else InitialBrowserLease(i).value;
            var next := Rotate(row, active, i).lease;
            && (row.Some? || InitialBrowserLease(i).Some?)
            && LeaseSound(next) && next.transport == i.transport && next.root == prior.root
            && next.generation == prior.generation + 1
            && i.scope.jti == RefreshJti(prior.root, prior.generation, i.transport)
            && next.lastConsumedJti == Some(i.scope.jti)
            && 1500 <= next.expiresAt - prior.expiresAt < 1800
  {
    if row.None? {
      InitialSound(i);
    }
  }

  /** Requests of one session in the order the row lock serializes them. */
  datatype Request = Request(active: bool, input: Input)

  function After(row: Option<Lease>, requests: seq<Request>): Option<Lease> {
    if requests == [] then row
    else
      var before := After(row, requests[..|requests| - 1]);
      var last := requests[|requests| - 1];
      RowAfter(before, Rotate(before, last.active, last.input))
  }

  function OutcomeAt(row: Option<Lease>, requests: seq<Request>, k: nat): Outcome
    requires k < |requests|
  {
    Rotate(After(row, requests[..k]), requests[k].active, requests[k].input)
  }

  lemma AfterStep(row: Option<Lease>, requests: seq<Request>, k: nat)
    requires k < |requests|
    ensures After(row, requests[..k + 1]) == RowAfter(After(row, requests[..k]), OutcomeAt(row, requests, k))
  {
    hide Rotate;
    assert requests[..k + 1][..k] == requests[..k];
  }

  ghost predicate SameTransport(requests: seq<Request>, t: Transport) {
    forall k :: 0 <= k < |requests| ==> requests[k].input.transport == t
  }

  lemma {:induction false} RunSound(row: Option<Lease>, requests: seq<Request>, t: Transport, j: nat, k: nat)
    requires j <= k <= |requests| && RowSound(row, t) && SameTransport(requests, t)
    ensures RowSound(After(row, requests[..j]), t) && RowSound(After(row, requests[..k]), t)
    ensures var a, b := After(row, requests[..j]), After(row, requests[..k]);
            a.Some? ==> b.Some? && b.value.root == a.value.root && a.value.generation <= b.value.generation
    decreases k
  {
    hide Rotate, LeaseSound;
    if k > 0 {
      var before := After(row, requests[..k - 1]);
      AfterStep(row, requests, k - 1);
      if j < k {
        RunSound(row, requests, t, j, k - 1);
      } else {
        RunSound(row, requests, t, k - 1, k - 1);
      }
      if OutcomeAt(row, requests, k - 1).Rotated? {
        RotationAdvances(before, requests[k - 1].active, requests[k - 1].input);
      }
    } else {
      assert requests[..0] == [];
    }
  }

  function DerivationDepth(j: Jti): nat {
    if j.Root? then 0 else 1 + DerivationDepth(j.root)
  }

  /** The token ids of two generations of one lease differ. */
  lemma GenerationsDiffer(root: Jti, a: nat, b: nat, t: Transport)
    requires a != b
    ensures RefreshJti(root, a, t) != RefreshJti(root, b, t)
  {
    assert DerivationDepth(RefreshJti(root, a, t)) == DerivationDepth(root) + if a == 0 then 0 else 1;
    assert DerivationDepth(RefreshJti(root, b, t)) == DerivationDepth(root) + if b == 0 then 0 else 1;
  }

  /**
   * A refresh token id advances a session's lease at most once, whatever requests arrive in whatever
   * order: two rotations in a run consume different ids.
   */
  lemma ConsumedOnce(row: Option<Lease>, requests: seq<Request>, t: Transport, j: nat, k: nat)
    requires j < k < |requests| && RowSound(row, t) && SameTransport(requests, t)
    requires OutcomeAt(row, requests, j).Rotated? && OutcomeAt(row, requests, k).Rotated?
    ensures requests[j].input.scope.jti != requests[k].input.scope.jti
  {
    hide Rotate, LeaseSound, RefreshJti;
    RunSound(row, requests, t, j, j);
    RunSound(row, requests, t, j + 1, k);
    RotationAdvances(After(row, requests[..j]), requests[j].active, requests[j].input);
    RotationAdvances(After(row, requests[..k]), requests[k].active, requests[k].input);
    AfterStep(row, requests, j);
    var atJ, atK := After(row, requests[..j + 1]).value, After(row, requests[..k]).value;
    GenerationsDiffer(atJ.root, atJ.generation - 1, atK.generation, t);
  }
}
