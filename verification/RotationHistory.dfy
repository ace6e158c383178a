/** When a rotation request is granted, replayed or refused: from its fields, the lease row and the requests before. */
module RotationHistory {
  import opened Common
  import opened Rotation

  // One request

  /** The request asks for a later generation under its own key, with a 30-minute capability of its transport. */
  predicate WellFormed(i: Input) {
    && i.nowEpoch >= 0 && 1 <= i.requestedGeneration <= 1_000_000
    && i.scope.rotationPurpose && i.scope.post && i.scope.exp == i.scope.iat + 1800 && i.scope.provider != Twilio
    && (i.transport == Browser ==>
          && i.scope.aud == BrowserRefresh && i.idempotencyKey == Key(i.scope.callId, i.requestedGeneration)
          && i.sessionId == i.scope.callId && i.bridgeInstanceId == None && i.streamSid == None)
    && (i.transport == Telephony ==>
          && i.scope.aud == BridgeRefresh && i.idempotencyKey == Key(i.sessionId, i.requestedGeneration)
          && i.bridgeInstanceId != None && i.streamSid != None && i.streamSid == i.scope.streamSid
          && i.scope.overTwilio)
  }

  /** The request comes from the party the lease was issued to. */
  predicate SameParty(l: Lease, i: Input) {
    l.provider == i.scope.provider && l.streamSid == i.streamSid && l.bridgeInstanceId == i.bridgeInstanceId
  }

  /** The request presents the capability of the current generation and asks for the next one. */
  predicate PresentsCurrent(l: Lease, i: Input) {
    && i.requestedGeneration == l.generation + 1 && i.scope.jti == l.currentJti
    && i.scope.iat == l.issuedAt && i.scope.exp == l.expiresAt
  }

  /** The request is the one that produced the current generation. */
  predicate Repeats(l: Lease, i: Input) {
    && i.requestedGeneration == l.generation
    && l.lastConsumedJti == Some(i.scope.jti) && l.lastKey == Some(i.idempotencyKey)
  }

  /** A browser session without a lease may start one with the capability it was given. */
  predicate StartsBrowser(row: Option<Lease>, i: Input) {
    row == None && i.transport == Browser && i.requestedGeneration == 1
  }

  /** When a request advances the lease. */
  predicate Grants(row: Option<Lease>, i: Input) {
    || (StartsBrowser(row, i) && i.scope.exp - 300 <= i.nowEpoch < i.scope.exp)
    || (row != None && SameParty(row.value, i) && !Repeats(row.value, i) && PresentsCurrent(row.value, i)
        && row.value.refreshAfter <= i.nowEpoch < row.value.expiresAt)
  }

  /** When a request is answered with the lease it already produced. */
  predicate Repeated(row: Option<Lease>, i: Input) {
    row != None && SameParty(row.value, i) && Repeats(row.value, i) && i.nowEpoch < i.scope.exp
  }

  /** When there is no lease for a request. */
  predicate Missing(row: Option<Lease>, i: Input) {
    row == None && !StartsBrowser(row, i)
  }

  /** When a request's own capability has run out. */
  predicate OutOfDate(row: Option<Lease>, i: Input) {
    (StartsBrowser(row, i) || (row != None && SameParty(row.value, i))) && i.nowEpoch >= i.scope.exp
  }

  predicate BeforeWindow(row: Option<Lease>, i: Input) {
    || (StartsBrowser(row, i) && i.nowEpoch < i.scope.exp - 300)
    || (row != None && SameParty(row.value, i) && !Repeats(row.value, i) && PresentsCurrent(row.value, i)
        && i.nowEpoch < row.value.refreshAfter && i.nowEpoch < i.scope.exp)
  }

  /** Exactly when a request gets each answer; an ended call gets none but that nothing was found. */
  lemma AnsweredExactly(row: Option<Lease>, active: bool, i: Input)
    ensures var o := Rotate(row, active, i);
            && (o.Rotated? <==> WellFormed(i) && active && Grants(row, i))
            && (o.Replayed? <==> WellFormed(i) && active && Repeated(row, i))
            && (o.NotFound? <==> WellFormed(i) && (!active || Missing(row, i)))
            && (o.Expired? <==> WellFormed(i) && active && OutOfDate(row, i))
            && (o.TooEarly? <==> WellFormed(i) && active && BeforeWindow(row, i))
            && (o.Replayed? ==> Some(o.lease) == row)
  {
    WellFormedIff(i);
    hide InputValid, WellFormed;
    if WellFormed(i) && active && StartsBrowser(row, i) {
      FirstBrowserLease(i);
    } else if WellFormed(i) && active && row == None {
      NoBrowserLease(i);
    }
  }

  lemma WellFormedIff(i: Input)
    ensures InputValid(i) <==> WellFormed(i)
  {
  }

  lemma FirstBrowserLease(i: Input)
    requires WellFormed(i) && i.transport == Browser && i.requestedGeneration == 1
    ensures var l := InitialBrowserLease(i);
            && l.Some? && SameParty(l.value, i) && PresentsCurrent(l.value, i) && !Repeats(l.value, i)
            && l.value.refreshAfter == i.scope.exp - 300 && l.value.expiresAt == i.scope.exp
  {
  }

  lemma NoBrowserLease(i: Input)
    requires WellFormed(i) && !(i.transport == Browser && i.requestedGeneration == 1)
    ensures i.transport == Browser ==> InitialBrowserLease(i).None?
  {
  }

  // The lease as a function of the requests before

  predicate RotatesAt(row: Option<Lease>, requests: seq<Request>, k: nat)
    requires k < |requests|
  {
    OutcomeAt(row, requests, k).Rotated?
  }

  /** How many of the requests rotated. */
  function Rotations(row: Option<Lease>, requests: seq<Request>): nat {
    if requests == [] then 0
    else Rotations(row, requests[..|requests| - 1]) + if RotatesAt(row, requests, |requests| - 1) then 1 else 0
  }

  /** The last request that rotated. */
  function LastRotation(row: Option<Lease>, requests: seq<Request>): (r: Option<Input>) {
    if requests == [] then None
    else if RotatesAt(row, requests, |requests| - 1) then Some(requests[|requests| - 1].input)
    else LastRotation(row, requests[..|requests| - 1])
  }

  /** Generation zero: the row that bootstrap wrote, or the capability a browser session started from. */
  function Origin(row: Option<Lease>, requests: seq<Request>): Option<Lease> {
    if row.Some? || requests == [] then row
    else
      var before := Origin(row, requests[..|requests| - 1]);
      if before.Some? || !RotatesAt(row, requests, |requests| - 1) then before
      else Some(BrowserOrigin(requests[|requests| - 1].input.scope))
  }

  function BrowserOrigin(scope: Scope): Lease {
    Lease(Browser, scope.callId, scope.callId, None, None, scope.provider, scope.jti, 0, scope.jti, None, None, None,
          scope.iat, scope.exp - 300, scope.exp)
  }

  /** The lease after `n` rotations from its origin, the last of them granted to request `i`. */
  function LeaseAfter(origin: Lease, n: nat, i: Input): Lease
    requires n > 0 && i.nowEpoch >= 0
  {
    var g := origin.generation + n;
    Lease(origin.transport, origin.callId, origin.sessionId, origin.bridgeInstanceId, origin.streamSid, origin.provider,
          origin.root, g, RefreshJti(origin.root, g, origin.transport),
          Some(RefreshJti(origin.root, g - 1, origin.transport)),
          Some(RefreshJti(origin.root, g - 1, origin.transport)),
          Some(i.idempotencyKey), i.nowEpoch, i.nowEpoch + 1500, i.nowEpoch + 1800)
  }

  ghost predicate LeaseTold(row: Option<Lease>, requests: seq<Request>, lease: Option<Lease>) {
    var origin, n, last := Origin(row, requests), Rotations(row, requests), LastRotation(row, requests);
    if n == 0 then lease == row && origin == row && last == None
    else && origin.Some? && last.Some? && last.value.nowEpoch >= 0
         && lease == Some(LeaseAfter(origin.value, n, last.value))
  }

  lemma Granted(row: Option<Lease>, active: bool, i: Input)
    requires RowSound(row, i.transport) && Rotate(row, active, i).Rotated?
    ensures i.nowEpoch >= 0
    ensures var prior := if row.Some? then row.value else BrowserOrigin(i.scope);
            && prior.transport == i.transport
            && prior.currentJti == RefreshJti(prior.root, prior.generation, prior.transport)
            && Rotate(row, active, i).lease ==
               prior.(generation := prior.generation + 1, previousJti := Some(prior.currentJti),
                      lastConsumedJti := Some(prior.currentJti), lastKey := Some(i.idempotencyKey),
                      currentJti := RefreshJti(prior.root, prior.generation + 1, prior.transport),
                      issuedAt := i.nowEpoch, refreshAfter := i.nowEpoch + 1500, expiresAt := i.nowEpoch + 1800)
  {
    AnsweredExactly(row, active, i);
  }

  /** One more request counts, and is the last to rotate, exactly if it rotates. */
  lemma HistorySnoc(row: Option<Lease>, requests: seq<Request>)
    requires requests != []
    ensures var n := |requests| - 1;
            var before, rotates, i := requests[..n], RotatesAt(row, requests, n), requests[n].input;
            && Rotations(row, requests) == Rotations(row, before) + (if rotates then 1 else 0)
            && LastRotation(row, requests) == (if rotates then Some(i) else LastRotation(row, before))
            && Origin(row, requests) == (if rotates && Origin(row, before).None? then Some(BrowserOrigin(i.scope))
                                         else Origin(row, before))
  {
    hide RotatesAt, BrowserOrigin;
    OriginStays(row, requests[..|requests| - 1]);
  }

  lemma OriginStays(row: Option<Lease>, requests: seq<Request>)
    ensures row.Some? ==> Origin(row, requests) == row
  {
  }

  lemma AfterStep(row: Option<Lease>, requests: seq<Request>)
    requires requests != []
    ensures var n := |requests| - 1;
            var before, last := After(row, requests[..n]), requests[n];
            && (RotatesAt(row, requests, n) <==> Rotate(before, last.active, last.input).Rotated?)
            && After(row, requests) == if RotatesAt(row, requests, n)
                                       then Some(Rotate(before, last.active, last.input).lease) else before
  {
    hide Rotate;
  }

  lemma RotatedOn(before: Option<Lease>, origin: Option<Lease>, n: nat, last: Option<Input>, active: bool, i: Input)
    requires RowSound(before, i.transport) && Rotate(before, active, i).Rotated?
    requires if n == 0 then origin == before
             else origin.Some? && last.Some? && last.value.nowEpoch >= 0
                  && before == Some(LeaseAfter(origin.value, n, last.value))
    ensures i.nowEpoch >= 0
    ensures var from := if origin.None? then BrowserOrigin(i.scope) else origin.value;
            Rotate(before, active, i).lease == LeaseAfter(from, n + 1, i)
  {
    hide Rotate, RowSound, RefreshJti;
    Granted(before, active, i);
  }

  lemma ToldStep(row: Option<Lease>, requests: seq<Request>)
    requires requests != []
    requires RowSound(After(row, requests[..|requests| - 1]), requests[|requests| - 1].input.transport)
    requires LeaseTold(row, requests[..|requests| - 1], After(row, requests[..|requests| - 1]))
    ensures LeaseTold(row, requests, After(row, requests))
  {
    hide Rotate, RowSound, RefreshJti, RotatesAt, Origin, Rotations, LastRotation, After, LeaseAfter, BrowserOrigin;
    var n := |requests| - 1;
    var before, last := requests[..n], requests[n];
    HistorySnoc(row, requests);
    AfterStep(row, requests);
    if RotatesAt(row, requests, n) {
      RotatedOn(After(row, before), Origin(row, before), Rotations(row, before), LastRotation(row, before), last.active,
                last.input);
    }
  }

  /**
   * After any requests of a session its lease is what bootstrap or the first browser request gave, as many generations
   * on as requests rotated, with the times and the key of the last of them.
   */
  lemma {:induction false} LeaseIsHistory(row: Option<Lease>, requests: seq<Request>, t: Transport)
    requires RowSound(row, t) && SameTransport(requests, t)
    ensures LeaseTold(row, requests, After(row, requests))
  {
    if requests != [] {
      hide LeaseTold, RowSound, After;
      var n := |requests| - 1;
      LeaseIsHistory(row, requests[..n], t);
      RunSound(row, requests, t, n, n);
      ToldStep(row, requests);
    }
  }

  /** When a request rotates a lease that has rotated before: it holds the last capability granted, in its window. */
  predicate PresentsLast(origin: Lease, n: nat, last: Input, i: Input) {
    && SameParty(origin, i) && i.requestedGeneration == origin.generation + n + 1
    && i.scope.jti == RefreshJti(origin.root, origin.generation + n, origin.transport)
    && i.scope.iat == last.nowEpoch && last.nowEpoch + 1500 <= i.nowEpoch < last.nowEpoch + 1800
  }

  /** When a request repeats the last one that rotated, while its own capability is unexpired. */
  predicate RepeatsLast(origin: Lease, n: nat, last: Input, i: Input)
    requires n > 0
  {
    && SameParty(origin, i) && i.requestedGeneration == origin.generation + n
    && i.scope.jti == RefreshJti(origin.root, origin.generation + n - 1, origin.transport)
    && i.idempotencyKey == last.idempotencyKey && i.nowEpoch < i.scope.exp
  }

  /**
   * In any sequence of requests of a session, exactly when the k-th rotates and when it is answered as a repetition:
   * from its own fields and the requests granted before it.
   */
  lemma GrantedByHistory(row: Option<Lease>, requests: seq<Request>, t: Transport, k: nat)
    requires k < |requests| && RowSound(row, t) && SameTransport(requests, t)
    ensures var before, i := requests[..k], requests[k].input;
            var origin, n, last := Origin(row, before), Rotations(row, before), LastRotation(row, before);
            && (n > 0 ==> origin.Some? && last.Some?)
            && (OutcomeAt(row, requests, k).Rotated? <==>
                  && WellFormed(i) && requests[k].active
                  && if n == 0 then Grants(row, i) else PresentsLast(origin.value, n, last.value, i))
            && (OutcomeAt(row, requests, k).Replayed? <==>
                  && WellFormed(i) && requests[k].active
                  && if n == 0 then Repeated(row, i) else RepeatsLast(origin.value, n, last.value, i))
  {
    hide Rotate, WellFormed, RefreshJti, RowSound;
    LeaseIsHistory(row, requests[..k], t);
    AnsweredExactly(After(row, requests[..k]), requests[k].active, requests[k].input);
    WindowOf(requests[k].input);
  }

  lemma WindowOf(i: Input)
    ensures WellFormed(i) ==> i.scope.exp == i.scope.iat + 1800
  {
  }
}
