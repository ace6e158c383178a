/**
 * One credential slot under concurrent finalizers: each SQL statement is one atomic step, and between any two steps
 * other finalizers run, processes crash, answers are lost and time passes.
 */
module CredentialSlot {
  import opened Common

  type Id = nat

  const CLAIM_TTL_SECONDS: nat := 45
  const MAX_ATTEMPTS: nat := 5

  // The row and the statements on it

  datatype SlotState =
    | Pending
    | Finalizing(token: Id, claimExpires: nat)
    | Completed(receipt: Id, submission: Id)

  datatype Row = Row(state: SlotState, attempts: nat, expiresAt: nat)

  /** The claiming update, with a token no other claim uses; None when no row qualifies. */
  function Claim(row: Row, token: Id, now: nat): Option<Row> {
    if row.expiresAt > now && row.attempts < MAX_ATTEMPTS
       && (row.state.Pending? || (row.state.Finalizing? && row.state.claimExpires <= now))
    then Some(row.(state := Finalizing(token, now + CLAIM_TTL_SECONDS), attempts := row.attempts + 1))
    else None
  }

  predicate ClaimHeld(row: Row, token: Id, now: nat) {
    row.state.Finalizing? && row.state.token == token && row.state.claimExpires > now && row.expiresAt > now
  }

  /**
   * The committing statement: destination write and completion together.  `applies` is false when the destination
   * refuses the write, as it does for a server that moved to another organisation or address.
   */
  function Commit(row: Row, token: Id, receipt: Id, submission: Id, applies: bool, now: nat): Option<Row> {
    if ClaimHeld(row, token, now) && applies then Some(row.(state := Completed(receipt, submission))) else None
  }

  /** The aborting update of a finalizer that failed. */
  function Abort(row: Row, token: Id, now: nat): Row {
    if row.state.Finalizing? && row.state.token == token && row.expiresAt > now then row.(state := Pending) else row
  }

  datatype Outcome =
    | CompletedNow(receipt: Id)
    | CompletedBefore(receipt: Id)
    | AlreadyUsed
    | Unavailable
    | SinkFailed

  /** What a finalizer that could not claim is told. */
  function Look(row: Option<Row>, submission: Id): Outcome {
    if row.None? || !row.value.state.Completed? then Unavailable
    else if row.value.state.submission != submission then AlreadyUsed
    else CompletedBefore(row.value.state.receipt)
  }

  // Finalizers

  datatype Phase =
    | Claimed(token: Id)
    | Looking
    | Failing(token: Id)
    | Ended(outcome: Outcome)

  datatype Finalizer = Finalizer(submission: Id, phase: Phase)

  /** A write that reached the destination. */
  datatype Write = Write(finalizer: Id, submission: Id, receipt: Id)

  datatype World = World(
    row: Option<Row>, now: nat, nextToken: Id, finalizers: map<Id, Finalizer>, writes: seq<Write>, claims: nat)

  datatype Action =
    | Begin(pid: Id, submission: Id)
    | Read(pid: Id)
    | Finish(pid: Id, receipt: Id, applies: bool, answered: bool)
    | GiveUp(pid: Id)
    | Release(pid: Id, applied: bool)
    | Crash(pid: Id)
    | Wait(seconds: nat)
    | Prune

  function Enter(w: World, pid: Id, phase: Phase): World
    requires pid in w.finalizers
  {
    w.(finalizers := w.finalizers[pid := w.finalizers[pid].(phase := phase)])
  }

  function BeginStep(w: World, pid: Id, submission: Id): World {
    var claimed := if w.row.Some? then Claim(w.row.value, w.nextToken, w.now) else None;
    if claimed.Some? then
      w.(row := claimed, nextToken := w.nextToken + 1, claims := w.claims + 1,
         finalizers := w.finalizers[pid := Finalizer(submission, Claimed(w.nextToken))])
    else w.(nextToken := w.nextToken + 1, finalizers := w.finalizers[pid := Finalizer(submission, Looking)])
  }

  /** The commit; a lost answer looks like a failure to the finalizer although the statement took effect. */
  function FinishStep(w: World, pid: Id, receipt: Id, applies: bool, answered: bool): World
    requires pid in w.finalizers && w.finalizers[pid].phase.Claimed?
  {
    var f := w.finalizers[pid];
    var done := if w.row.None? then None
                else Commit(w.row.value, f.phase.token, receipt, f.submission, applies, w.now);
    var after := if done.None? then w
                 else w.(row := done, writes := w.writes + [Write(pid, f.submission, receipt)]);
    Enter(after, pid, if done.Some? && answered then Ended(CompletedNow(receipt)) else Failing(f.phase.token))
  }

  function Step(w: World, a: Action): World {
    match a
    case Begin(pid, submission) => if pid in w.finalizers then w else BeginStep(w, pid, submission)
    case Read(pid) =>
      if pid !in w.finalizers || !w.finalizers[pid].phase.Looking? then w
      else Enter(w, pid, Ended(Look(w.row, w.finalizers[pid].submission)))
    case Finish(pid, receipt, applies, answered) =>
      if pid !in w.finalizers || !w.finalizers[pid].phase.Claimed? then w
      else FinishStep(w, pid, receipt, applies, answered)
    case GiveUp(pid) =>
      if pid !in w.finalizers || !w.finalizers[pid].phase.Claimed? then w
      else Enter(w, pid, Failing(w.finalizers[pid].phase.token))
    case Release(pid, applied) =>
      if pid !in w.finalizers || !w.finalizers[pid].phase.Failing? then w
      else
        var token := w.finalizers[pid].phase.token;
        var row := if w.row.Some? && applied then Some(Abort(w.row.value, token, w.now)) else w.row;
        Enter(w.(row := row), pid, Ended(SinkFailed))
    case Crash(pid) => w.(finalizers := w.finalizers - {pid})
    case Wait(seconds) => w.(now := w.now + seconds)
    case Prune => w.(row := None)
  }

  function Created(expiresAt: nat): World {
    World(Some(Row(Pending, 0, expiresAt)), 0, 0, map[], [], 0)
  }

  function Run(w: World, actions: seq<Action>): World {
    if actions == [] then w else Step(Run(w, actions[..|actions| - 1]), actions[|actions| - 1])
  }

  // What every interleaving keeps

  /** While the row exists, exactly the completed slot was written, once, with the stored receipt and submission. */
  ghost predicate RowMatchesWrites(w: World) {
    && |w.writes| <= 1
    && (w.row.Some? ==>
          match w.row.value.state
          case Completed(receipt, submission) =>
            |w.writes| == 1 && w.writes[0].receipt == receipt && w.writes[0].submission == submission
          case _ => w.writes == [])
  }

  /** Tokens are never reused: the row's claim and every finalizer's were issued, and no two finalizers share one. */
  ghost predicate TokensUnique(w: World) {
    && (w.row.Some? && w.row.value.state.Finalizing? ==> w.row.value.state.token < w.nextToken)
    && (forall p <- w.finalizers :: HoldsToken(w.finalizers[p].phase) ==> TokenOf(w.finalizers[p].phase) < w.nextToken)
    && (forall p, q :: p in w.finalizers && q in w.finalizers && p != q ==>
          !SameToken(w.finalizers[p].phase, w.finalizers[q].phase))
  }

  predicate HoldsToken(phase: Phase) {
    phase.Claimed? || phase.Failing?
  }

  predicate SameToken(a: Phase, b: Phase) {
    HoldsToken(a) && HoldsToken(b) && TokenOf(a) == TokenOf(b)
  }

  function TokenOf(phase: Phase): Id
    requires HoldsToken(phase)
  {
    phase.token
  }

  predicate DidComplete(phase: Phase) {
    phase.Ended? && phase.outcome.CompletedNow?
  }

  /** What a finished finalizer was told agrees with the one write. */
  ghost predicate OutcomeTrue(w: World, pid: Id, f: Finalizer) {
    match f.phase
    case Ended(CompletedNow(receipt)) => w.writes == [Write(pid, f.submission, receipt)]
    case Ended(CompletedBefore(receipt)) =>
      |w.writes| == 1 && w.writes[0].receipt == receipt && w.writes[0].submission == f.submission
    case Ended(AlreadyUsed) => |w.writes| == 1 && w.writes[0].submission != f.submission
    case _ => true
  }

  ghost predicate Sound(w: World) {
    && RowMatchesWrites(w)
    && TokensUnique(w)
    && (forall pid <- w.finalizers :: OutcomeTrue(w, pid, w.finalizers[pid]))
    && (w.row.Some? ==> w.row.value.attempts == w.claims)
    && w.claims <= MAX_ATTEMPTS
  }

  lemma FinishKeeps(w: World, pid: Id, receipt: Id, applies: bool, answered: bool)
    requires Sound(w) && pid in w.finalizers && w.finalizers[pid].phase.Claimed?
    ensures Sound(FinishStep(w, pid, receipt, applies, answered))
  {
    var next := FinishStep(w, pid, receipt, applies, answered);
    forall p <- next.finalizers ensures OutcomeTrue(next, p, next.finalizers[p]) {
      assert p != pid ==> OutcomeTrue(w, p, w.finalizers[p]);
    }
  }

  lemma BeginKeeps(w: World, pid: Id, submission: Id)
    requires Sound(w) && pid !in w.finalizers
    ensures Sound(BeginStep(w, pid, submission))
  {
    var next := BeginStep(w, pid, submission);
    forall p <- next.finalizers ensures OutcomeTrue(next, p, next.finalizers[p]) {
      assert p != pid ==> OutcomeTrue(w, p, w.finalizers[p]);
    }
  }

  lemma EnterKeeps(w: World, pid: Id, phase: Phase)
    requires Sound(w) && pid in w.finalizers && OutcomeTrue(w, pid, w.finalizers[pid].(phase := phase))
    requires HoldsToken(phase) ==> SameToken(phase, w.finalizers[pid].phase)
    ensures Sound(Enter(w, pid, phase))
  {
    hide RowMatchesWrites;
    var next := Enter(w, pid, phase);
    forall p <- next.finalizers ensures OutcomeTrue(next, p, next.finalizers[p]) {
      assert OutcomeTrue(w, p, w.finalizers[p]);
    }
    RowFrame(w, next);
  }

  lemma RowFrame(w: World, next: World)
    requires next.row == w.row && next.writes == w.writes
    ensures RowMatchesWrites(w) <==> RowMatchesWrites(next)
  {
  }

  /** The row loses its claim, disappears or stays, and the finalizers and writes stay. */
  lemma RowKeeps(w: World, row: Option<Row>, now: nat)
    requires Sound(w)
    requires row.Some? ==> w.row.Some? && row.value.attempts == w.row.value.attempts
    requires row.Some? && row.value.state != w.row.value.state ==>
               w.row.value.state.Finalizing? && row.value.state.Pending?
    ensures Sound(w.(row := row, now := now))
  {
    var next := w.(row := row, now := now);
    forall p <- next.finalizers ensures OutcomeTrue(next, p, next.finalizers[p]) {
      assert OutcomeTrue(w, p, w.finalizers[p]);
    }
  }

  lemma CrashKeeps(w: World, pid: Id)
    requires Sound(w)
    ensures Sound(w.(finalizers := w.finalizers - {pid}))
  {
    var next := w.(finalizers := w.finalizers - {pid});
    forall p <- next.finalizers ensures OutcomeTrue(next, p, next.finalizers[p]) {
      assert OutcomeTrue(w, p, w.finalizers[p]);
    }
  }

  lemma ReleaseKeeps(w: World, pid: Id, applied: bool)
    requires Sound(w) && pid in w.finalizers && w.finalizers[pid].phase.Failing?
    ensures Sound(Step(w, Release(pid, applied)))
  {
    var token := w.finalizers[pid].phase.token;
    var row := if w.row.Some? && applied then Some(Abort(w.row.value, token, w.now)) else w.row;
    RowKeeps(w, row, w.now);
    hide Sound, Abort;
    EnterKeeps(w.(row := row), pid, Ended(SinkFailed));
  }

  lemma ReadKeeps(w: World, pid: Id)
    requires Sound(w) && pid in w.finalizers && w.finalizers[pid].phase.Looking?
    ensures Sound(Enter(w, pid, Ended(Look(w.row, w.finalizers[pid].submission))))
  {
    LookTrue(w, pid, w.finalizers[pid].submission);
    hide Sound, Look;
    EnterKeeps(w, pid, Ended(Look(w.row, w.finalizers[pid].submission)));
  }

  lemma LookTrue(w: World, pid: Id, submission: Id)
    requires RowMatchesWrites(w)
    ensures OutcomeTrue(w, pid, Finalizer(submission, Ended(Look(w.row, submission))))
  {
  }

  lemma StepKeeps(w: World, a: Action)
    requires Sound(w)
    ensures Sound(Step(w, a))
  {
    hide Sound, BeginStep, FinishStep, Abort, Look;
    match a
    case Begin(pid, submission) =>
      if pid !in w.finalizers {
        BeginKeeps(w, pid, submission);
      }
    case Read(pid) =>
      if pid in w.finalizers && w.finalizers[pid].phase.Looking? {
        ReadKeeps(w, pid);
      }
    case Finish(pid, receipt, applies, answered) =>
      if pid in w.finalizers && w.finalizers[pid].phase.Claimed? {
        FinishKeeps(w, pid, receipt, applies, answered);
      }
    case GiveUp(pid) =>
      if pid in w.finalizers && w.finalizers[pid].phase.Claimed? {
        EnterKeeps(w, pid, Failing(w.finalizers[pid].phase.token));
      }
    case Release(pid, applied) =>
      if pid in w.finalizers && w.finalizers[pid].phase.Failing? {
        ReleaseKeeps(w, pid, applied);
      }
    case Crash(pid) => CrashKeeps(w, pid);
    case Wait(seconds) => RowKeeps(w, w.row, w.now + seconds);
    case Prune => RowKeeps(w, None, w.now);
  }

  lemma {:induction false} RunSound(expiresAt: nat, actions: seq<Action>)
    ensures Sound(Run(Created(expiresAt), actions))
  {
    if actions != [] {
      hide Sound, Step;
      RunSound(expiresAt, actions[..|actions| - 1]);
      StepKeeps(Run(Created(expiresAt), actions[..|actions| - 1]), actions[|actions| - 1]);
    } else {
      assert Sound(Created(expiresAt));
    }
  }

  // Main results

  /**
   * For every interleaving: the destination is written at most once and at most five claims succeed; and while the
   * row exists it is completed exactly when the write happened, holding that write's receipt and submission.
   */
  lemma WrittenOnce(expiresAt: nat, actions: seq<Action>)
    ensures var w := Run(Created(expiresAt), actions);
            && |w.writes| <= 1 && w.claims <= MAX_ATTEMPTS
            && (w.row.Some? ==> (w.row.value.state.Completed? <==> w.writes != []))
            && (w.row.Some? && w.writes != [] ==>
                  w.row.value.state == Completed(w.writes[0].receipt, w.writes[0].submission))
  {
    hide Run;
    RunSound(expiresAt, actions);
  }

  /** The write and the completion are one step, taken by the holder of the live claim. */
  lemma WriteCompletes(expiresAt: nat, actions: seq<Action>, a: Action)
    ensures var w := Run(Created(expiresAt), actions);
            var next := Step(w, a);
            next.writes != w.writes ==>
              && a.Finish? && a.pid in w.finalizers && w.finalizers[a.pid].phase.Claimed?
              && w.row.Some? && ClaimHeld(w.row.value, w.finalizers[a.pid].phase.token, w.now)
              && next.row.Some? && next.row.value.state == Completed(a.receipt, w.finalizers[a.pid].submission)
              && next.writes == [Write(a.pid, w.finalizers[a.pid].submission, a.receipt)]
  {
    hide Run;
    RunSound(expiresAt, actions);
  }

  /**
   * Once the slot was written and while its row exists, no claim succeeds, the winning submission is always answered
   * with the stored receipt, and any other submission that it was already used.
   */
  lemma LaterSubmissions(expiresAt: nat, actions: seq<Action>, submission: Id, token: Id, now: nat)
    requires var w := Run(Created(expiresAt), actions); w.writes != [] && w.row.Some?
    ensures var w := Run(Created(expiresAt), actions);
            && Claim(w.row.value, token, now).None?
            && Look(w.row, submission) == if submission == w.writes[0].submission
                                          then CompletedBefore(w.writes[0].receipt) else AlreadyUsed
  {
    hide Run;
    RunSound(expiresAt, actions);
  }

  /** Whatever finalizers were told, at any point of any interleaving, agrees with the one write. */
  lemma AnswersAgree(expiresAt: nat, actions: seq<Action>, p: Id, q: Id)
    requires var w := Run(Created(expiresAt), actions); p in w.finalizers && q in w.finalizers
    ensures var w := Run(Created(expiresAt), actions);
            && OutcomeTrue(w, p, w.finalizers[p])
            && (DidComplete(w.finalizers[p].phase) && DidComplete(w.finalizers[q].phase) ==> p == q)
  {
    hide Run;
    RunSound(expiresAt, actions);
    var w := Run(Created(expiresAt), actions);
    assert OutcomeTrue(w, p, w.finalizers[p]) && OutcomeTrue(w, q, w.finalizers[q]);
  }

  /** A finalizer whose claim expired and was taken over can neither write nor undo the new claim. */
  lemma StaleClaimPowerless(expiresAt: nat, actions: seq<Action>, p: Id, q: Id, receipt: Id, applies: bool)
    requires var w := Run(Created(expiresAt), actions);
             && p in w.finalizers && q in w.finalizers && p != q && w.row.Some? && w.row.value.state.Finalizing?
             && HoldsToken(w.finalizers[p].phase) && HoldsToken(w.finalizers[q].phase)
             && w.row.value.state.token == TokenOf(w.finalizers[q].phase)
    ensures var w := Run(Created(expiresAt), actions);
            var token := TokenOf(w.finalizers[p].phase);
            && Commit(w.row.value, token, receipt, w.finalizers[p].submission, applies, w.now).None?
            && Abort(w.row.value, token, w.now) == w.row.value
  {
    hide Run;
    RunSound(expiresAt, actions);
  }
}
