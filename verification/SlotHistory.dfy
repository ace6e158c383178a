/** A credential slot read from the run itself: who claimed it when, and exactly when a claim or a write succeeds. */
module SlotHistory {
  import opened CredentialSlot

  // The run

  /** The seconds that have passed. */
  function Clock(actions: seq<Action>): nat {
    if actions == [] then 0
    else
      var n := |actions| - 1;
      Clock(actions[..n]) + if actions[n].Wait? then actions[n].seconds else 0
  }

  function At(expiresAt: nat, actions: seq<Action>, i: nat): World
    requires i <= |actions|
  {
    Run(Created(expiresAt), actions[..i])
  }

  /** At step `i` a finalizer began, and began with the claim. */
  predicate ClaimsAt(expiresAt: nat, actions: seq<Action>, i: nat)
    requires i < |actions|
  {
    && actions[i].Begin? && actions[i].pid !in At(expiresAt, actions, i).finalizers
    && var after := At(expiresAt, actions, i + 1).finalizers;
       actions[i].pid in after && after[actions[i].pid].phase.Claimed?
  }

  /** The token that the finalizer beginning at step `i` brings. */
  function TokenAt(expiresAt: nat, actions: seq<Action>, i: nat): Id
    requires i <= |actions|
  {
    At(expiresAt, actions, i).nextToken
  }

  /** At step `m` the failing holder of the token gives it back, before the slot expires. */
  predicate ReleasesAt(expiresAt: nat, actions: seq<Action>, m: nat, token: Id)
    requires m < |actions|
  {
    && actions[m].Release? && actions[m].applied && Clock(actions[..m]) < expiresAt
    && var f := At(expiresAt, actions, m).finalizers;
       actions[m].pid in f && f[actions[m].pid].phase == Failing(token)
  }

  function ClaimCount(expiresAt: nat, actions: seq<Action>): nat {
    if actions == [] then 0
    else
      var n := |actions| - 1;
      ClaimCount(expiresAt, actions[..n]) + if ClaimsAt(expiresAt, actions, n) then 1 else 0
  }

  ghost predicate LastClaim(expiresAt: nat, actions: seq<Action>, i: nat) {
    && i < |actions| && ClaimsAt(expiresAt, actions, i)
    && forall j :: i < j < |actions| ==> !ClaimsAt(expiresAt, actions, j)
  }

  ghost predicate FreedSince(expiresAt: nat, actions: seq<Action>, i: nat)
    requires i <= |actions|
  {
    exists m :: i < m < |actions| && ReleasesAt(expiresAt, actions, m, TokenAt(expiresAt, actions, i))
  }

  // The row as the run tells it

  ghost predicate HolderTold(expiresAt: nat, actions: seq<Action>, state: SlotState) {
    match state
    case Pending => forall i: nat :: LastClaim(expiresAt, actions, i) ==> FreedSince(expiresAt, actions, i)
    case Finalizing(token, until) =>
      exists i: nat :: LastClaim(expiresAt, actions, i) && !FreedSince(expiresAt, actions, i)
        && token == TokenAt(expiresAt, actions, i) && until == Clock(actions[..i]) + 45
    case Completed(_, _) => true
  }

  ghost predicate SlotTold(expiresAt: nat, actions: seq<Action>, w: World) {
    && w.now == Clock(actions) && w.claims == ClaimCount(expiresAt, actions)
    && (w.row.None? <==> Prune in actions)
    && (w.row.Some? ==> w.row.value.expiresAt == expiresAt && HolderTold(expiresAt, actions, w.row.value.state))
  }

  lemma Earlier(expiresAt: nat, actions: seq<Action>, a: Action, i: nat)
    requires i <= |actions|
    ensures At(expiresAt, actions + [a], i) == At(expiresAt, actions, i)
    ensures (actions + [a])[..i] == actions[..i]
  {
    hide Run, Created;
    assert (actions + [a])[..i] == actions[..i];
  }

  lemma EarlierClaims(expiresAt: nat, actions: seq<Action>, a: Action, i: nat)
    requires i < |actions|
    ensures ClaimsAt(expiresAt, actions + [a], i) == ClaimsAt(expiresAt, actions, i)
    ensures forall token :: ReleasesAt(expiresAt, actions + [a], i, token) == ReleasesAt(expiresAt, actions, i, token)
  {
    hide At;
    Earlier(expiresAt, actions, a, i);
    Earlier(expiresAt, actions, a, i + 1);
    assert (actions + [a])[i] == actions[i];
  }

  lemma Latest(expiresAt: nat, actions: seq<Action>, a: Action)
    ensures var more, w := actions + [a], Run(Created(expiresAt), actions);
            && At(expiresAt, more, |actions|) == w && more[..|actions|] == actions && more[|actions|] == a
            && At(expiresAt, more, |more|) == Step(w, a) && Run(Created(expiresAt), more) == Step(w, a)
  {
    hide Step, Created;
    var more := actions + [a];
    assert more[..|actions|] == actions && more[..|more|] == more;
  }

  lemma CountSnoc(expiresAt: nat, actions: seq<Action>, a: Action)
    ensures ClaimCount(expiresAt, actions + [a]) ==
            ClaimCount(expiresAt, actions) + if ClaimsAt(expiresAt, actions + [a], |actions|) then 1 else 0
    ensures Clock(actions + [a]) == Clock(actions) + if a.Wait? then a.seconds else 0
  {
    hide ClaimsAt;
    assert (actions + [a])[..|actions|] == actions;
  }

  lemma FreedSnoc(expiresAt: nat, actions: seq<Action>, a: Action, i: nat)
    requires i < |actions|
    ensures TokenAt(expiresAt, actions + [a], i) == TokenAt(expiresAt, actions, i)
    ensures FreedSince(expiresAt, actions + [a], i) <==>
            FreedSince(expiresAt, actions, i)
            || ReleasesAt(expiresAt, actions + [a], |actions|, TokenAt(expiresAt, actions, i))
  {
    var more, token := actions + [a], TokenAt(expiresAt, actions, i);
    Earlier(expiresAt, actions, a, i);
    hide At, ReleasesAt, ClaimsAt;
    forall m: nat | m < |actions|
      ensures ReleasesAt(expiresAt, more, m, token) == ReleasesAt(expiresAt, actions, m, token)
    {
      EarlierClaims(expiresAt, actions, a, m);
    }
  }

  lemma LastSnoc(expiresAt: nat, actions: seq<Action>, a: Action, i: nat)
    ensures LastClaim(expiresAt, actions + [a], i) <==>
            if ClaimsAt(expiresAt, actions + [a], |actions|) then i == |actions| else LastClaim(expiresAt, actions, i)
  {
    hide At, ClaimsAt;
    var more := actions + [a];
    forall j: nat | j < |actions| ensures ClaimsAt(expiresAt, more, j) == ClaimsAt(expiresAt, actions, j) {
      EarlierClaims(expiresAt, actions, a, j);
    }
  }

  /** An action that neither claims nor releases leaves the holder as it was. */
  lemma HolderStays(expiresAt: nat, actions: seq<Action>, a: Action, state: SlotState)
    requires HolderTold(expiresAt, actions, state) && !ClaimsAt(expiresAt, actions + [a], |actions|)
    requires state.Finalizing? ==> !ReleasesAt(expiresAt, actions + [a], |actions|, state.token)
    ensures HolderTold(expiresAt, actions + [a], state)
  {
    hide LastClaim, FreedSince, ClaimsAt, ReleasesAt, TokenAt;
    var more := actions + [a];
    forall i: nat ensures LastClaim(expiresAt, more, i) <==> LastClaim(expiresAt, actions, i) {
      LastSnoc(expiresAt, actions, a, i);
    }
    forall i: nat | LastClaim(expiresAt, actions, i)
      ensures i < |actions| && TokenAt(expiresAt, more, i) == TokenAt(expiresAt, actions, i)
      ensures more[..i] == actions[..i]
      ensures FreedSince(expiresAt, more, i) <==>
              (FreedSince(expiresAt, actions, i)
               || ReleasesAt(expiresAt, more, |actions|, TokenAt(expiresAt, actions, i)))
    {
      LastIsWithin(expiresAt, actions, i);
      FreedSnoc(expiresAt, actions, a, i);
      Earlier(expiresAt, actions, a, i);
    }
  }

  lemma LastIsWithin(expiresAt: nat, actions: seq<Action>, i: nat)
    requires LastClaim(expiresAt, actions, i)
    ensures i < |actions|
  {
  }

  lemma NewHolder(expiresAt: nat, actions: seq<Action>, a: Action, w: World)
    requires w == Run(Created(expiresAt), actions) && w.now == Clock(actions)
    requires ClaimsAt(expiresAt, actions + [a], |actions|)
    ensures HolderTold(expiresAt, actions + [a], Finalizing(w.nextToken, w.now + 45))
  {
    hide ClaimsAt, ReleasesAt, Run;
    var more := actions + [a];
    LastSnoc(expiresAt, actions, a, |actions|);
    Latest(expiresAt, actions, a);
    assert LastClaim(expiresAt, more, |actions|) && !FreedSince(expiresAt, more, |actions|);
    assert TokenAt(expiresAt, more, |actions|) == w.nextToken;
  }

  lemma HolderFreed(expiresAt: nat, actions: seq<Action>, a: Action, token: Id, until: nat)
    requires HolderTold(expiresAt, actions, Finalizing(token, until)) && !ClaimsAt(expiresAt, actions + [a], |actions|)
    requires ReleasesAt(expiresAt, actions + [a], |actions|, token)
    ensures HolderTold(expiresAt, actions + [a], Pending)
  {
    hide FreedSince, ClaimsAt, ReleasesAt, TokenAt;
    var more := actions + [a];
    var i: nat :| LastClaim(expiresAt, actions, i) && !FreedSince(expiresAt, actions, i)
        && token == TokenAt(expiresAt, actions, i) && until == Clock(actions[..i]) + 45;
    LastIsWithin(expiresAt, actions, i);
    FreedSnoc(expiresAt, actions, a, i);
    forall j: nat | LastClaim(expiresAt, more, j) ensures FreedSince(expiresAt, more, j) {
      LastSnoc(expiresAt, actions, a, j);
      OneLast(expiresAt, actions, i, j);
    }
  }

  lemma OneLast(expiresAt: nat, actions: seq<Action>, i: nat, j: nat)
    requires LastClaim(expiresAt, actions, i) && LastClaim(expiresAt, actions, j)
    ensures i == j
  {
    hide ClaimsAt;
  }

  // Steps

  lemma BeginTold(expiresAt: nat, actions: seq<Action>, a: Action, w: World)
    requires w == Run(Created(expiresAt), actions) && SlotTold(expiresAt, actions, w) && a.Begin?
    ensures SlotTold(expiresAt, actions + [a], Step(w, a))
  {
    Latest(expiresAt, actions, a);
    CountSnoc(expiresAt, actions, a);
    hide Run, HolderTold, LastClaim, FreedSince, TokenAt;
    var more, t := actions + [a], Step(w, a);
    var claims := ClaimsAt(expiresAt, more, |actions|);
    assert claims <==> a.pid !in w.finalizers && t.finalizers[a.pid].phase.Claimed?;
    if claims {
      NewHolder(expiresAt, actions, a, w);
    } else if w.row.Some? {
      HolderStays(expiresAt, actions, a, w.row.value.state);
    }
  }

  lemma ReleaseTold(expiresAt: nat, actions: seq<Action>, a: Action, w: World)
    requires w == Run(Created(expiresAt), actions) && SlotTold(expiresAt, actions, w) && a.Release?
    ensures SlotTold(expiresAt, actions + [a], Step(w, a))
  {
    Latest(expiresAt, actions, a);
    CountSnoc(expiresAt, actions, a);
    hide Run, HolderTold, LastClaim, FreedSince, TokenAt;
    var more := actions + [a];
    if w.row.Some? {
      var state := w.row.value.state;
      if state.Finalizing? && ReleasesAt(expiresAt, more, |actions|, state.token) {
        HolderFreed(expiresAt, actions, a, state.token, state.claimExpires);
      } else {
        HolderStays(expiresAt, actions, a, state);
      }
    }
  }

  lemma OtherTold(expiresAt: nat, actions: seq<Action>, a: Action, w: World)
    requires w == Run(Created(expiresAt), actions) && SlotTold(expiresAt, actions, w) && !a.Begin? && !a.Release?
    ensures SlotTold(expiresAt, actions + [a], Step(w, a))
  {
    Latest(expiresAt, actions, a);
    CountSnoc(expiresAt, actions, a);
    hide Run, LastClaim, FreedSince, TokenAt;
    if w.row.Some? {
      HolderStays(expiresAt, actions, a, w.row.value.state);
    }
    hide HolderTold;
    if a.Finish? && a.pid in w.finalizers && w.finalizers[a.pid].phase.Claimed? {
      FinishTold(expiresAt, actions + [a], w, a);
    }
  }

  lemma FinishTold(expiresAt: nat, more: seq<Action>, w: World, a: Action)
    requires a.Finish? && a.pid in w.finalizers && w.finalizers[a.pid].phase.Claimed?
    requires w.row.Some? ==> HolderTold(expiresAt, more, w.row.value.state)
    ensures var t := Step(w, a);
            && t.now == w.now && t.claims == w.claims && (t.row.None? <==> w.row.None?)
            && (t.row.Some? ==> t.row.value.expiresAt == w.row.value.expiresAt
                                && HolderTold(expiresAt, more, t.row.value.state))
  {
    hide LastClaim, FreedSince, TokenAt;
  }

  lemma {:induction false} RunTold(expiresAt: nat, actions: seq<Action>)
    ensures SlotTold(expiresAt, actions, Run(Created(expiresAt), actions))
  {
    if actions == [] {
      assert forall i: nat :: !LastClaim(expiresAt, actions, i);
    } else {
      hide SlotTold, Step;
      var n := |actions| - 1;
      var before, a := actions[..n], actions[n];
      var w := Run(Created(expiresAt), before);
      RunTold(expiresAt, before);
      assert actions == before + [a];
      if a.Begin? {
        BeginTold(expiresAt, before, a, w);
      } else if a.Release? {
        ReleaseTold(expiresAt, before, a, w);
      } else {
        OtherTold(expiresAt, before, a, w);
      }
    }
  }

  // Main results

  /** The slot can still be claimed: neither pruned nor expired nor written, and claimed fewer than five times. */
  ghost predicate Claimable(expiresAt: nat, actions: seq<Action>) {
    && Prune !in actions && Clock(actions) < expiresAt && ClaimCount(expiresAt, actions) < 5
    && Run(Created(expiresAt), actions).writes == []
  }

  /** The last claim, if there was one, was given back or is 45 seconds old. */
  ghost predicate Unheld(expiresAt: nat, actions: seq<Action>) {
    forall i: nat :: LastClaim(expiresAt, actions, i) ==>
      FreedSince(expiresAt, actions, i) || Clock(actions[..i]) + 45 <= Clock(actions)
  }

  lemma UnheldIff(expiresAt: nat, actions: seq<Action>, w: World)
    requires SlotTold(expiresAt, actions, w) && w.row.Some? && !w.row.value.state.Completed?
    ensures Unheld(expiresAt, actions) <==>
            w.row.value.state.Pending? || w.row.value.state.claimExpires <= w.now
  {
    hide ClaimsAt, FreedSince, TokenAt, Clock;
    if w.row.value.state.Finalizing? {
      var i: nat :| LastClaim(expiresAt, actions, i) && !FreedSince(expiresAt, actions, i)
          && w.row.value.state.token == TokenAt(expiresAt, actions, i)
          && w.row.value.state.claimExpires == Clock(actions[..i]) + 45;
      forall j: nat | LastClaim(expiresAt, actions, j) ensures j == i {
        OneLast(expiresAt, actions, i, j);
      }
    }
  }

  /** At any point of any interleaving, a finalizer that begins gets the claim exactly when the slot is free. */
  lemma ClaimedExactly(expiresAt: nat, actions: seq<Action>, pid: Id, submission: Id)
    requires pid !in Run(Created(expiresAt), actions).finalizers
    ensures ClaimsAt(expiresAt, actions + [Begin(pid, submission)], |actions|) <==>
            Claimable(expiresAt, actions) && Unheld(expiresAt, actions)
    ensures Run(Created(expiresAt), actions + [Begin(pid, submission)]).writes ==
            Run(Created(expiresAt), actions).writes
  {
    var a, w := Begin(pid, submission), Run(Created(expiresAt), actions);
    Latest(expiresAt, actions, a);
    RunTold(expiresAt, actions);
    RunSound(expiresAt, actions);
    hide Run, HolderTold, LastClaim, FreedSince, TokenAt, TokensUnique, Unheld;
    if w.row.Some? && !w.row.value.state.Completed? {
      UnheldIff(expiresAt, actions, w);
    }
  }

  /** The token was brought by the last claim, which is younger than 45 seconds and was not given back. */
  ghost predicate LiveClaim(expiresAt: nat, actions: seq<Action>, token: Id) {
    exists i: nat :: LastClaim(expiresAt, actions, i) && !FreedSince(expiresAt, actions, i)
      && TokenAt(expiresAt, actions, i) == token && Clock(actions) < Clock(actions[..i]) + 45
  }

  lemma LiveIff(expiresAt: nat, actions: seq<Action>, w: World, token: Id)
    requires SlotTold(expiresAt, actions, w) && w.row.Some? && !w.row.value.state.Completed?
    ensures LiveClaim(expiresAt, actions, token) <==>
            && w.row.value.state.Finalizing? && w.row.value.state.token == token
            && w.row.value.state.claimExpires > w.now
  {
    hide ClaimsAt, FreedSince, TokenAt, Clock;
    if LiveClaim(expiresAt, actions, token) {
      var i: nat :| LastClaim(expiresAt, actions, i) && !FreedSince(expiresAt, actions, i)
        && TokenAt(expiresAt, actions, i) == token && Clock(actions) < Clock(actions[..i]) + 45;
      if w.row.value.state.Finalizing? {
        var j: nat :| LastClaim(expiresAt, actions, j) && !FreedSince(expiresAt, actions, j)
            && w.row.value.state.token == TokenAt(expiresAt, actions, j)
            && w.row.value.state.claimExpires == Clock(actions[..j]) + 45;
        OneLast(expiresAt, actions, i, j);
      }
    }
  }

  /**
   * At any point of any interleaving, a finalizer that holds a token writes exactly when the slot is neither pruned
   * nor expired nor written, its claim is live, and the destination takes the write.
   */
  lemma WrittenExactly(expiresAt: nat, actions: seq<Action>, pid: Id, receipt: Id, applies: bool, answered: bool)
    requires var w := Run(Created(expiresAt), actions); pid in w.finalizers && w.finalizers[pid].phase.Claimed?
    ensures var w := Run(Created(expiresAt), actions);
            var f := w.finalizers[pid];
            var after := Run(Created(expiresAt), actions + [Finish(pid, receipt, applies, answered)]);
            var writes := && applies && Prune !in actions && Clock(actions) < expiresAt && w.writes == []
                          && LiveClaim(expiresAt, actions, f.phase.token);
            && after.writes == (if writes then [Write(pid, f.submission, receipt)] else w.writes)
            && after.finalizers == w.finalizers[pid := Finalizer(f.submission,
                 if writes && answered then Ended(CompletedNow(receipt)) else Failing(f.phase.token))]
  {
    var a, w := Finish(pid, receipt, applies, answered), Run(Created(expiresAt), actions);
    Latest(expiresAt, actions, a);
    RunTold(expiresAt, actions);
    RunSound(expiresAt, actions);
    hide Run, HolderTold, LastClaim, FreedSince, TokenAt, TokensUnique, LiveClaim;
    if w.row.Some? && !w.row.value.state.Completed? {
      LiveIff(expiresAt, actions, w, w.finalizers[pid].phase.token);
    }
  }
}
