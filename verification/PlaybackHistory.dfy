/** The playback ledger read from the actions alone: what was spoken, what a clear cuts short, and when audio fails. */
module PlaybackHistory {
  import opened Common
  import opened Playback

  predicate Speaks(a: Action, id: Id) {
    a.Audio? && a.itemId == id
  }

  /** The bytes of an item that went to the carrier. */
  function Spoken(actions: seq<Action>, id: Id): nat {
    if actions == [] then 0
    else
      var n := |actions| - 1;
      Spoken(actions[..n], id) + if Speaks(actions[n], id) && actions[n].queued then actions[n].bytes else 0
  }

  /** Action `i` is audio of the item, and nobody spoke over it since. */
  ghost predicate SpokenLast(actions: seq<Action>, id: Id, i: nat) {
    i < |actions| && Speaks(actions[i], id) && forall j :: i < j < |actions| ==> !actions[j].Speech?
  }

  ghost predicate EverSpoken(actions: seq<Action>, id: Id) {
    exists i :: 0 <= i < |actions| && Speaks(actions[i], id)
  }

  /** What the ledger of a session that has not failed holds of an item. */
  ghost predicate ItemTold(actions: seq<Action>, s: State, id: Id) {
    && (id in s.items <==> EverSpoken(actions, id))
    && (id in s.items ==> s.items[id].generated == Spoken(actions, id) && s.items[id].generation <= s.generation)
    && (forall i: nat :: i < |actions| && Speaks(actions[i], id) ==> AudioTold(actions, s, id, i))
  }

  ghost predicate AudioTold(actions: seq<Action>, s: State, id: Id, i: nat)
    requires i < |actions| && Speaks(actions[i], id)
  {
    && id in s.items && s.items[id].rid == actions[i].rid
    && (s.items[id].generation == s.generation <==> SpokenLast(actions, id, i))
  }

  lemma SpokenSnoc(actions: seq<Action>, a: Action, id: Id)
    ensures Spoken(actions + [a], id) == Spoken(actions, id) + if Speaks(a, id) && a.queued then a.bytes else 0
    ensures EverSpoken(actions + [a], id) <==> EverSpoken(actions, id) || Speaks(a, id)
  {
    var more := actions + [a];
    assert more[..|actions|] == actions && more[|actions|] == a;
    assert forall i :: 0 <= i < |actions| ==> more[i] == actions[i];
  }

  lemma LastSnoc(actions: seq<Action>, a: Action, id: Id, i: nat)
    requires i < |actions|
    ensures SpokenLast(actions + [a], id, i) <==> SpokenLast(actions, id, i) && !a.Speech?
  {
    var more := actions + [a];
    assert more[|actions|] == a;
    assert forall j :: 0 <= j < |actions| ==> more[j] == actions[j];
  }

  lemma AudioTakes(l: Limits, s: State, a: Action, id: Id)
    requires l.Valid() && !s.failed && Speaks(a, id) && !Step(l, s, a).failed
    requires id in s.items ==> s.items[id].generation <= s.generation
    ensures var t := Step(l, s, a);
            && t.generation == s.generation && id in t.items && t.items[id].rid == a.rid
            && t.items[id].generation == s.generation
            && t.items[id].generated == (if id in s.items then s.items[id].generated else 0)
                                        + (if a.queued then a.bytes else 0)
            && (id in s.items ==> s.items[id].rid == a.rid && s.items[id].generation == s.generation)
  {
    hide ChunkEnds;
  }

  /** Any other action leaves the item as it is but for what was heard of it. */
  lemma OtherKeeps(l: Limits, s: State, a: Action, id: Id)
    requires l.Valid() && !s.failed && Sound(s) && !Speaks(a, id)
    ensures var t := Step(l, s, a);
            && (id in t.items <==> id in s.items)
            && (id in s.items ==> t.items[id] == s.items[id].(played := t.items[id].played))
            && t.generation == s.generation + if a.Speech? then 1 else 0
  {
    hide ChunkEnds, Sound, AckThrough;
    if a.MarkEcho? {
      EchoEffect(s, a.generation, a.counter, a.exact);
    }
  }

  lemma AudioStep(l: Limits, actions: seq<Action>, a: Action, s: State, id: Id)
    requires l.Valid() && !s.failed && ItemTold(actions, s, id) && Speaks(a, id) && !Step(l, s, a).failed
    ensures ItemTold(actions + [a], Step(l, s, a), id)
  {
    hide Step, Spoken;
    AudioTakes(l, s, a, id);
    SpokenSnoc(actions, a, id);
    NeverSpoken(actions, id);
    var more, t := actions + [a], Step(l, s, a);
    forall i: nat | i < |more| && Speaks(more[i], id) ensures AudioTold(more, t, id, i) {
      if i < |actions| {
        assert more[i] == actions[i] && AudioTold(actions, s, id, i);
        LastSnoc(actions, a, id, i);
      }
    }
  }

  lemma {:induction false} NeverSpoken(actions: seq<Action>, id: Id)
    ensures !EverSpoken(actions, id) ==> Spoken(actions, id) == 0
  {
    if actions != [] && !EverSpoken(actions, id) {
      var n := |actions| - 1;
      NeverSpoken(actions[..n], id);
      assert forall i :: 0 <= i < n ==> actions[..n][i] == actions[i];
    }
  }

  lemma OtherStep(l: Limits, actions: seq<Action>, a: Action, s: State, id: Id)
    requires l.Valid() && !s.failed && Sound(s) && ItemTold(actions, s, id) && !Speaks(a, id)
    ensures ItemTold(actions + [a], Step(l, s, a), id)
  {
    hide Step, Spoken, Sound;
    OtherKeeps(l, s, a, id);
    SpokenSnoc(actions, a, id);
    var more, t := actions + [a], Step(l, s, a);
    forall i: nat | i < |more| && Speaks(more[i], id) ensures AudioTold(more, t, id, i) {
      assert i < |actions| && more[i] == actions[i];
      assert AudioTold(actions, s, id, i);
      LastSnoc(actions, a, id, i);
    }
  }

  lemma StillWell(l: Limits, s: State, a: Action)
    requires l.Valid() && !Step(l, s, a).failed
    ensures !s.failed
  {
  }

  lemma {:induction false} RunTold(l: Limits, actions: seq<Action>, id: Id)
    requires l.Valid() && !Run(l, actions).failed
    ensures ItemTold(actions, Run(l, actions), id)
  {
    if actions != [] {
      hide Step, Sound, ItemTold;
      var n := |actions| - 1;
      var s := Run(l, actions[..n]);
      StillWell(l, s, actions[n]);
      RunTold(l, actions[..n], id);
      RunSound(l, actions[..n]);
      assert actions == actions[..n] + [actions[n]];
      if Speaks(actions[n], id) {
        AudioStep(l, actions[..n], actions[n], s, id);
      } else {
        OtherStep(l, actions[..n], actions[n], s, id);
      }
    }
  }

  /** What the caller is proven to have heard of an item. */
  function HeardOf(l: Limits, actions: seq<Action>, id: Id): nat
    requires l.Valid()
  {
    LastEnd(0, AckedBy(l, actions), id)
  }

  /** The item was spoken since anyone last spoke over it, and not all of it was heard. */
  ghost predicate CutShort(l: Limits, actions: seq<Action>, id: Id)
    requires l.Valid()
  {
    HeardOf(l, actions, id) < Spoken(actions, id) && exists i: nat :: SpokenLast(actions, id, i)
  }

  lemma SpokenEver(actions: seq<Action>, id: Id, i: nat)
    requires SpokenLast(actions, id, i)
    ensures EverSpoken(actions, id)
  {
  }

  lemma CutShortIff(l: Limits, actions: seq<Action>, id: Id)
    requires l.Valid() && !Run(l, actions).failed
    ensures var s := Run(l, actions);
            CutShort(l, actions, id) <==>
            id in s.items && s.items[id].generation == s.generation && s.items[id].generated > s.items[id].played
    ensures id in Run(l, actions).items ==> Run(l, actions).items[id].played == HeardOf(l, actions, id)
  {
    hide Run, Spoken, LastEnd, AckedBy;
    var s := Run(l, actions);
    RunTold(l, actions, id);
    if id in s.items {
      PlayedIsLastEnd(l, actions, id);
      var i :| 0 <= i < |actions| && Speaks(actions[i], id);
      assert AudioTold(actions, s, id, i);
    }
    if i: nat :| SpokenLast(actions, id, i) {
      SpokenEver(actions, id, i);
      assert AudioTold(actions, s, id, i);
    }
  }

  /**
   * Speech that clears the carrier and interrupts the response asks for a truncation of exactly the items cut short,
   * each in its own response at the milliseconds heard, and starts a generation with no pending mark.
   */
  lemma TruncatedExactly(l: Limits, actions: seq<Action>, id: Id)
    requires l.Valid() && !Run(l, actions).failed
    ensures var s, t := Run(l, actions), Run(l, actions + [Speech(true, true)]);
            && !t.failed && t.marks == [] && t.items == s.items && t.generation == s.generation + 1
            && (CutShort(l, actions, id) ==>
                  && id in t.truncations && t.truncations[id].audioEndMs == HeardOf(l, actions, id) / 8
                  && forall i: nat :: i < |actions| && Speaks(actions[i], id) ==>
                       t.truncations[id].rid == actions[i].rid)
            && (!CutShort(l, actions, id) ==>
                  && (id in t.truncations <==> id in s.truncations)
                  && (id in s.truncations ==> t.truncations[id] == s.truncations[id]))
  {
    var s, a := Run(l, actions), Speech(true, true);
    assert (actions + [a])[..|actions|] == actions;
    assert Run(l, actions + [a]) == BargeIn(s, true, true);
    hide Run, CutShort, HeardOf;
    CutShortIff(l, actions, id);
    if CutShort(l, actions, id) {
      RunTold(l, actions, id);
      forall i: nat | i < |actions| && Speaks(actions[i], id) ensures s.items[id].rid == actions[i].rid {
        assert AudioTold(actions, s, id, i);
      }
    }
  }

  /** Audio of the item went to another response, or someone spoke over it. */
  ghost predicate Stale(actions: seq<Action>, id: Id, rid: Id) {
    exists i: nat :: i < |actions| && Speaks(actions[i], id) && (actions[i].rid != rid || !SpokenLast(actions, id, i))
  }

  /**
   * Audio fails the session exactly when its response is not the active one, it is empty, its marks would exceed the
   * limit, or its item already had audio for another response or from before a clear.
   */
  lemma AudioFailsExactly(l: Limits, actions: seq<Action>, rid: Id, id: Id, bytes: nat, active: bool, queued: bool)
    requires l.Valid() && !Run(l, actions).failed
    ensures Run(l, actions + [Audio(rid, id, bytes, active, queued)]).failed <==>
            || !active || bytes == 0 || Stale(actions, id, rid)
            || |Run(l, actions).marks| + |ChunkEnds(Spoken(actions, id), bytes, l.markBytes)| > l.maxPendingMarks
  {
    var s, a := Run(l, actions), Audio(rid, id, bytes, active, queued);
    assert (actions + [a])[..|actions|] == actions;
    assert Run(l, actions + [a]) == OutputAudio(l, s, rid, id, bytes, active, queued);
    hide Run, ChunkEnds, Spoken;
    RunTold(l, actions, id);
    NeverSpoken(actions, id);
    if id in s.items {
      var i :| 0 <= i < |actions| && Speaks(actions[i], id);
      assert AudioTold(actions, s, id, i);
    }
    if Stale(actions, id, rid) {
      var i: nat :| i < |actions| && Speaks(actions[i], id) && (actions[i].rid != rid || !SpokenLast(actions, id, i));
      assert AudioTold(actions, s, id, i);
    }
  }

  // Echoes

  /** How often someone spoke over the playback. */
  function Clears(actions: seq<Action>): nat {
    if actions == [] then 0
    else
      var n := |actions| - 1;
      Clears(actions[..n]) + if actions[n].Speech? then 1 else 0
  }

  /** The counter of the last mark acknowledged. */
  function LastCounter(acked: seq<Mark>): nat {
    if acked == [] then 0 else acked[|acked| - 1].counter
  }

  lemma StepCounters(l: Limits, s: State, a: Action)
    requires l.Valid() && !s.failed && Sound(s)
    ensures var t := Step(l, s, a);
            && t.generation == s.generation + (if a.Speech? then 1 else 0)
            && t.lastAcked == if Acked(l, s, a) == [] then s.lastAcked else LastCounter(Acked(l, s, a))
  {
    hide ChunkEnds, AckThrough;
    if a.MarkEcho? {
      EchoCounters(s, a.generation, a.counter, a.exact);
    }
  }

  /** An echo acknowledges a run of pending marks, and the last of them becomes the latest. */
  lemma EchoCounters(s: State, generation: nat, counter: nat, exact: bool)
    requires Sound(s) && !s.failed
    ensures var t := Echo(s, generation, counter, exact);
            && t.generation == s.generation && |t.marks| <= |s.marks|
            && var acked := s.marks[..|s.marks| - |t.marks|];
               t.lastAcked == if acked == [] then s.lastAcked else LastCounter(acked)
  {
    hide AckThrough;
    var target := if exact then Pending(s.marks, generation, counter) else None;
    if target.Some? {
      var k := PendingAt(s, target.value);
      AckThroughPrefix(s, k);
      assert s.marks[..k + 1][k] == s.marks[k];
    }
  }

  lemma LastOfBoth(before: seq<Mark>, more: seq<Mark>)
    ensures LastCounter(before + more) == if more == [] then LastCounter(before) else LastCounter(more)
  {
    assert more == [] ==> before + more == before;
  }

  lemma {:induction false} RunCounters(l: Limits, actions: seq<Action>)
    requires l.Valid() && !Run(l, actions).failed
    ensures Run(l, actions).generation == Clears(actions)
    ensures Run(l, actions).lastAcked == LastCounter(AckedBy(l, actions))
  {
    if actions != [] {
      hide Step, Sound, Acked, LastCounter;
      var n := |actions| - 1;
      var s := Run(l, actions[..n]);
      StillWell(l, s, actions[n]);
      RunCounters(l, actions[..n]);
      RunSound(l, actions[..n]);
      StepCounters(l, s, actions[n]);
      LastOfBoth(AckedBy(l, actions[..n]), Acked(l, s, actions[n]));
    }
  }

  /**
   * An echoed name fails the session exactly when it is of a generation not yet begun, or of the current one, behind
   * the last mark acknowledged and not the exact name of a pending mark. Otherwise it acknowledges the marks up to it
   * or changes nothing.
   */
  lemma EchoFailsExactly(l: Limits, actions: seq<Action>, generation: nat, counter: nat, exact: bool)
    requires l.Valid() && !Run(l, actions).failed
    ensures var s := Run(l, actions);
            var pending := exact && exists m :: m in s.marks && m.generation == generation && m.counter == counter;
            Run(l, actions + [MarkEcho(generation, counter, exact)]).failed <==>
            || generation > Clears(actions)
            || (generation == Clears(actions) && counter > LastCounter(AckedBy(l, actions)) && !pending)
  {
    var s, a := Run(l, actions), MarkEcho(generation, counter, exact);
    assert (actions + [a])[..|actions|] == actions;
    assert Run(l, actions + [a]) == Echo(s, generation, counter, exact);
    RunSound(l, actions);
    RunCounters(l, actions);
    hide Run, AckedBy, Clears, AckThrough;
    var target := if exact then Pending(s.marks, generation, counter) else None;
    if target.Some? {
      assert MarkFits(s, target.value);
      var k := PendingAt(s, target.value);
      AckThroughPrefix(s, k);
    }
  }

  // Truncations

  /** A barge-in at step `i` asked for the truncation, and no acknowledgement named the item since. */
  ghost predicate Outstanding(l: Limits, actions: seq<Action>, id: Id, i: nat)
    requires l.Valid()
  {
    && i < |actions| && id in Asked(Run(l, actions[..i]), actions[i])
    && forall j :: i < j < |actions| ==> !(actions[j].TruncationAck? && actions[j].itemId == id)
  }

  ghost predicate TruncationTold(l: Limits, actions: seq<Action>, s: State, id: Id)
    requires l.Valid()
  {
    && (id in s.truncations <==> exists i: nat :: Outstanding(l, actions, id, i))
    && (forall i: nat :: Outstanding(l, actions, id, i) && id in s.truncations ==>
          s.truncations[id] == Asked(Run(l, actions[..i]), actions[i])[id])
  }

  lemma OutstandingSnoc(l: Limits, actions: seq<Action>, a: Action, id: Id, i: nat)
    requires l.Valid() && i < |actions|
    ensures (actions + [a])[..i] == actions[..i] && (actions + [a])[i] == actions[i]
    ensures Outstanding(l, actions + [a], id, i) <==>
            Outstanding(l, actions, id, i) && !(a.TruncationAck? && a.itemId == id)
  {
    hide Run, Asked;
    var more := actions + [a];
    assert more[|actions|] == a && more[..i] == actions[..i];
    assert forall j :: 0 <= j < |actions| ==> more[j] == actions[j];
  }

  lemma OutstandingNow(l: Limits, actions: seq<Action>, a: Action, id: Id)
    requires l.Valid()
    ensures (actions + [a])[..|actions|] == actions && (actions + [a])[|actions|] == a
    ensures Outstanding(l, actions + [a], id, |actions|) <==> id in Asked(Run(l, actions), a)
  {
    hide Run, Asked;
    assert (actions + [a])[..|actions|] == actions;
  }

  /** What one step does to the truncations of an item. */
  lemma StepTruncations(l: Limits, s: State, a: Action, id: Id)
    requires l.Valid() && !s.failed && !Step(l, s, a).failed && Sound(s)
    ensures var t := Step(l, s, a);
            && (id in t.truncations <==>
                  id in Asked(s, a) || (id in s.truncations && !(a.TruncationAck? && a.itemId == id)))
            && (id in Asked(s, a) ==> t.truncations[id] == Asked(s, a)[id])
            && (id !in Asked(s, a) && id in t.truncations ==> t.truncations[id] == s.truncations[id])
  {
    hide ChunkEnds, AckThrough, Sound;
    if a.MarkEcho? {
      EchoEffect(s, a.generation, a.counter, a.exact);
    }
  }

  lemma TruncationStep(l: Limits, actions: seq<Action>, a: Action, id: Id)
    requires l.Valid() && !Run(l, actions).failed && !Step(l, Run(l, actions), a).failed
    requires TruncationTold(l, actions, Run(l, actions), id)
    requires id in Asked(Run(l, actions), a) ==> forall i: nat :: !Outstanding(l, actions, id, i)
    ensures TruncationTold(l, actions + [a], Step(l, Run(l, actions), a), id)
  {
    var s, more := Run(l, actions), actions + [a];
    RunSound(l, actions);
    StepTruncations(l, s, a, id);
    OutstandingNow(l, actions, a, id);
    hide Step, Asked, Outstanding, Sound, Run;
    forall i: nat | i < |actions|
      ensures more[..i] == actions[..i] && more[i] == actions[i]
      ensures Outstanding(l, more, id, i) <==>
              Outstanding(l, actions, id, i) && !(a.TruncationAck? && a.itemId == id)
    {
      OutstandingSnoc(l, actions, a, id, i);
    }
    forall i: nat | Outstanding(l, more, id, i) || Outstanding(l, actions, id, i) ensures i < |more| {
      OutstandingWithin(l, more, id, i);
      OutstandingWithin(l, actions, id, i);
    }
    forall i: nat | Outstanding(l, actions, id, i) ensures i < |actions| {
      OutstandingWithin(l, actions, id, i);
    }
  }

  lemma OutstandingWithin(l: Limits, actions: seq<Action>, id: Id, i: nat)
    requires l.Valid()
    ensures Outstanding(l, actions, id, i) ==> i < |actions|
  {
    hide Run, Asked;
  }

  lemma {:induction false} RunTruncations(l: Limits, actions: seq<Action>, id: Id)
    requires l.Valid() && !Run(l, actions).failed
    ensures TruncationTold(l, actions, Run(l, actions), id)
  {
    if actions == [] {
      assert forall i: nat :: !Outstanding(l, actions, id, i);
    } else {
      hide Step, Sound, TruncationTold;
      var n := |actions| - 1;
      var before := actions[..n];
      StillWell(l, Run(l, before), actions[n]);
      RunTruncations(l, before, id);
      assert actions == before + [actions[n]];
      if id in Asked(Run(l, before), actions[n]) {
        forall i: nat ensures !Outstanding(l, before, id, i) {
          if Outstanding(l, before, id, i) {
            assert before[..i] == actions[..i];
            TruncatedOnce(l, actions, i, n, id);
            assert false;
          }
        }
      }
      TruncationStep(l, before, actions[n], id);
    }
  }

  /** An acknowledged truncation fails the session exactly when none is outstanding, or it is another response's. */
  lemma TruncationAckExactly(l: Limits, actions: seq<Action>, id: Id, rid: Option<Id>)
    requires l.Valid() && !Run(l, actions).failed
    ensures !Run(l, actions + [TruncationAck(id, rid)]).failed <==>
            exists i: nat :: Outstanding(l, actions, id, i)
              && (rid.Some? ==> rid.value == Asked(Run(l, actions[..i]), actions[i])[id].rid)
  {
    var s, a := Run(l, actions), TruncationAck(id, rid);
    assert (actions + [a])[..|actions|] == actions;
    assert Run(l, actions + [a]) == AcknowledgeTruncation(s, id, rid);
    RunTruncations(l, actions, id);
    hide Run, Asked, Outstanding;
    forall i: nat | Outstanding(l, actions, id, i)
      ensures i < |actions| && id in Asked(Run(l, actions[..i]), actions[i])
    {
      AskedAt(l, actions, id, i);
    }
  }

  lemma AskedAt(l: Limits, actions: seq<Action>, id: Id, i: nat)
    requires l.Valid() && Outstanding(l, actions, id, i)
    ensures i < |actions| && id in Asked(Run(l, actions[..i]), actions[i])
  {
    hide Run, Asked;
  }

  /** Speech fails the session exactly when the carrier was cleared and the response could not be interrupted. */
  lemma SpeechExactly(l: Limits, actions: seq<Action>, cleared: bool, interrupted: bool)
    requires l.Valid() && !Run(l, actions).failed
    ensures var s, t := Run(l, actions), Run(l, actions + [Speech(cleared, interrupted)]);
            && (t.failed <==> cleared && !interrupted) && t.marks == [] && t.items == s.items
            && t.generation == Clears(actions) + 1
            && (!(cleared && interrupted) ==> t.truncations == s.truncations)
  {
    var s, a := Run(l, actions), Speech(cleared, interrupted);
    assert (actions + [a])[..|actions|] == actions;
    assert Run(l, actions + [a]) == BargeIn(s, cleared, interrupted);
    RunCounters(l, actions);
    hide Run;
  }
}
