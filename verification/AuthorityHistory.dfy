/** The authority client's answers from what was asked and what ended: who is started, refused or replayed. */
module AuthorityHistory {
  import opened AuthorityLedger

  // Which outcomes are retained

  /** A call that ended, and the bytes of its outcome. */
  datatype Ending = Ending(id: Identity, bytes: nat)

  /** The calls that ended, in order. */
  function Endings(cap: nat, actions: seq<Action>): seq<Ending> {
    if actions == [] then []
    else
      var n := |actions| - 1;
      Endings(cap, actions[..n]) +
      if Ends(Run(cap, actions[..n]), actions[n]) then [Ending(actions[n].id, actions[n].bytes)] else []
  }

  /** The action ends an operation that was begun and has not ended. */
  predicate Ends(w: World, a: Action) {
    a.Complete? && a.id in w.started && a.id !in w.outcomes
  }

  function Total(ended: seq<Ending>): nat {
    if ended == [] then 0 else ended[0].bytes + Total(ended[1..])
  }

  function Ids(ended: seq<Ending>): (r: seq<Identity>)
    ensures |r| == |ended| && forall i :: 0 <= i < |r| ==> r[i] == ended[i].id
  {
    seq(|ended|, i requires 0 <= i < |ended| => ended[i].id)
  }

  /** From `k` on the outcomes fit the cap, and from no earlier one. */
  ghost predicate Longest(ended: seq<Ending>, k: nat, cap: nat) {
    k <= |ended| && Total(ended[k..]) <= cap && (k > 0 ==> Total(ended[k - 1..]) > cap)
  }

  ghost predicate Retains(ended: seq<Ending>, s: Ledger, k: nat) {
    && k <= |ended| && s.order == Ids(ended[k..])
    && forall i :: k <= i < |ended| ==> ended[i].id in s.calls && s.calls[ended[i].id].retained == ended[i].bytes
  }

  lemma {:induction false} RetainedTotal(ended: seq<Ending>, s: Ledger, k: nat)
    requires Retains(ended, s, k)
    ensures SumRetained(s.calls, s.order) == Total(ended[k..])
    decreases |ended| - k
  {
    if k < |ended| {
      var t := s.(order := Ids(ended[k + 1..]));
      RetainedTotal(ended, t, k + 1);
      assert ended[k..][1..] == ended[k + 1..];
      assert s.order[1..] == t.order && s.order[0] == ended[k].id;
      SumFirst(s.calls, s.order);
    } else {
      assert ended[k..] == [] && s.order == [];
    }
  }

  lemma EvictedOne(ended: seq<Ending>, s: Ledger, k: nat)
    requires Retains(ended, s, k) && Evictable(s) && s.order != []
    ensures k < |ended| && s.order[0] in s.calls && s.calls[s.order[0]].status.Settled?
    ensures Retains(ended, EvictOne(s), k + 1) && EvictPass(s) == EvictOne(s)
  {
    hide Counted;
    assert s.order[0] in s.order;
    assert k < |ended|;
    assert ended[k..][0] == ended[k];
    var next := EvictOne(s);
    assert next.order == Ids(ended[k + 1..]);
    forall i | k + 1 <= i < |ended|
      ensures ended[i].id in next.calls && next.calls[ended[i].id].retained == ended[i].bytes
    {
      assert s.order[i - k] == ended[i].id;
    }
  }

  lemma {:induction false} EvictRetains(ended: seq<Ending>, s: Ledger, k: nat, cap: nat) returns (kept: nat)
    requires Retains(ended, s, k) && Evictable(s) && (k > 0 ==> Total(ended[k - 1..]) > cap)
    ensures Longest(ended, kept, cap) && Retains(ended, Evict(s, cap), kept)
    decreases |s.order|
  {
    RetainedTotal(ended, s, k);
    if s.retainedBytes <= cap || s.order == [] {
      kept := k;
      if s.order == [] {
        assert ended[k..] == [];
      }
    } else {
      EvictedOne(ended, s, k);
      EvictOneKeeps(s);
      hide Evictable, Retains, EvictOne, EvictPass;
      kept := EvictRetains(ended, EvictOne(s), k + 1, cap);
    }
  }

  lemma {:induction false} TotalSnoc(ended: seq<Ending>, e: Ending)
    ensures Total(ended + [e]) == Total(ended) + e.bytes
    decreases |ended|
  {
    if ended == [] {
      assert ended + [e] == [e] && [e][1..] == [];
    } else {
      assert (ended + [e])[1..] == ended[1..] + [e];
      TotalSnoc(ended[1..], e);
    }
  }

  lemma SettledRetains(ended: seq<Ending>, s: Ledger, k: nat, cap: nat, id: Identity, outcome: Outcome, bytes: nat)
    requires Retains(ended, s, k) && OrderExact(s) && id in s.calls && s.calls[id].status.Pending?
    requires k > 0 ==> Total(ended[k - 1..]) > cap
    ensures var more := ended + [Ending(id, bytes)];
            Retains(more, Retained(s, id, outcome, bytes), k) && (k > 0 ==> Total(more[k - 1..]) > cap)
  {
    var e := Ending(id, bytes);
    var more, next := ended + [e], Retained(s, id, outcome, bytes);
    assert more[k..] == ended[k..] + [e];
    assert next.order == Ids(more[k..]);
    forall i | k <= i < |more| ensures more[i].id in next.calls && next.calls[more[i].id].retained == more[i].bytes {
      if i < |ended| {
        assert more[i] == ended[i] && s.order[i - k] == ended[i].id && ended[i].id in s.order;
      }
    }
    if k > 0 {
      assert more[k - 1..] == ended[k - 1..] + [e];
      TotalSnoc(ended[k - 1..], e);
    }
  }

  lemma EndsIff(w: World, a: Action)
    requires History(w)
    ensures Ends(w, a) <==> a.Complete? && a.id in w.ledger.calls && w.ledger.calls[a.id].status.Pending?
  {
    if a.Complete? && a.id in w.ledger.calls {
      assert StatusTrue(w.ledger.calls[a.id].status, a.id, w.outcomes);
    }
  }

  lemma StepRetains(cap: nat, ended: seq<Ending>, w: World, a: Action, k: nat) returns (kept: nat)
    requires Sound(cap, w) && Longest(ended, k, cap) && Retains(ended, w.ledger, k)
    ensures var more := ended + if Ends(w, a) then [Ending(a.id, a.bytes)] else [];
            Longest(more, kept, cap) && Retains(more, Step(cap, w, a).ledger, kept)
  {
    EndsIff(w, a);
    assert ended + [] == ended;
    kept := k;
    if Ends(w, a) {
      var s := w.ledger;
      SettledRetains(ended, s, k, cap, a.id, a.outcome, a.bytes);
      RetainedKeeps(s, a.id, a.outcome, a.bytes);
      hide Longest, Retains, Evictable, OrderExact, Counted, History, Retained;
      kept := EvictRetains(ended + [Ending(a.id, a.bytes)], Retained(s, a.id, a.outcome, a.bytes), k, cap);
    }
  }

  /** The outcomes retained are those of the longest run of latest endings that fits the cap. */
  lemma {:induction false} RetainedExactly(cap: nat, actions: seq<Action>) returns (kept: nat)
    ensures Longest(Endings(cap, actions), kept, cap)
    ensures Run(cap, actions).ledger.order == Ids(Endings(cap, actions)[kept..])
    ensures Retains(Endings(cap, actions), Run(cap, actions).ledger, kept)
  {
    if actions == [] {
      kept := 0;
    } else {
      var n := |actions| - 1;
      hide Step, Ends;
      RunSound(cap, actions[..n]);
      var k := RetainedExactly(cap, actions[..n]);
      kept := StepRetains(cap, Endings(cap, actions[..n]), Run(cap, actions[..n]), actions[n], k);
    }
  }

  // How a call is answered

  lemma StepCloses(cap: nat, w: World, a: Action)
    requires Sound(cap, w)
    ensures Step(cap, w, a).ledger.closed <==> w.ledger.closed || a.Close?
  {
    hide Counted, OrderExact, History, Evict;
    if a.Complete? && a.id in w.ledger.calls && w.ledger.calls[a.id].status.Pending? {
      SettleCloses(cap, w, a.id, a.outcome, a.bytes);
    }
  }

  lemma SettleCloses(cap: nat, w: World, id: Identity, outcome: Outcome, bytes: nat)
    requires Sound(cap, w) && id in w.ledger.calls && w.ledger.calls[id].status.Pending?
    ensures Settle(w.ledger, cap, id, outcome, bytes).closed == w.ledger.closed
  {
    RetainedKeeps(w.ledger, id, outcome, bytes);
    hide Counted, OrderExact, History, Evict;
    EvictKeeps(Retained(w.ledger, id, outcome, bytes), cap);
  }

  lemma NotClosedYet(cap: nat)
    ensures !Run(cap, []).ledger.closed
  {
  }

  lemma LastCloses(actions: seq<Action>)
    requires actions != []
    ensures var n := |actions| - 1; Close in actions <==> Close in actions[..n] || actions[n].Close?
  {
    var n := |actions| - 1;
    assert actions == actions[..n] + [actions[n]];
  }

  lemma {:induction false} ClosedIff(cap: nat, actions: seq<Action>)
    ensures Run(cap, actions).ledger.closed <==> Close in actions
  {
    if actions != [] {
      hide Run, Step, Sound;
      var n := |actions| - 1;
      RunSound(cap, actions[..n]);
      ClosedIff(cap, actions[..n]);
      StepCloses(cap, Run(cap, actions[..n]), actions[n]);
      RunUnfolds(cap, actions);
      LastCloses(actions);
    } else {
      NotClosedYet(cap);
    }
  }

  lemma {:induction false} DistinctCount(started: seq<Identity>)
    requires forall i, k :: 0 <= i < k < |started| ==> started[i] != started[k]
    ensures |set id | id in started| == |started|
  {
    if started != [] {
      var n := |started| - 1;
      DistinctCount(started[..n]);
      assert (set id | id in started) == (set id | id in started[..n]) + {started[n]};
      assert started[n] !in started[..n];
    }
  }

  lemma StartedCount(started: seq<Identity>, calls: map<Identity, Entry>)
    requires StartedOnce(started, calls)
    ensures |calls| == |calls.Keys| == |started|
  {
    forall i, k | 0 <= i < k < |started| ensures started[i] != started[k] {
      assert started[i].key != started[k].key;
    }
    DistinctCount(started);
    assert calls.Keys == set id | id in started;
  }

  lemma PendingAre(calls: map<Identity, Entry>, outcomes: map<Identity, Outcome>)
    requires Truthful(calls, outcomes)
    ensures outcomes.Keys <= calls.Keys && PendingIds(calls) == calls.Keys - outcomes.Keys
  {
    forall id ensures id in PendingIds(calls) <==> id in calls.Keys - outcomes.Keys {
      if id in calls {
        assert StatusTrue(calls[id].status, id, outcomes);
      }
    }
  }

  lemma PendingCount(calls: map<Identity, Entry>, outcomes: map<Identity, Outcome>)
    requires Truthful(calls, outcomes)
    ensures |PendingIds(calls)| == |calls.Keys| - |outcomes|
  {
    PendingAre(calls, outcomes);
    hide PendingIds, Truthful;
    assert calls.Keys == PendingIds(calls) + outcomes.Keys;
    assert |outcomes| == |outcomes.Keys|;
  }

  lemma TrackedCount(cap: nat, w: World)
    requires Sound(cap, w)
    ensures |w.ledger.calls| == |w.started|
    ensures w.ledger.inFlight == |w.started| - |w.outcomes|
  {
    hide OrderExact, StartedOnce, Bound, Truthful, PendingIds, SumRetained;
    StartedCount(w.started, w.ledger.calls);
    PendingCount(w.ledger.calls, w.outcomes);
  }

  /** Another identity was begun under the same provider call. */
  ghost predicate Renamed(started: seq<Identity>, id: Identity) {
    exists other :: other in started && other.key == id.key && other != id
  }

  /** The outcome of the call is among those still retained. */
  ghost predicate StillRetained(ended: seq<Ending>, cap: nat, id: Identity) {
    exists i, k: nat :: Longest(ended, k, cap) && k <= i < |ended| && ended[i].id == id
  }

  /** What a call is answered, from what was begun, what ended and how, and what was asked first. */
  ghost predicate AnsweredAs(cap: nat, actions: seq<Action>, id: Identity, fingerprint: Id, answer: Answer) {
    var w := Run(cap, actions);
    if Close in actions then answer == Closed
    else if Renamed(w.started, id) then answer == IdentityConflict
    else if id in w.started then
      forall j :: 0 <= j < |actions| && StartsAt(cap, actions, j) && actions[j].id == id ==>
        answer == if fingerprint != actions[j].fingerprint then IdentityConflict
                  else if id !in w.outcomes then Joined
                  else if StillRetained(Endings(cap, actions), cap, id) then Replayed(w.outcomes[id])
                  else EvictedAnswer(w.outcomes[id])
    else if |w.started| >= 10_000 then answer == IdentityLimit
    else if |w.started| - |w.outcomes| >= 128 then answer == InFlightLimit
    else answer == Started
  }

  lemma RenamedIff(w: World, id: Identity)
    requires History(w)
    ensures Renamed(w.started, id) <==> id.key in w.ledger.identities && w.ledger.identities[id.key] != id
  {
    var identities := w.ledger.identities;
    if id.key in identities && identities[id.key] != id {
      assert identities[id.key] in w.started;
    }
  }

  lemma LongestUnique(ended: seq<Ending>, k: nat, m: nat, cap: nat)
    requires Longest(ended, k, cap) && Longest(ended, m, cap)
    ensures k == m
  {
    if k < m {
      TotalShrinks(ended, k, m - 1);
    } else if m < k {
      TotalShrinks(ended, m, k - 1);
    }
  }

  lemma {:induction false} TotalShrinks(ended: seq<Ending>, k: nat, m: nat)
    requires k <= m <= |ended|
    ensures Total(ended[m..]) <= Total(ended[k..])
    decreases m - k
  {
    if k < m {
      TotalShrinks(ended, k + 1, m);
      assert ended[k..][1..] == ended[k + 1..];
    }
  }

  lemma RetainedIff(cap: nat, actions: seq<Action>, id: Identity)
    ensures id in Run(cap, actions).ledger.order <==> StillRetained(Endings(cap, actions), cap, id)
  {
    hide Run, Longest, Endings, Retains;
    var ended := Endings(cap, actions);
    var kept := RetainedExactly(cap, actions);
    LongestWithin(ended, kept, cap);
    var order := Ids(ended[kept..]);
    if id in order {
      var i :| 0 <= i < |order| && order[i] == id;
      assert ended[kept + i].id == id;
    }
    if StillRetained(ended, cap, id) {
      var i, k: nat :| Longest(ended, k, cap) && k <= i < |ended| && ended[i].id == id;
      LongestUnique(ended, kept, k, cap);
      assert order[i - kept] == id;
    }
  }

  lemma LongestWithin(ended: seq<Ending>, k: nat, cap: nat)
    requires Longest(ended, k, cap)
    ensures k <= |ended|
  {
  }

  lemma NewAnswer(cap: nat, w: World, id: Identity, fingerprint: Id)
    requires Sound(cap, w) && !w.ledger.closed && !Renamed(w.started, id) && id !in w.started
    ensures Call(w.ledger, id, fingerprint).1 ==
            if |w.started| >= 10_000 then IdentityLimit
            else if |w.started| - |w.outcomes| >= 128 then InFlightLimit else Started
  {
    TrackedCount(cap, w);
    RenamedIff(w, id);
    hide Counted, OrderExact, Truthful;
  }

  /** Every call, at any point of any run, is answered exactly as history says. */
  lemma AnsweredExactly(cap: nat, actions: seq<Action>, id: Identity, fingerprint: Id)
    ensures AnsweredAs(cap, actions, id, fingerprint, Call(Run(cap, actions).ledger, id, fingerprint).1)
  {
    var w := Run(cap, actions);
    RunSound(cap, actions);
    ClosedIff(cap, actions);
    RenamedIff(w, id);
    RetainedIff(cap, actions, id);
    hide Run, Sound, Endings, StillRetained, Renamed, StartsAt;
    if !w.ledger.closed && !Renamed(w.started, id) {
      if id in w.started {
        forall j | 0 <= j < |actions| && StartsAt(cap, actions, j) && actions[j].id == id
          ensures Call(w.ledger, id, fingerprint).1 ==
                  if fingerprint != actions[j].fingerprint then IdentityConflict
                  else if id !in w.outcomes then Joined
                  else if StillRetained(Endings(cap, actions), cap, id) then Replayed(w.outcomes[id])
                  else EvictedAnswer(w.outcomes[id])
        {
          RepeatedCall(cap, actions, j, fingerprint);
        }
      } else {
        NewAnswer(cap, w, id, fingerprint);
      }
    }
  }
}
