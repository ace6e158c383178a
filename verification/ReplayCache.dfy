/** The in-process single-use store for bridge tokens: a map of live tombstones beside a binary heap of expiries. */
module ReplayCache {
  import Sets

  type Id = nat

  const MAX_TTL_SECONDS: nat := 300
  const MAX_FUTURE_SKEW_SECONDS: nat := 10

  datatype Entry = Entry(jti: Id, expiresAt: nat)

  datatype Outcome = Consumed | ClockRollback | Expired | InvalidExpiry | Replayed | Capacity

  // What the store does, on values

  datatype Cache = Cache(entries: map<Id, nat>, highWater: nat)

  function Pruned(entries: map<Id, nat>, now: nat): map<Id, nat> {
    map jti | jti in entries && entries[jti] > now :: entries[jti]
  }

  function Consume(maxEntries: nat, c: Cache, jti: Id, expiresAt: nat, now: nat): (Cache, Outcome) {
    if now < c.highWater then (c, ClockRollback)
    else
      var live := Cache(Pruned(c.entries, now), now);
      if expiresAt <= now then (live, Expired)
      else if expiresAt - now > MAX_TTL_SECONDS + MAX_FUTURE_SKEW_SECONDS then (live, InvalidExpiry)
      else if jti in live.entries then (live, Replayed)
      else if |live.entries| >= maxEntries then (live, Capacity)
      else (live.(entries := live.entries[jti := expiresAt]), Consumed)
  }

  // Heap order

  predicate Earlier(a: Entry, b: Entry) {
    a.expiresAt < b.expiresAt || (a.expiresAt == b.expiresAt && a.jti < b.jti)
  }

  function Parent(i: nat): nat
    requires i > 0
  {
    (i - 1) / 2
  }

  ghost predicate InOrder(heap: seq<Entry>, i: nat)
    requires 0 < i < |heap|
  {
    !Earlier(heap[i], heap[Parent(i)])
  }

  ghost predicate Heap(heap: seq<Entry>) {
    forall i :: 0 < i < |heap| ==> InOrder(heap, i)
  }

  /** Heap order everywhere but between `index` and its parent, which its children may take over. */
  ghost predicate HeapButAbove(heap: seq<Entry>, index: nat) {
    && (forall i :: 0 < i < |heap| && i != index ==> InOrder(heap, i))
    && (index > 0 ==> forall i :: 0 < i < |heap| && Parent(i) == index ==> !Earlier(heap[i], heap[Parent(index)]))
  }

  /** Heap order everywhere but between `index` and its children, which its parent may take over. */
  ghost predicate HeapButBelow(heap: seq<Entry>, index: nat) {
    && (forall i :: 0 < i < |heap| && Parent(i) != index ==> InOrder(heap, i))
    && (index > 0 ==> forall i :: 0 < i < |heap| && Parent(i) == index ==> !Earlier(heap[i], heap[Parent(index)]))
  }

  function Swapped(heap: seq<Entry>, i: nat, j: nat): (r: seq<Entry>)
    requires i < |heap| && j < |heap|
    ensures multiset(r) == multiset(heap) && |r| == |heap|
  {
    heap[i := heap[j]][j := heap[i]]
  }

  lemma {:induction false} HeadIsEarliest(heap: seq<Entry>, i: nat)
    requires Heap(heap) && i < |heap|
    ensures !Earlier(heap[i], heap[0])
  {
    if i > 0 {
      assert InOrder(heap, i);
      HeadIsEarliest(heap, Parent(i));
    }
  }

  lemma SiftedUp(heap: seq<Entry>, index: nat)
    requires 0 < index < |heap| && HeapButAbove(heap, index) && Earlier(heap[index], heap[Parent(index)])
    ensures HeapButAbove(Swapped(heap, index, Parent(index)), Parent(index))
  {
    var p := Parent(index);
    var r := Swapped(heap, index, p);
    forall i | 0 < i < |r| && i != p ensures InOrder(r, i) {
      assert i != index ==> InOrder(heap, i);
    }
    if p > 0 {
      assert InOrder(heap, p);
      forall i | 0 < i < |r| && Parent(i) == p ensures !Earlier(r[i], r[Parent(p)]) {
        assert i != index ==> InOrder(heap, i);
      }
    }
  }

  lemma SiftedDown(heap: seq<Entry>, index: nat, child: nat)
    requires 0 < child < |heap| && Parent(child) == index && HeapButBelow(heap, index)
    requires Earlier(heap[child], heap[index])
    requires forall i :: 0 < i < |heap| && Parent(i) == index ==> !Earlier(heap[i], heap[child])
    ensures HeapButBelow(Swapped(heap, index, child), child)
  {
    var r := Swapped(heap, index, child);
    forall i | 0 < i < |r| && Parent(i) != child ensures InOrder(r, i) {
      assert Parent(i) != index ==> InOrder(heap, i);
    }
    forall i | 0 < i < |r| && Parent(i) == child ensures !Earlier(r[i], r[Parent(child)]) {
      assert InOrder(heap, i);
    }
  }

  function LiveEntries(entries: map<Id, nat>): set<Entry> {
    set jti | jti in entries :: Entry(jti, entries[jti])
  }

  lemma LiveMember(entries: map<Id, nat>, e: Entry)
    ensures e in LiveEntries(entries) <==> e.jti in entries && entries[e.jti] == e.expiresAt
  {
    if e.jti in entries && entries[e.jti] == e.expiresAt {
      assert e == Entry(e.jti, entries[e.jti]);
    }
  }

  lemma LiveWithout(entries: map<Id, nat>, e: Entry)
    requires e in LiveEntries(entries)
    ensures multiset(LiveEntries(entries)) == multiset(LiveEntries(entries - {e.jti})) + multiset{e}
  {
    var rest := LiveEntries(entries - {e.jti});
    forall x: Entry ensures x in rest <==> x in LiveEntries(entries) && x != e {
      LiveMember(entries, x);
      LiveMember(entries - {e.jti}, x);
      LiveMember(entries, e);
    }
    assert LiveEntries(entries) == rest + {e};
  }

  lemma LiveWith(entries: map<Id, nat>, e: Entry)
    requires e.jti !in entries
    ensures multiset(LiveEntries(entries[e.jti := e.expiresAt])) == multiset(LiveEntries(entries)) + multiset{e}
  {
    var more := entries[e.jti := e.expiresAt];
    LiveMember(more, e);
    LiveWithout(more, e);
    assert more - {e.jti} == entries;
  }

  lemma Cancel(a: multiset<Entry>, b: multiset<Entry>, e: Entry)
    requires a + multiset{e} == b + multiset{e}
    ensures a == b
  {
    assert (a + multiset{e}) - multiset{e} == a;
    assert (b + multiset{e}) - multiset{e} == b;
  }

  class TokenReplayCache {
    const maxEntries: nat
    var entries: map<Id, nat>
    var expirations: seq<Entry>
    var timeHighWaterMark: nat

    function Value(): Cache
      reads this
    {
      Cache(entries, timeHighWaterMark)
    }

    /** The heap lists every entry of the map exactly once, earliest first. */
    ghost predicate Valid()
      reads this
    {
      && Heap(expirations)
      && multiset(expirations) == multiset(LiveEntries(entries))
    }

    constructor (maxEntries: nat)
      requires 1 <= maxEntries <= 100_000
      ensures Valid() && Value() == Cache(map[], 0) && this.maxEntries == maxEntries
    {
      this.maxEntries := maxEntries;
      entries, expirations, timeHighWaterMark := map[], [], 0;
      new;
      assert LiveEntries(entries) == {};
    }

    method PushExpiry(entry: Entry)
      requires Heap(expirations)
      modifies this`expirations
      ensures Heap(expirations)
      ensures multiset(expirations) == old(multiset(expirations)) + multiset{entry}
    {
      ghost var was := expirations;
      expirations := expirations + [entry];
      var index := |expirations| - 1;
      assert HeapButAbove(expirations, index) by {
        assert forall i :: 0 < i < index ==> InOrder(was, i) ==> InOrder(expirations, i);
      }
      while index > 0
        invariant 0 <= index < |expirations|
        invariant HeapButAbove(expirations, index)
        invariant multiset(expirations) == old(multiset(expirations)) + multiset{entry}
        decreases index
      {
        var parent := (index - 1) / 2;
        if !Earlier(expirations[index], expirations[parent]) {
          assert InOrder(expirations, index);
          break;
        }
        SiftedUp(expirations, index);
        expirations := Swapped(expirations, index, parent);
        index := parent;
      }
    }

    method PopExpiry() returns (head: Entry)
      requires Heap(expirations) && expirations != []
      modifies this`expirations
      ensures head == old(expirations[0]) && Heap(expirations)
      ensures old(multiset(expirations)) == multiset(expirations) + multiset{head}
      ensures |expirations| == old(|expirations|) - 1
    {
      head := expirations[0];
      var n := |expirations| - 1;
      var tail := expirations[n];
      assert expirations == expirations[..n] + [tail];
      ghost var was := expirations;
      expirations := expirations[..n];
      if expirations != [] {
        expirations := expirations[0 := tail];
        assert multiset(was) == multiset(expirations) + multiset{head};
        assert HeapButBelow(expirations, 0) by {
          forall i | 0 < i < |expirations| && Parent(i) != 0 ensures InOrder(expirations, i) {
            assert InOrder(was, i);
          }
        }
        SiftDown();
      }
    }

    method SiftDown()
      requires expirations != [] && HeapButBelow(expirations, 0)
      modifies this`expirations
      ensures Heap(expirations) && |expirations| == old(|expirations|)
      ensures multiset(expirations) == old(multiset(expirations))
    {
      var index := 0;
      while true
        invariant 0 <= index < |expirations|
        invariant HeapButBelow(expirations, index) && |expirations| == old(|expirations|)
        invariant multiset(expirations) == old(multiset(expirations))
        decreases |expirations| - index
      {
        var left := index * 2 + 1;
        var right := left + 1;
        var earliest := index;
        if left < |expirations| && Earlier(expirations[left], expirations[earliest]) { earliest := left; }
        if right < |expirations| && Earlier(expirations[right], expirations[earliest]) { earliest := right; }
        assert forall i :: 0 < i < |expirations| && Parent(i) == index ==> i == left || i == right;
        assert forall i :: 0 < i < |expirations| && Parent(i) == index ==>
                 !Earlier(expirations[i], expirations[earliest]);
        if earliest == index {
          forall i | 0 < i < |expirations| ensures InOrder(expirations, i) {
            assert Parent(i) != index ==> InOrder(expirations, i);
          }
          break;
        }
        SiftedDown(expirations, index, earliest);
        expirations := Swapped(expirations, index, earliest);
        index := earliest;
      }
    }

    method Prune(now: nat) returns (removed: nat)
      requires Valid()
      modifies this`entries, this`expirations
      ensures Valid() && entries == Pruned(old(entries), now)
      ensures removed == |old(entries)| - |entries|
    {
      removed := 0;
      while expirations != [] && expirations[0].expiresAt <= now
        invariant Valid()
        invariant forall jti <- entries :: jti in old(entries) && entries[jti] == old(entries)[jti]
        invariant forall jti <- old(entries) :: old(entries)[jti] > now ==> jti in entries
        invariant removed + |entries| == |old(entries)|
        decreases |expirations|
      {
        assert expirations[0] in multiset(expirations);
        LiveMember(entries, expirations[0]);
        LiveWithout(entries, expirations[0]);
        var expired := PopExpiry();
        // The lookup always succeeds: the heap never holds a stale expiry.
        if expired.jti in entries && entries[expired.jti] == expired.expiresAt {
          Cancel(multiset(expirations), multiset(LiveEntries(entries - {expired.jti})), expired);
          entries := entries - {expired.jti};
          removed := removed + 1;
        } else {
          assert false;
        }
      }
      NothingExpired(expirations, entries, now);
    }

    /** Consumes a token identifier exactly as the value-level store does, through the heap. */
    method ConsumeToken(jti: Id, expiresAt: nat, now: nat) returns (outcome: Outcome)
      requires Valid() && expiresAt >= 1
      modifies this
      ensures Valid()
      ensures (Value(), outcome) == Consume(maxEntries, old(Value()), jti, expiresAt, now)
    {
      if now < timeHighWaterMark { return ClockRollback; }
      timeHighWaterMark := now;
      var _ := Prune(now);
      if expiresAt <= now { return Expired; }
      if expiresAt - now > MAX_TTL_SECONDS + MAX_FUTURE_SKEW_SECONDS { return InvalidExpiry; }
      if jti in entries { return Replayed; }
      if |entries| >= maxEntries { return Capacity; }
      LiveWith(entries, Entry(jti, expiresAt));
      entries := entries[jti := expiresAt];
      PushExpiry(Entry(jti, expiresAt));
      outcome := Consumed;
    }
  }

  /** When the earliest expiry is in the future, so is every other. */
  lemma NothingExpired(heap: seq<Entry>, entries: map<Id, nat>, now: nat)
    requires Heap(heap) && multiset(heap) == multiset(LiveEntries(entries))
    requires heap == [] || heap[0].expiresAt > now
    ensures forall jti <- entries :: entries[jti] > now
  {
    forall jti <- entries ensures entries[jti] > now {
      var e := Entry(jti, entries[jti]);
      assert e in multiset(heap);
      assert e in heap;
      var i :| 0 <= i < |heap| && heap[i] == e;
      HeadIsEarliest(heap, i);
    }
  }

  // Every sequence of calls, under any clock

  datatype Call = Call(jti: Id, expiresAt: nat, now: nat)

  function After(maxEntries: nat, calls: seq<Call>): Cache {
    if calls == [] then Cache(map[], 0)
    else
      var c := calls[|calls| - 1];
      Consume(maxEntries, After(maxEntries, calls[..|calls| - 1]), c.jti, c.expiresAt, c.now).0
  }

  function OutcomeOf(maxEntries: nat, calls: seq<Call>, i: nat): Outcome
    requires i < |calls|
  {
    Consume(maxEntries, After(maxEntries, calls[..i]), calls[i].jti, calls[i].expiresAt, calls[i].now).1
  }

  /** A consumed token stays in the store until the clock has passed its expiry, whatever is called in between. */
  lemma {:induction false} TombstoneKept(maxEntries: nat, calls: seq<Call>, i: nat)
    requires i < |calls| && OutcomeOf(maxEntries, calls, i) == Consumed
    ensures var c := After(maxEntries, calls);
            calls[i].expiresAt <= c.highWater
            || (calls[i].jti in c.entries && c.entries[calls[i].jti] == calls[i].expiresAt)
  {
    var n := |calls| - 1;
    if i < n {
      assert calls[..n][..i] == calls[..i];
      TombstoneKept(maxEntries, calls[..n], i);
    } else {
      assert calls[..n] == calls[..i];
    }
  }

  /**
   * No token is consumed twice, on any sequence of calls and any clock readings: a later call with the same
   * identifier succeeds only at a time when the first token had already expired, and never with the same expiry.
   */
  lemma SingleUse(maxEntries: nat, calls: seq<Call>, i: nat, k: nat)
    requires i < k < |calls| && calls[i].jti == calls[k].jti
    requires OutcomeOf(maxEntries, calls, i) == Consumed && OutcomeOf(maxEntries, calls, k) == Consumed
    ensures calls[i].expiresAt <= calls[k].now < calls[k].expiresAt
  {
    assert calls[..k][..i] == calls[..i];
    TombstoneKept(maxEntries, calls[..k], i);
  }

  /** The identifier alone is not single-use: with a later expiry it is accepted again once the first has passed. */
  lemma IdentifierReusable(jti: Id)
    ensures var calls := [Call(jti, 100, 0), Call(jti, 400, 100)];
            OutcomeOf(1, calls, 0) == Consumed && OutcomeOf(1, calls, 1) == Consumed
  {
    var calls := [Call(jti, 100, 0), Call(jti, 400, 100)];
    assert calls[..0] == [];
    assert calls[..1] == [Call(jti, 100, 0)];
    assert calls[..1][..0] == [];
    assert After(1, calls[..1]) == Cache(map[jti := 100], 0);
    assert Pruned(map[jti := 100], 100) == map[];
  }

  ghost predicate WithinBounds(maxEntries: nat, c: Cache) {
    |c.entries| <= maxEntries && forall jti <- c.entries :: c.highWater < c.entries[jti] <= c.highWater + 310
  }

  lemma ConsumeKeepsBounds(maxEntries: nat, c: Cache, jti: Id, expiresAt: nat, now: nat)
    requires WithinBounds(maxEntries, c)
    ensures var next := Consume(maxEntries, c, jti, expiresAt, now).0;
            WithinBounds(maxEntries, next) && c.highWater <= next.highWater
  {
    PrunedSize(c.entries, now);
  }

  /** The store never exceeds its capacity and never holds an expiry in the past or beyond the permitted horizon. */
  lemma {:induction false} Bounded(maxEntries: nat, calls: seq<Call>)
    ensures WithinBounds(maxEntries, After(maxEntries, calls))
  {
    var n := |calls| - 1;
    if calls != [] {
      Bounded(maxEntries, calls[..n]);
      ConsumeKeepsBounds(maxEntries, After(maxEntries, calls[..n]), calls[n].jti, calls[n].expiresAt, calls[n].now);
    }
  }

  lemma PrunedSize(entries: map<Id, nat>, now: nat)
    ensures |Pruned(entries, now)| <= |entries|
  {
    Sets.SubsetSize(Pruned(entries, now).Keys, entries.Keys);
    assert |Pruned(entries, now).Keys| == |Pruned(entries, now)| && |entries.Keys| == |entries|;
  }

  // Every outcome, in terms of the calls alone

  /** The latest clock reading so far. */
  function LatestClock(calls: seq<Call>): nat {
    if calls == [] then 0
    else
      var earlier, now := LatestClock(calls[..|calls| - 1]), calls[|calls| - 1].now;
      if earlier < now then now else earlier
  }

  /** Call `i` was granted its token, and the token is still unexpired at this time. */
  predicate LiveAt(maxEntries: nat, calls: seq<Call>, i: nat, now: nat)
    requires i < |calls|
  {
    OutcomeOf(maxEntries, calls, i) == Consumed && now < calls[i].expiresAt
  }

  /** The earlier calls whose tokens are still unexpired at this time. */
  function LiveCalls(maxEntries: nat, calls: seq<Call>, now: nat): set<nat> {
    set i: nat | i < |calls| && LiveAt(maxEntries, calls, i, now)
  }

  lemma {:induction false} HighWaterIsLatest(maxEntries: nat, calls: seq<Call>)
    ensures After(maxEntries, calls).highWater == LatestClock(calls)
  {
    if calls != [] {
      HighWaterIsLatest(maxEntries, calls[..|calls| - 1]);
    }
  }

  /** Nothing is in the store but tokens that a call was granted. */
  lemma {:induction false} EntryWasConsumed(maxEntries: nat, calls: seq<Call>, jti: Id)
    requires jti in After(maxEntries, calls).entries
    ensures exists i: nat :: i < |calls| && OutcomeOf(maxEntries, calls, i) == Consumed
              && calls[i].jti == jti && calls[i].expiresAt == After(maxEntries, calls).entries[jti]
  {
    var n := |calls| - 1;
    var before := After(maxEntries, calls[..n]);
    if OutcomeOf(maxEntries, calls, n) == Consumed && calls[n].jti == jti {
      assert calls[n].expiresAt == After(maxEntries, calls).entries[jti];
    } else {
      assert jti in before.entries && before.entries[jti] == After(maxEntries, calls).entries[jti];
      EntryWasConsumed(maxEntries, calls[..n], jti);
      var i: nat :| i < n && OutcomeOf(maxEntries, calls[..n], i) == Consumed
                    && calls[..n][i].jti == jti && calls[..n][i].expiresAt == before.entries[jti];
      SameOutcome(maxEntries, calls, n, i);
    }
  }

  lemma SameOutcome(maxEntries: nat, calls: seq<Call>, n: nat, i: nat)
    requires i < n <= |calls|
    ensures OutcomeOf(maxEntries, calls[..n], i) == OutcomeOf(maxEntries, calls, i)
  {
    assert calls[..n][..i] == calls[..i];
  }

  /** While the clock does not recede, the store holds a live identifier exactly when an earlier call was granted it. */
  lemma LiveIdentifier(maxEntries: nat, calls: seq<Call>, jti: Id, now: nat)
    requires LatestClock(calls) <= now
    ensures jti in Pruned(After(maxEntries, calls).entries, now) <==>
            exists i: nat :: i < |calls| && calls[i].jti == jti && LiveAt(maxEntries, calls, i, now)
  {
    var c := After(maxEntries, calls);
    HighWaterIsLatest(maxEntries, calls);
    if jti in Pruned(c.entries, now) {
      EntryWasConsumed(maxEntries, calls, jti);
    }
    forall i: nat | i < |calls| && calls[i].jti == jti && LiveAt(maxEntries, calls, i, now)
      ensures jti in Pruned(c.entries, now)
    {
      TombstoneKept(maxEntries, calls, i);
    }
  }

  /** Two calls whose tokens are both live were granted different identifiers. */
  lemma LiveDistinct(maxEntries: nat, calls: seq<Call>, i: nat, k: nat, now: nat)
    requires LatestClock(calls) <= now && i < k < |calls|
    requires LiveAt(maxEntries, calls, i, now) && LiveAt(maxEntries, calls, k, now)
    ensures calls[i].jti != calls[k].jti
  {
    if calls[i].jti == calls[k].jti {
      SingleUse(maxEntries, calls, i, k);
      ClockBound(calls, k);
    }
  }

  lemma {:induction false} ClockBound(calls: seq<Call>, i: nat)
    requires i < |calls|
    ensures calls[i].now <= LatestClock(calls)
  {
    if i < |calls| - 1 {
      ClockBound(calls[..|calls| - 1], i);
    }
  }

  /** The store holds as many live tokens as earlier calls were granted. */
  lemma LiveCount(maxEntries: nat, calls: seq<Call>, now: nat)
    requires LatestClock(calls) <= now
    ensures |Pruned(After(maxEntries, calls).entries, now)| == |LiveCalls(maxEntries, calls, now)|
  {
    var live := Pruned(After(maxEntries, calls).entries, now);
    var granted := map i | i in LiveCalls(maxEntries, calls, now) :: calls[i].jti;
    forall i, k | i in granted && k in granted && i != k ensures granted[i] != granted[k] {
      if i < k {
        LiveDistinct(maxEntries, calls, i, k, now);
      } else {
        LiveDistinct(maxEntries, calls, k, i, now);
      }
    }
    Sets.InjectiveSize(granted);
    forall jti ensures jti in live <==> jti in granted.Values {
      LiveIdentifier(maxEntries, calls, jti, now);
      if i: nat :| i < |calls| && calls[i].jti == jti && LiveAt(maxEntries, calls, i, now) {
        assert i in granted && granted[i] == jti;
      }
    }
    assert live.Keys == granted.Values;
    assert granted.Keys == LiveCalls(maxEntries, calls, now);
    assert |live| == |live.Keys| && |granted| == |granted.Keys|;
  }

  predicate LifetimePermitted(c: Call) {
    c.now < c.expiresAt <= c.now + MAX_TTL_SECONDS + MAX_FUTURE_SKEW_SECONDS
  }

  /**
   * Inside its lifetime and under a clock that does not recede, a call is refused as a replay exactly when an earlier
   * call was granted the same identifier with an expiry that has not passed.
   */
  lemma ReplayedExactly(maxEntries: nat, calls: seq<Call>, k: nat)
    requires k < |calls| && LatestClock(calls[..k]) <= calls[k].now && LifetimePermitted(calls[k])
    ensures OutcomeOf(maxEntries, calls, k) == Replayed <==>
            exists i: nat :: i < k && calls[i].jti == calls[k].jti && LiveAt(maxEntries, calls, i, calls[k].now)
  {
    var c := calls[k];
    HighWaterIsLatest(maxEntries, calls[..k]);
    LiveIdentifier(maxEntries, calls[..k], c.jti, c.now);
    forall i: nat | i < k
      ensures LiveAt(maxEntries, calls[..k], i, c.now) == LiveAt(maxEntries, calls, i, c.now)
    {
      SameOutcome(maxEntries, calls, k, i);
    }
  }

  /**
   * A call is granted its token exactly when its clock reading is no earlier than any before it, the lifetime is
   * permitted, no earlier token with the same identifier is unexpired, and fewer than maxEntries earlier tokens are.
   */
  lemma FreshTokenAccepted(maxEntries: nat, calls: seq<Call>, k: nat)
    requires k < |calls|
    ensures OutcomeOf(maxEntries, calls, k) == Consumed <==>
            && LatestClock(calls[..k]) <= calls[k].now && LifetimePermitted(calls[k])
            && (forall i: nat :: i < k && calls[i].jti == calls[k].jti ==> !LiveAt(maxEntries, calls, i, calls[k].now))
            && |LiveCalls(maxEntries, calls[..k], calls[k].now)| < maxEntries
  {
    HighWaterIsLatest(maxEntries, calls[..k]);
    if LatestClock(calls[..k]) <= calls[k].now && LifetimePermitted(calls[k]) {
      ReplayedExactly(maxEntries, calls, k);
      LiveCount(maxEntries, calls[..k], calls[k].now);
    }
  }

  /** Why any other call is refused: its clock recedes, or its token has expired or lives too long. */
  lemma RefusedExactly(maxEntries: nat, calls: seq<Call>, k: nat)
    requires k < |calls|
    ensures var c, steady := calls[k], LatestClock(calls[..k]) <= calls[k].now;
            && (OutcomeOf(maxEntries, calls, k) == ClockRollback <==> !steady)
            && (OutcomeOf(maxEntries, calls, k) == Expired <==> steady && c.expiresAt <= c.now)
            && (OutcomeOf(maxEntries, calls, k) == InvalidExpiry <==> steady && c.expiresAt > c.now + 310)
  {
    HighWaterIsLatest(maxEntries, calls[..k]);
    hide After, Pruned;
  }
}
