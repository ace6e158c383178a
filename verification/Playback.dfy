/** The playback ledger: how much of each spoken item the caller is proven to have heard. */
module Playback {
  import opened Common

  type Id = nat

  datatype Limits = Limits(markBytes: nat, maxPendingMarks: nat) {
    predicate Valid() { markBytes >= 1 }
  }

  datatype Entry = Entry(rid: Id, generated: nat, played: nat, generation: nat)

  /** A mark sent after a chunk of audio: its name is the pair of generation and counter. */
  datatype Mark = Mark(generation: nat, counter: nat, itemId: Id, rid: Id, endBytes: nat)

  datatype Truncation = Truncation(rid: Id, audioEndMs: nat)

  /** `marks` is in insertion order, as the source's map of pending marks is. */
  datatype State = State(
    items: map<Id, Entry>, marks: seq<Mark>, generation: nat, nextCounter: nat, lastAcked: nat,
    truncations: map<Id, Truncation>, failed: bool)

  function Start(): State {
    State(map[], [], 0, 1, 0, map[], false)
  }

  // Outgoing audio

  /** Where each chunk of an audio delta ends. */
  function ChunkEnds(from: nat, bytes: nat, size: nat): seq<nat>
    requires size >= 1
    decreases bytes
  {
    if bytes == 0 then []
    else
      var n := if bytes < size then bytes else size;
      [from + n] + ChunkEnds(from + n, bytes - n, size)
  }

  /** The chunks follow one another, leave no gap wider than the chunk size, and end where the audio ends. */
  lemma {:induction false} ChunkEndsCover(from: nat, bytes: nat, size: nat)
    requires size >= 1
    ensures var r := ChunkEnds(from, bytes, size);
            && (forall i :: 0 <= i < |r| ==> from < r[i] <= from + bytes)
            && (forall i, k :: 0 <= i < k < |r| ==> r[i] < r[k])
            && (forall i :: 0 <= i < |r| ==> r[i] - (if i == 0 then from else r[i - 1]) <= size)
            && (if bytes == 0 then r == [] else r != [] && r[|r| - 1] == from + bytes)
    decreases bytes
  {
    if bytes > 0 {
      var n := if bytes < size then bytes else size;
      ChunkEndsCover(from + n, bytes - n, size);
    }
  }

  lemma NoChunks(from: nat, bytes: nat, size: nat)
    requires size >= 1
    ensures [] + ChunkEnds(from, bytes, size) == ChunkEnds(from, bytes, size)
    ensures bytes == 0 ==> ChunkEnds(from, bytes, size) == []
  {
  }

  /** The first chunk moves from the rest to those already cut. */
  lemma ChunkEndsStep(from: nat, bytes: nat, size: nat, ends: seq<nat>)
    requires size >= 1 && bytes > 0
    ensures var n := if bytes < size then bytes else size;
            ends + ChunkEnds(from, bytes, size) == ends + [from + n] + ChunkEnds(from + n, bytes - n, size)
  {
    var n := if bytes < size then bytes else size;
    assert ChunkEnds(from, bytes, size) == [from + n] + ChunkEnds(from + n, bytes - n, size);
  }

  function MarksFor(itemId: Id, rid: Id, generation: nat, counter: nat, ends: seq<nat>): (r: seq<Mark>)
    ensures |r| == |ends|
    ensures forall i :: 0 <= i < |r| ==> r[i] == Mark(generation, counter + i, itemId, rid, ends[i])
  {
    seq(|ends|, i requires 0 <= i < |ends| => Mark(generation, counter + i, itemId, rid, ends[i]))
  }

  function Opened(s: State, itemId: Id, rid: Id): Entry {
    if itemId in s.items then s.items[itemId] else Entry(rid, 0, 0, s.generation)
  }

  /** An audio delta; `active` says its response is the active one, `queued` whether the outbox took the frames. */
  function OutputAudio(l: Limits, s: State, rid: Id, itemId: Id, bytes: nat, active: bool, queued: bool): State
    requires l.Valid()
  {
    if !active || bytes == 0 then s.(failed := true)
    else
      var entry := Opened(s, itemId, rid);
      var ends := ChunkEnds(entry.generated, bytes, l.markBytes);
      if |s.marks| + |ends| > l.maxPendingMarks then s.(failed := true)
      else if entry.rid != rid || entry.generation != s.generation then s.(failed := true)
      else
        var numbered := s.(items := s.items[itemId := entry], nextCounter := s.nextCounter + |ends|);
        if !queued then numbered
        else numbered.(items := s.items[itemId := entry.(generated := entry.generated + bytes)],
                       marks := s.marks + MarksFor(itemId, rid, s.generation, s.nextCounter, ends))
  }

  // Echoed marks

  function Heard(items: map<Id, Entry>, m: Mark): map<Id, Entry> {
    if m.itemId !in items then items
    else
      var e := items[m.itemId];
      items[m.itemId := e.(played := if e.played < m.endBytes then m.endBytes else e.played)]
  }

  /** The first pending mark is acknowledged. */
  function AckFirst(s: State): State
    requires s.marks != []
  {
    var m := s.marks[0];
    s.(items := Heard(s.items, m), marks := s.marks[1..],
       lastAcked := if s.lastAcked < m.counter then m.counter else s.lastAcked)
  }

  predicate SameName(a: Mark, b: Mark) {
    a.generation == b.generation && a.counter == b.counter
  }

  /** Acknowledges the marks of the target's generation up to and including the target; `kept` were passed over. */
  function AckThrough(s: State, kept: seq<Mark>, target: Mark): State
    decreases |s.marks|
  {
    if s.marks == [] then s.(marks := kept)
    else
      var m := s.marks[0];
      if m.generation != target.generation then AckThrough(s.(marks := s.marks[1..]), kept + [m], target)
      else if SameName(m, target) then AckFirst(s).(marks := kept + s.marks[1..])
      else AckThrough(AckFirst(s), kept, target)
  }

  function Pending(marks: seq<Mark>, generation: nat, counter: nat): (r: Option<Mark>)
    ensures r.Some? ==> r.value in marks && r.value.generation == generation && r.value.counter == counter
    ensures r.None? ==> forall m <- marks :: m.generation != generation || m.counter != counter
  {
    if marks == [] then None
    else if marks[0].generation == generation && marks[0].counter == counter then Some(marks[0])
    else Pending(marks[1..], generation, counter)
  }

  /** A mark echoed by the carrier; `exact` is false for a spelling of the two numbers that no issued name has. */
  function Echo(s: State, generation: nat, counter: nat, exact: bool): State {
    var target := if exact then Pending(s.marks, generation, counter) else None;
    match target
    case Some(m) => if m.generation != s.generation then s else AckThrough(s, [], m)
    case None =>
      if generation < s.generation || (generation == s.generation && counter <= s.lastAcked) then s
      else s.(failed := true)
  }

  // Barge-in

  /** The items of the current generation with audio not yet heard, and where each is cut: 8 bytes a millisecond. */
  function Incomplete(s: State): map<Id, Truncation> {
    map id | id in s.items && s.items[id].generation == s.generation && s.items[id].generated > s.items[id].played ::
      Truncation(s.items[id].rid, s.items[id].played / 8)
  }

  /** A clear: pending marks go and a new generation starts; truncations go out unless a step in between fails. */
  function BargeIn(s: State, cleared: bool, interrupted: bool): State {
    var reset := s.(marks := [], generation := s.generation + 1);
    if !cleared then reset
    else if !interrupted then reset.(failed := true)
    else reset.(truncations := s.truncations + Incomplete(s))
  }

  function AcknowledgeTruncation(s: State, itemId: Id, rid: Option<Id>): State {
    if itemId !in s.truncations || (rid.Some? && s.truncations[itemId].rid != rid.value) then s.(failed := true)
    else s.(truncations := s.truncations - {itemId})
  }

  // Runs

  datatype Action =
    | Audio(rid: Id, itemId: Id, bytes: nat, active: bool, queued: bool)
    | MarkEcho(generation: nat, counter: nat, exact: bool)
    | Speech(cleared: bool, interrupted: bool)
    | TruncationAck(itemId: Id, response: Option<Id>)

  /** A session that failed is closed and handles nothing more. */
  function Step(l: Limits, s: State, a: Action): State
    requires l.Valid()
  {
    if s.failed then s
    else
      match a
      case Audio(rid, itemId, bytes, active, queued) => OutputAudio(l, s, rid, itemId, bytes, active, queued)
      case MarkEcho(generation, counter, exact) => Echo(s, generation, counter, exact)
      case Speech(cleared, interrupted) => BargeIn(s, cleared, interrupted)
      case TruncationAck(itemId, rid) => AcknowledgeTruncation(s, itemId, rid)
  }

  function Run(l: Limits, actions: seq<Action>): State
    requires l.Valid()
  {
    if actions == [] then Start() else Step(l, Run(l, actions[..|actions| - 1]), actions[|actions| - 1])
  }

  // The ledger invariant

  /** A pending mark lies in audio that was generated and not yet heard, of the current generation. */
  ghost predicate MarkFits(s: State, m: Mark) {
    && m.generation == s.generation && s.lastAcked < m.counter < s.nextCounter
    && m.itemId in s.items
    && var e := s.items[m.itemId]; e.generation == s.generation && e.played < m.endBytes <= e.generated
  }

  ghost predicate MarksOrdered(marks: seq<Mark>) {
    && (forall i, k :: 0 <= i < k < |marks| ==> marks[i].counter < marks[k].counter)
    && (forall i, k :: 0 <= i < k < |marks| && marks[i].itemId == marks[k].itemId ==>
          marks[i].endBytes < marks[k].endBytes)
  }

  ghost predicate EndPending(marks: seq<Mark>, id: Id, end: nat) {
    exists i :: 0 <= i < |marks| && marks[i].itemId == id && marks[i].endBytes == end
  }

  /** Unheard audio of the current generation is exactly what the pending marks still cover. */
  ghost predicate EntryFits(s: State, id: Id)
    requires id in s.items
  {
    var e := s.items[id];
    && e.played <= e.generated && e.generation <= s.generation
    && (e.generation == s.generation && e.played < e.generated ==> EndPending(s.marks, id, e.generated))
  }

  ghost predicate Sound(s: State) {
    && (forall m <- s.marks :: MarkFits(s, m))
    && MarksOrdered(s.marks)
    && (forall id <- s.items :: EntryFits(s, id))
    && s.lastAcked < s.nextCounter
  }

  lemma AckFirstSound(s: State)
    requires Sound(s) && s.marks != []
    ensures Sound(AckFirst(s))
    ensures var m := s.marks[0];
            && m.itemId in s.items
            && AckFirst(s).items == s.items[m.itemId := s.items[m.itemId].(played := m.endBytes)]
            && AckFirst(s).lastAcked == m.counter && s.items[m.itemId].played < m.endBytes
  {
    var m, next := s.marks[0], AckFirst(s);
    assert MarkFits(s, m);
    forall o <- next.marks ensures MarkFits(next, o) {
      var k :| 0 <= k < |next.marks| && next.marks[k] == o;
      assert o == s.marks[k + 1] && MarkFits(s, o);
    }
    assert MarksOrdered(next.marks);
    forall id <- next.items ensures EntryFits(next, id) {
      assert EntryFits(s, id);
      var e := next.items[id];
      if e.generation == s.generation && e.played < e.generated {
        assert EndPending(s.marks, id, e.generated);
        var i :| 0 <= i < |s.marks| && s.marks[i].itemId == id && s.marks[i].endBytes == e.generated;
        assert i > 0;
        assert next.marks[i - 1] == s.marks[i];
      }
    }
  }

  /** The end of the last of these marks that belongs to an item, or `base` when none does. */
  function LastEnd(base: nat, marks: seq<Mark>, id: Id): nat {
    if marks == [] then base
    else if marks[|marks| - 1].itemId == id then marks[|marks| - 1].endBytes
    else LastEnd(base, marks[..|marks| - 1], id)
  }

  lemma {:induction false} LastEndConcat(base: nat, a: seq<Mark>, b: seq<Mark>, id: Id)
    ensures LastEnd(base, a + b, id) == LastEnd(LastEnd(base, a, id), b, id)
    decreases |b|
  {
    if b == [] {
      assert a + b == a;
    } else {
      assert (a + b)[..|a + b| - 1] == a + b[..|b| - 1];
      LastEndConcat(base, a, b[..|b| - 1], id);
    }
  }

  lemma LastEndCons(base: nat, marks: seq<Mark>, id: Id)
    requires marks != []
    ensures LastEnd(base, marks, id) ==
            LastEnd(if marks[0].itemId == id then marks[0].endBytes else base, marks[1..], id)
  {
    assert marks == marks[..1] + marks[1..];
    LastEndConcat(base, marks[..1], marks[1..], id);
    assert marks[..1][..0] == [];
  }

  /** Entries keep their identity, and what was heard becomes the end of the last mark acknowledged. */
  ghost predicate HeardThrough(before: map<Id, Entry>, after: map<Id, Entry>, marks: seq<Mark>) {
    && after.Keys == before.Keys
    && forall id <- before :: after[id] == before[id].(played := LastEnd(before[id].played, marks, id))
  }

  lemma HeardCons(before: map<Id, Entry>, after: map<Id, Entry>, marks: seq<Mark>)
    requires marks != [] && marks[0].itemId in before
    requires var m := marks[0];
             HeardThrough(before[m.itemId := before[m.itemId].(played := m.endBytes)], after, marks[1..])
    ensures HeardThrough(before, after, marks)
  {
    forall id <- before ensures after[id] == before[id].(played := LastEnd(before[id].played, marks, id)) {
      LastEndCons(before[id].played, marks, id);
    }
  }

  lemma HeardNone(items: map<Id, Entry>)
    ensures HeardThrough(items, items, [])
  {
  }

  lemma AckThroughUnfolds(s: State, k: nat)
    requires Sound(s) && k < |s.marks|
    ensures AckThrough(s, [], s.marks[k]) == if k == 0 then AckFirst(s) else AckThrough(AckFirst(s), [], s.marks[k])
  {
    assert MarkFits(s, s.marks[0]) && MarkFits(s, s.marks[k]);
    assert k > 0 ==> s.marks[0].counter < s.marks[k].counter;
    hide Sound;
    assert [] + s.marks[1..] == s.marks[1..];
  }

  /** Acknowledging through a mark acknowledges every pending mark up to it and no other. */
  lemma {:induction false} AckThroughPrefix(s: State, k: nat)
    requires Sound(s) && k < |s.marks|
    ensures var next := AckThrough(s, [], s.marks[k]);
            && Sound(next) && next.marks == s.marks[k + 1..] && next.lastAcked == s.marks[k].counter
            && next == s.(items := next.items, marks := next.marks, lastAcked := next.lastAcked)
            && HeardThrough(s.items, next.items, s.marks[..k + 1])
    decreases |s.marks|
  {
    hide Sound, HeardThrough, AckFirst, AckThrough, LastEnd;
    AckThroughUnfolds(s, k);
    AckFirstSound(s);
    AckFirstFrame(s);
    var next, first := AckThrough(s, [], s.marks[k]), AckFirst(s);
    assert s.marks[..k + 1][1..] == s.marks[1..][..k];
    if k == 0 {
      HeardNone(first.items);
      assert s.marks[1..][..k] == [];
    } else {
      AckThroughPrefix(first, k - 1);
      assert first.marks[k - 1] == s.marks[k] && first.marks[k..] == s.marks[k + 1..];
    }
    HeardCons(s.items, next.items, s.marks[..k + 1]);
  }

  lemma AckFirstFrame(s: State)
    requires s.marks != []
    ensures var next := AckFirst(s);
            next == s.(items := next.items, marks := s.marks[1..], lastAcked := next.lastAcked)
  {
  }

  lemma PendingAt(s: State, m: Mark) returns (k: nat)
    requires Sound(s) && m in s.marks
    ensures k < |s.marks| && s.marks[k] == m
  {
    k :| 0 <= k < |s.marks| && s.marks[k] == m;
  }

  /** What acknowledging a prefix of the pending marks changes. */
  ghost predicate AckedPrefix(s: State, next: State) {
    && |next.marks| <= |s.marks| && next.marks == s.marks[|s.marks| - |next.marks|..]
    && next == s.(items := next.items, marks := next.marks, lastAcked := next.lastAcked, failed := next.failed)
    && HeardThrough(s.items, next.items, s.marks[..|s.marks| - |next.marks|])
    && (forall i :: 0 <= i < |s.marks| - |next.marks| ==> s.marks[i].counter <= next.lastAcked)
    && s.lastAcked <= next.lastAcked
  }

  lemma MarkIsLatest(s: State, k: nat)
    requires Sound(s) && k < |s.marks|
    ensures s.lastAcked < s.marks[k].counter
    ensures forall i :: 0 <= i <= k ==> s.marks[i].counter <= s.marks[k].counter
  {
    assert MarkFits(s, s.marks[k]);
  }

  lemma EchoHit(s: State, k: nat)
    requires Sound(s) && k < |s.marks|
    ensures var next := AckThrough(s, [], s.marks[k]);
            Sound(next) && AckedPrefix(s, next) && |next.marks| < |s.marks| && next.failed == s.failed
  {
    hide Sound, HeardThrough, AckThrough, LastEnd;
    MarkIsLatest(s, k);
    AckThroughPrefix(s, k);
    assert |s.marks| - |AckThrough(s, [], s.marks[k]).marks| == k + 1;
  }

  lemma EchoMiss(s: State, failed: bool)
    requires Sound(s)
    ensures Sound(s.(failed := failed)) && AckedPrefix(s, s.(failed := failed))
  {
    hide Sound;
    FailureSound(s, failed);
    HeardNone(s.items);
    assert s.marks[..0] == [];
  }

  /** An echoed mark acknowledges a prefix of the pending marks; what it changes follows from that prefix alone. */
  lemma EchoEffect(s: State, generation: nat, counter: nat, exact: bool)
    requires Sound(s) && !s.failed
    ensures var next := Echo(s, generation, counter, exact);
            && Sound(next) && AckedPrefix(s, next)
            && (next.failed <==> next != s && next.marks == s.marks)
  {
    hide Sound, AckedPrefix, AckThrough, Pending;
    var target := if exact then Pending(s.marks, generation, counter) else None;
    if target.Some? {
      var k := PendingAt(s, target.value);
      EchoHit(s, k);
    }
    EchoMiss(s, false);
    EchoMiss(s, true);
  }

  lemma FailureSound(s: State, failed: bool)
    requires Sound(s)
    ensures Sound(s.(failed := failed))
  {
    var next := s.(failed := failed);
    forall m <- next.marks ensures MarkFits(next, m) { assert MarkFits(s, m); }
    forall id <- next.items ensures EntryFits(next, id) { assert EntryFits(s, id); }
  }

  // Audio and barge-in keep the ledger

  /** What an accepted audio delta changes: one entry grows, and marks for it are appended. */
  ghost predicate Appended(s: State, next: State, itemId: Id, added: seq<Mark>, before: Entry, after: Entry) {
    && next == s.(items := s.items[itemId := after], marks := s.marks + added, nextCounter := s.nextCounter + |added|)
    && after == before.(generated := after.generated) && before.generation == s.generation
    && before.played <= before.generated < after.generated
    && (if itemId in s.items then s.items[itemId] == before else before.played == before.generated == 0)
    && added != [] && added[|added| - 1].endBytes == after.generated
    && (forall i :: 0 <= i < |added| ==>
          && added[i].generation == s.generation && added[i].counter == s.nextCounter + i
          && added[i].itemId == itemId && before.generated < added[i].endBytes <= after.generated)
    && forall i, k :: 0 <= i < k < |added| ==> added[i].endBytes < added[k].endBytes
  }

  lemma AppendedOrdered(s: State, next: State, itemId: Id, added: seq<Mark>, before: Entry, after: Entry)
    requires Sound(s) && Appended(s, next, itemId, added, before, after)
    ensures MarksOrdered(next.marks)
  {
    forall i, k | 0 <= i < k < |next.marks|
      ensures next.marks[i].counter < next.marks[k].counter
      ensures next.marks[i].itemId == next.marks[k].itemId ==> next.marks[i].endBytes < next.marks[k].endBytes
    {
      if i < |s.marks| {
        assert MarkFits(s, s.marks[i]);
      }
    }
  }

  lemma AppendedSound(s: State, next: State, itemId: Id, added: seq<Mark>, before: Entry, after: Entry)
    requires Sound(s) && Appended(s, next, itemId, added, before, after)
    ensures Sound(next)
  {
    hide MarksOrdered;
    AppendedOrdered(s, next, itemId, added, before, after);
    forall m <- next.marks ensures MarkFits(next, m) {
      if m in s.marks {
        assert MarkFits(s, m);
      } else {
        var i :| 0 <= i < |added| && added[i] == m;
      }
    }
    forall id <- next.items ensures EntryFits(next, id) {
      if id == itemId {
        var n := |next.marks| - 1;
        assert next.marks[n] == added[|added| - 1];
      } else {
        assert EntryFits(s, id);
        var e := s.items[id];
        if e.generation == s.generation && e.played < e.generated {
          var i :| 0 <= i < |s.marks| && s.marks[i].itemId == id && s.marks[i].endBytes == e.generated;
          assert next.marks[i] == s.marks[i];
        }
      }
    }
  }

  /** Counters are used up and the entry is opened even when the outbox refuses the frames. */
  lemma RefusedSound(s: State, itemId: Id, entry: Entry, used: nat)
    requires Sound(s) && entry.generation == s.generation
    requires if itemId in s.items then s.items[itemId] == entry else entry.played == entry.generated == 0
    ensures Sound(s.(items := s.items[itemId := entry], nextCounter := s.nextCounter + used))
  {
    var next := s.(items := s.items[itemId := entry], nextCounter := s.nextCounter + used);
    forall m <- next.marks ensures MarkFits(next, m) { assert MarkFits(s, m); }
    forall id <- next.items ensures EntryFits(next, id) { assert id in s.items ==> EntryFits(s, id); }
  }

  lemma OpenedFits(s: State, itemId: Id, rid: Id)
    requires Sound(s)
    ensures var e := Opened(s, itemId, rid); e.played <= e.generated && e.generation <= s.generation
  {
    assert itemId in s.items ==> EntryFits(s, itemId);
  }

  /** An audio delta that was not refused. */
  lemma AudioAppended(l: Limits, s: State, rid: Id, itemId: Id, bytes: nat)
    requires l.Valid() && Sound(s) && bytes > 0
    requires var entry := Opened(s, itemId, rid);
             && |s.marks| + |ChunkEnds(entry.generated, bytes, l.markBytes)| <= l.maxPendingMarks
             && entry.rid == rid && entry.generation == s.generation
    ensures Sound(OutputAudio(l, s, rid, itemId, bytes, true, true))
  {
    hide Sound, ChunkEnds;
    var entry := Opened(s, itemId, rid);
    var ends := ChunkEnds(entry.generated, bytes, l.markBytes);
    OpenedFits(s, itemId, rid);
    ChunkEndsCover(entry.generated, bytes, l.markBytes);
    AppendedSound(s, OutputAudio(l, s, rid, itemId, bytes, true, true), itemId,
                  MarksFor(itemId, rid, s.generation, s.nextCounter, ends), entry,
                  entry.(generated := entry.generated + bytes));
  }

  lemma AudioSound(l: Limits, s: State, rid: Id, itemId: Id, bytes: nat, active: bool, queued: bool)
    requires l.Valid() && Sound(s)
    ensures Sound(OutputAudio(l, s, rid, itemId, bytes, active, queued))
  {
    hide Sound, ChunkEnds;
    var entry := Opened(s, itemId, rid);
    var ends := ChunkEnds(entry.generated, bytes, l.markBytes);
    if !active || bytes == 0 || |s.marks| + |ends| > l.maxPendingMarks || entry.rid != rid
       || entry.generation != s.generation {
      FailureSound(s, true);
    } else if queued {
      AudioAppended(l, s, rid, itemId, bytes);
    } else {
      RefusedSound(s, itemId, entry, |ends|);
    }
  }

  lemma BargeInSound(s: State, cleared: bool, interrupted: bool)
    requires Sound(s)
    ensures Sound(BargeIn(s, cleared, interrupted))
  {
    var next := BargeIn(s, cleared, interrupted);
    forall id <- next.items ensures EntryFits(next, id) { assert EntryFits(s, id); }
  }

  lemma TruncationAckSound(s: State, itemId: Id, rid: Option<Id>)
    requires Sound(s)
    ensures Sound(AcknowledgeTruncation(s, itemId, rid))
  {
    var next := AcknowledgeTruncation(s, itemId, rid);
    forall m <- next.marks ensures MarkFits(next, m) { assert MarkFits(s, m); }
    forall id <- next.items ensures EntryFits(next, id) { assert EntryFits(s, id); }
  }

  lemma StepSound(l: Limits, s: State, a: Action)
    requires l.Valid() && Sound(s)
    ensures Sound(Step(l, s, a))
  {
    hide Sound, OutputAudio, Echo, BargeIn, AcknowledgeTruncation;
    if !s.failed {
      match a
      case Audio(rid, itemId, bytes, active, queued) => AudioSound(l, s, rid, itemId, bytes, active, queued);
      case MarkEcho(generation, counter, exact) => EchoEffect(s, generation, counter, exact);
      case Speech(cleared, interrupted) => BargeInSound(s, cleared, interrupted);
      case TruncationAck(itemId, rid) => TruncationAckSound(s, itemId, rid);
    }
  }

  /** The ledger invariant holds in every reachable state. */
  lemma {:induction false} RunSound(l: Limits, actions: seq<Action>)
    requires l.Valid()
    ensures Sound(Run(l, actions))
  {
    if actions != [] {
      hide Sound, Step;
      RunSound(l, actions[..|actions| - 1]);
      StepSound(l, Run(l, actions[..|actions| - 1]), actions[|actions| - 1]);
    }
  }

  // Main results

  /** The marks an action acknowledges: those an echo removes from the front. */
  function Acked(l: Limits, s: State, a: Action): seq<Mark>
    requires l.Valid()
  {
    var next := Step(l, s, a);
    if a.MarkEcho? && |next.marks| <= |s.marks| then s.marks[..|s.marks| - |next.marks|] else []
  }

  /** Every mark acknowledged so far, in order. */
  function AckedBy(l: Limits, actions: seq<Action>): seq<Mark>
    requires l.Valid()
  {
    if actions == [] then []
    else
      var n := |actions| - 1;
      AckedBy(l, actions[..n]) + Acked(l, Run(l, actions[..n]), actions[n])
  }

  lemma StepHeard(l: Limits, s: State, a: Action)
    requires l.Valid() && Sound(s)
    ensures var next := Step(l, s, a);
            && (forall id <- s.items ::
                  && id in next.items && next.items[id].generation == s.items[id].generation
                  && next.items[id].played == LastEnd(s.items[id].played, Acked(l, s, a), id)
                  && s.items[id].generated <= next.items[id].generated)
            && (forall id <- next.items :: id in s.items || next.items[id].played == 0)
            && s.generation <= next.generation
  {
    hide Sound, AckThrough, ChunkEnds;
    if !s.failed && a.MarkEcho? {
      EchoEffect(s, a.generation, a.counter, a.exact);
    }
  }

  /** No mark is acknowledged for an item before its first audio. */
  lemma AckedKnown(l: Limits, s: State, a: Action)
    requires l.Valid() && Sound(s)
    ensures forall m <- Acked(l, s, a) :: m.itemId in s.items && MarkFits(s, m)
  {
    forall m <- Acked(l, s, a) ensures m.itemId in s.items && MarkFits(s, m) {
      assert m in s.marks;
      assert MarkFits(s, m);
    }
  }

  lemma {:induction false} AckedItems(l: Limits, actions: seq<Action>)
    requires l.Valid()
    ensures forall m <- AckedBy(l, actions) :: m.itemId in Run(l, actions).items
  {
    if actions != [] {
      hide Sound, Step;
      var n := |actions| - 1;
      AckedItems(l, actions[..n]);
      RunSound(l, actions[..n]);
      AckedKnown(l, Run(l, actions[..n]), actions[n]);
      StepHeard(l, Run(l, actions[..n]), actions[n]);
    }
  }

  lemma {:induction false} LastEndAbsent(base: nat, marks: seq<Mark>, id: Id)
    requires forall m <- marks :: m.itemId != id
    ensures LastEnd(base, marks, id) == base
  {
    if marks != [] {
      LastEndAbsent(base, marks[..|marks| - 1], id);
    }
  }

  /**
   * In every reachable state, what counts as heard of an item is exactly the end of the last mark acknowledged
   * for it, never more than was generated; and audio of the current generation is unheard exactly while a pending
   * mark covers it.
   */
  lemma {:induction false} HeardIsAcknowledged(l: Limits, actions: seq<Action>, id: Id)
    requires l.Valid() && id in Run(l, actions).items
    ensures var s, e := Run(l, actions), Run(l, actions).items[id];
            && e.played == LastEnd(0, AckedBy(l, actions), id)
            && e.played <= e.generated
            && (e.generation == s.generation ==>
                  (e.played < e.generated <==> exists m :: m in s.marks && m.itemId == id))
  {
    RunSound(l, actions);
    var s := Run(l, actions);
    assert EntryFits(s, id);
    if EndPending(s.marks, id, s.items[id].generated) {
      var i :| 0 <= i < |s.marks| && s.marks[i].itemId == id && s.marks[i].endBytes == s.items[id].generated;
      assert s.marks[i] in s.marks;
    }
    forall m <- s.marks | m.itemId == id ensures s.items[id].played < s.items[id].generated {
      assert MarkFits(s, m);
    }
    PlayedIsLastEnd(l, actions, id);
  }

  lemma {:induction false} PlayedIsLastEnd(l: Limits, actions: seq<Action>, id: Id)
    requires l.Valid() && id in Run(l, actions).items
    ensures Run(l, actions).items[id].played == LastEnd(0, AckedBy(l, actions), id)
  {
    if actions != [] {
      hide Sound, Step, Acked;
      var n := |actions| - 1;
      var s := Run(l, actions[..n]);
      RunSound(l, actions[..n]);
      StepHeard(l, s, actions[n]);
      LastEndConcat(0, AckedBy(l, actions[..n]), Acked(l, s, actions[n]), id);
      if id in s.items {
        PlayedIsLastEnd(l, actions[..n], id);
      } else {
        AckedItems(l, actions[..n]);
        LastEndAbsent(0, AckedBy(l, actions[..n]), id);
        AckedKnown(l, s, actions[n]);
        LastEndAbsent(0, Acked(l, s, actions[n]), id);
      }
    }
  }

  lemma {:induction false} LastEndAtLeast(base: nat, marks: seq<Mark>, id: Id)
    requires forall m <- marks :: m.itemId == id ==> base < m.endBytes
    ensures base <= LastEnd(base, marks, id)
  {
    if marks != [] {
      LastEndAtLeast(base, marks[..|marks| - 1], id);
    }
  }

  /** What a later state says of an item: no less heard or generated, and nothing new once its generation passed. */
  ghost predicate Later(s: State, next: State, id: Id)
    requires id in s.items
  {
    && id in next.items && s.generation <= next.generation
    && s.items[id].generation == next.items[id].generation
    && s.items[id].played <= next.items[id].played && s.items[id].generated <= next.items[id].generated
    && (s.items[id].generation < s.generation ==> next.items[id] == s.items[id])
  }

  lemma StepLater(l: Limits, s: State, a: Action, id: Id)
    requires l.Valid() && Sound(s) && id in s.items
    ensures Later(s, Step(l, s, a), id)
  {
    hide Sound, AckThrough, ChunkEnds;
    StepHeard(l, s, a);
    AckedKnown(l, s, a);
    LastEndAtLeast(s.items[id].played, Acked(l, s, a), id);
    if s.items[id].generation < s.generation && !s.failed {
      LastEndAbsent(s.items[id].played, Acked(l, s, a), id);
      if a.MarkEcho? {
        EchoEffect(s, a.generation, a.counter, a.exact);
      }
    }
  }

  /** Heard audio never shrinks, and a clear freezes what was heard of every item for the rest of the session. */
  lemma {:induction false} HeardNeverRecedes(l: Limits, actions: seq<Action>, i: nat, id: Id)
    requires l.Valid() && i <= |actions| && id in Run(l, actions[..i]).items
    ensures Later(Run(l, actions[..i]), Run(l, actions), id)
  {
    hide Sound, Step, Later, Run;
    if i == |actions| {
      assert actions[..i] == actions;
      LaterSame(Run(l, actions), id);
    } else {
      var n := |actions| - 1;
      assert actions[..n][..i] == actions[..i];
      HeardNeverRecedes(l, actions[..n], i, id);
      RunSound(l, actions[..n]);
      LaterKnown(Run(l, actions[..i]), Run(l, actions[..n]), id);
      StepLater(l, Run(l, actions[..n]), actions[n], id);
      RunStep(l, actions);
      LaterStill(Run(l, actions[..i]), Run(l, actions[..n]), Run(l, actions), id);
    }
  }

  lemma RunStep(l: Limits, actions: seq<Action>)
    requires l.Valid() && actions != []
    ensures var n := |actions| - 1; Run(l, actions) == Step(l, Run(l, actions[..n]), actions[n])
  {
    hide Step;
  }

  lemma LaterSame(s: State, id: Id)
    requires id in s.items
    ensures Later(s, s, id)
  {
  }

  lemma LaterKnown(s: State, next: State, id: Id)
    requires id in s.items && Later(s, next, id)
    ensures id in next.items
  {
  }

  lemma LaterStill(a: State, b: State, c: State, id: Id)
    requires id in a.items && Later(a, b, id) && id in b.items && Later(b, c, id)
    ensures Later(a, c, id)
  {
  }

  /** The truncations a barge-in asks the provider for. */
  function Asked(s: State, a: Action): map<Id, Truncation> {
    if s.failed || !a.Speech? || !a.cleared || !a.interrupted then map[] else Incomplete(s)
  }

  /** Each item is truncated at most once in a session. */
  lemma TruncatedOnce(l: Limits, actions: seq<Action>, i: nat, k: nat, id: Id)
    requires l.Valid() && i < k < |actions| && id in Asked(Run(l, actions[..i]), actions[i])
    ensures id !in Asked(Run(l, actions[..k]), actions[k])
  {
    hide Sound;
    assert actions[..i + 1][..i] == actions[..i];
    assert actions[..k][..i + 1] == actions[..i + 1];
    HeardNeverRecedes(l, actions[..k], i + 1, id);
  }

  /** A truncation names what was heard up to the clear, and no later echo changes that. */
  lemma TruncationStaysTrue(l: Limits, actions: seq<Action>, i: nat, id: Id)
    requires l.Valid() && i < |actions| && id in Asked(Run(l, actions[..i]), actions[i])
    ensures var s, last := Run(l, actions[..i]), Run(l, actions);
            && id in s.items && id in last.items
            && Asked(s, actions[i])[id] == Truncation(s.items[id].rid, s.items[id].played / 8)
            && last.items[id].played == s.items[id].played
            && s.items[id].played < s.items[id].generated
  {
    hide Sound;
    assert actions[..i + 1][..i] == actions[..i];
    HeardNeverRecedes(l, actions, i + 1, id);
  }

  // Echoes

  datatype Name = Name(generation: nat, counter: nat)

  function Issued(l: Limits, s: State, a: Action): set<Name>
    requires l.Valid()
  {
    var next := Step(l, s, a);
    if !a.Audio? then {} else set m | m in next.marks && m !in s.marks :: Name(m.generation, m.counter)
  }

  /** The names of every mark handed to the carrier. */
  function IssuedBy(l: Limits, actions: seq<Action>): set<Name>
    requires l.Valid()
  {
    if actions == [] then {}
    else
      var n := |actions| - 1;
      IssuedBy(l, actions[..n]) + Issued(l, Run(l, actions[..n]), actions[n])
  }

  /** The name belongs to an earlier generation, was acknowledged already, or is pending. */
  ghost predicate Accounted(s: State, name: Name) {
    || name.generation < s.generation
    || (name.generation == s.generation &&
        (name.counter <= s.lastAcked
         || exists m :: m in s.marks && m.generation == name.generation && m.counter == name.counter))
  }

  lemma StepAccounts(l: Limits, s: State, a: Action, name: Name)
    requires l.Valid() && Sound(s) && Accounted(s, name)
    ensures Accounted(Step(l, s, a), name)
  {
    hide Sound, AckThrough, ChunkEnds, HeardThrough;
    var next := Step(l, s, a);
    if !s.failed && name.generation == s.generation && next.generation == s.generation && s.lastAcked < name.counter {
      var m :| m in s.marks && m.generation == name.generation && m.counter == name.counter;
      if a.MarkEcho? {
        EchoEffect(s, a.generation, a.counter, a.exact);
        var k := |s.marks| - |next.marks|;
        assert s.marks == s.marks[..k] + next.marks;
      } else {
        assert m in next.marks;
      }
    } else if !s.failed && a.MarkEcho? {
      EchoEffect(s, a.generation, a.counter, a.exact);
    }
  }

  lemma IssuedAccounted(l: Limits, s: State, a: Action, name: Name)
    requires l.Valid() && Sound(s) && name in Issued(l, s, a)
    ensures Accounted(Step(l, s, a), name)
  {
    StepSound(l, s, a);
    hide OutputAudio, Step;
    var next := Step(l, s, a);
    var m :| m in next.marks && m !in s.marks && name == Name(m.generation, m.counter);
    assert MarkFits(next, m);
  }

  lemma {:induction false} AllAccounted(l: Limits, actions: seq<Action>, name: Name)
    requires l.Valid() && name in IssuedBy(l, actions)
    ensures Accounted(Run(l, actions), name)
  {
    hide Sound, Step, Issued, Accounted;
    var n := |actions| - 1;
    var s := Run(l, actions[..n]);
    RunSound(l, actions[..n]);
    if name in IssuedBy(l, actions[..n]) {
      AllAccounted(l, actions[..n], name);
      StepAccounts(l, s, actions[n], name);
    } else {
      IssuedAccounted(l, s, actions[n], name);
    }
  }

  /** The echo of a mark the bridge issued never fails the session, however late it comes. */
  lemma IssuedEchoAccepted(l: Limits, actions: seq<Action>, name: Name)
    requires l.Valid() && name in IssuedBy(l, actions) && !Run(l, actions).failed
    ensures !Echo(Run(l, actions), name.generation, name.counter, true).failed
  {
    hide Sound, Run, Echo, Accounted;
    RunSound(l, actions);
    AllAccounted(l, actions, name);
    AccountedEcho(Run(l, actions), name);
  }

  lemma AccountedEcho(s: State, name: Name)
    requires Sound(s) && !s.failed && Accounted(s, name)
    ensures !Echo(s, name.generation, name.counter, true).failed
  {
    var target := Pending(s.marks, name.generation, name.counter);
    if target.Some? {
      var k := PendingAt(s, target.value);
      AckThroughPrefix(s, k);
    }
  }

  /** The echo of a mark from before a clear changes nothing. */
  lemma EchoAfterClear(l: Limits, actions: seq<Action>, name: Name, exact: bool)
    requires l.Valid() && name.generation < Run(l, actions).generation
    ensures Echo(Run(l, actions), name.generation, name.counter, exact) == Run(l, actions)
  {
    RunSound(l, actions);
    var s := Run(l, actions);
    forall m <- s.marks ensures m.generation != name.generation {
      assert MarkFits(s, m);
    }
  }

  // The ledger as an object

  class PlaybackLedger {
    const limits: Limits
    var playbackByItem: map<Id, Entry>
    var pendingMarks: seq<Mark>
    var generation: nat
    var nextMarkCounter: nat
    var lastAcknowledgedMarkCounter: nat
    var pendingTruncations: map<Id, Truncation>
    var failed: bool

    function Value(): State
      reads this
    {
      State(playbackByItem, pendingMarks, generation, nextMarkCounter, lastAcknowledgedMarkCounter,
            pendingTruncations, failed)
    }

    constructor (limits: Limits)
      requires limits.Valid()
      ensures Value() == Start() && this.limits == limits
    {
      this.limits := limits;
      playbackByItem, pendingMarks, generation, nextMarkCounter := map[], [], 0, 1;
      lastAcknowledgedMarkCounter, pendingTruncations, failed := 0, map[], false;
    }

    /** Splits an audio delta into chunks. */
    method Chunks(from: nat, bytes: nat) returns (ends: seq<nat>)
      requires limits.Valid()
      ensures ends == ChunkEnds(from, bytes, limits.markBytes)
    {
      hide ChunkEnds;
      NoChunks(from, bytes, limits.markBytes);
      ends := [];
      var offset := 0;
      while offset < bytes
        invariant 0 <= offset <= bytes
        invariant ends + ChunkEnds(from + offset, bytes - offset, limits.markBytes) ==
                  ChunkEnds(from, bytes, limits.markBytes)
      {
        var n := if bytes - offset < limits.markBytes then bytes - offset else limits.markBytes;
        ChunkEndsStep(from + offset, bytes - offset, limits.markBytes, ends);
        ends := ends + [from + offset + n];
        offset := offset + n;
      }
      NoChunks(from + bytes, 0, limits.markBytes);
      assert ends + [] == ends;
    }

    method HandleOutputAudio(rid: Id, itemId: Id, bytes: nat, active: bool, queued: bool)
      requires limits.Valid()
      modifies this
      ensures Value() == OutputAudio(limits, old(Value()), rid, itemId, bytes, active, queued)
    {
      hide ChunkEnds, MarksFor;
      if !active || bytes == 0 { failed := true; return; }
      var entry := if itemId in playbackByItem then playbackByItem[itemId] else Entry(rid, 0, 0, generation);
      var ends := Chunks(entry.generated, bytes);
      if |pendingMarks| + |ends| > limits.maxPendingMarks { failed := true; return; }
      if entry.rid != rid || entry.generation != generation { failed := true; return; }
      playbackByItem := playbackByItem[itemId := entry];
      var entries := NumberMarks(rid, itemId, ends);
      if !queued { return; }
      ChunkEndsCover(entry.generated, bytes, limits.markBytes);
      playbackByItem := playbackByItem[itemId := entry.(generated := ends[|ends| - 1])];
      pendingMarks := pendingMarks + entries;
      assert playbackByItem == old(playbackByItem)[itemId := entry.(generated := entry.generated + bytes)];
    }

    method NumberMarks(rid: Id, itemId: Id, ends: seq<nat>) returns (entries: seq<Mark>)
      modifies this`nextMarkCounter
      ensures entries == MarksFor(itemId, rid, generation, old(nextMarkCounter), ends)
      ensures nextMarkCounter == old(nextMarkCounter) + |ends|
    {
      entries := [];
      var i := 0;
      while i < |ends|
        invariant 0 <= i <= |ends| && nextMarkCounter == old(nextMarkCounter) + i
        invariant entries == MarksFor(itemId, rid, generation, old(nextMarkCounter), ends)[..i]
      {
        entries := entries + [Mark(generation, nextMarkCounter, itemId, rid, ends[i])];
        nextMarkCounter := nextMarkCounter + 1;
        i := i + 1;
      }
    }

    /** Acknowledges the marks up to the target in insertion order, passing over any of another generation. */
    method AcknowledgePlaybackThrough(target: Mark)
      modifies this
      ensures Value() == AckThrough(old(Value()), [], target)
    {
      var kept: seq<Mark> := [];
      var rest := pendingMarks;
      while rest != []
        invariant AckThrough(Value().(marks := rest), kept, target) == AckThrough(old(Value()), [], target)
        decreases |rest|
      {
        var m := rest[0];
        if m.generation != target.generation {
          kept, rest := kept + [m], rest[1..];
          continue;
        }
        if m.itemId in playbackByItem {
          var e := playbackByItem[m.itemId];
          playbackByItem := playbackByItem[m.itemId :=
            e.(played := if e.played < m.endBytes then m.endBytes else e.played)];
        }
        if lastAcknowledgedMarkCounter < m.counter { lastAcknowledgedMarkCounter := m.counter; }
        rest := rest[1..];
        if SameName(m, target) {
          pendingMarks := kept + rest;
          return;
        }
      }
      pendingMarks := kept;
    }

    method HandleMark(markGeneration: nat, counter: nat, exact: bool)
      modifies this
      ensures Value() == Echo(old(Value()), markGeneration, counter, exact)
    {
      var target := if exact then Pending(pendingMarks, markGeneration, counter) else None;
      if target.None? {
        if markGeneration < generation { return; }
        if markGeneration == generation && counter <= lastAcknowledgedMarkCounter { return; }
        failed := true;
        return;
      }
      if target.value.generation != generation { return; }
      AcknowledgePlaybackThrough(target.value);
    }

    method HandleBargeIn(cleared: bool, interrupted: bool)
      modifies this
      ensures Value() == BargeIn(old(Value()), cleared, interrupted)
    {
      var incomplete := Incomplete(Value());
      pendingMarks := [];
      generation := generation + 1;
      if !cleared { return; }
      if !interrupted { failed := true; return; }
      pendingTruncations := pendingTruncations + incomplete;
    }
  }
}
