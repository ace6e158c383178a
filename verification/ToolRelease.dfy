/** When the provider adapter may release function calls, over every sequence of frames, interruptions and outputs. */
module ToolRelease {
  import opened Common
  import opened ToolLedger

  // What frames say about calls

  function ItemMentions(rid: Id, item: Item, done: bool): set<Update> {
    if item.Item? && item.kind.FunctionCall? && item.callId.Some? then {UpdateOf(item, rid, done)} else {}
  }

  function OutputMentions(rid: Id, output: seq<Item>): (r: set<Update>)
    ensures forall u <- r :: u.rid == rid && exists i :: 0 <= i < |output| && u in ItemMentions(rid, output[i], true)
  {
    if output == [] then {}
    else OutputMentions(rid, output[..|output| - 1]) + ItemMentions(rid, output[|output| - 1], true)
  }

  /** The calls a frame names, with what it says of each; a response that did not complete names none. */
  function Mentions(w: Wire): set<Update> {
    match w
    case ItemEvent(rid, item, done) => ItemMentions(rid, item, done)
    case ArgumentsDone(_, _, _, _, _) => {ArgumentsUpdate(w)}
    case ArgumentsCancelled(rid, callId) => {CancelUpdate(callId, rid)}
    case ResponseDone(rid, status, output, _) =>
      if status == Completed && output.Some? then OutputMentions(rid, output.value) else {}
    case _ => {}
  }

  // What an unsealed adapter keeps

  ghost predicate Held(pending: seq<PendingCall>, u: Update) {
    exists i :: 0 <= i < |pending| && Carries(pending[i], u)
  }

  ghost predicate Known(seen: set<Update>, rid: Id, callId: Id) {
    exists u :: u in seen && u.rid == rid && u.callId == callId
  }

  // What some frame said of a call

  ghost predicate Named(seen: set<Update>, rid: Id, callId: Id) {
    exists u :: u in seen && u.rid == rid && u.callId == callId && u.name.Some?
  }

  ghost predicate Placed(seen: set<Update>, rid: Id, callId: Id) {
    exists u :: u in seen && u.rid == rid && u.callId == callId && u.itemId.Some?
  }

  ghost predicate Argued(seen: set<Update>, rid: Id, callId: Id) {
    exists u :: u in seen && u.rid == rid && u.callId == callId && u.args.Some?
  }

  ghost predicate Ended(seen: set<Update>, rid: Id, callId: Id) {
    exists u :: u in seen && u.rid == rid && u.callId == callId && u.ends
  }

  ghost predicate Withdrawn(seen: set<Update>, rid: Id, callId: Id) {
    exists u :: u in seen && u.rid == rid && u.callId == callId && u.cancels
  }

  /** Nothing is recorded of a call that no frame said. */
  ghost predicate Sourced(seen: set<Update>, p: PendingCall) {
    && Known(seen, p.rid, p.callId)
    && (p.itemId.Some? ==> Placed(seen, p.rid, p.callId))
    && (p.name.Some? ==> Named(seen, p.rid, p.callId)) && (p.args.Some? ==> Argued(seen, p.rid, p.callId))
    && (p.terminal ==> Ended(seen, p.rid, p.callId)) && (p.cancelled ==> Withdrawn(seen, p.rid, p.callId))
  }

  ghost predicate Ordered(pending: seq<PendingCall>) {
    && (forall i, k :: 0 <= i < k < |pending| ==> pending[i].callId != pending[k].callId)
    && (forall i, k :: 0 <= i < k < |pending| ==> pending[i].order < pending[k].order)
  }

  ghost predicate Live(cfg: Config, s: Ledger, seen: set<Update>, closed: set<Id>, p: PendingCall) {
    && Sourced(seen, p)
    && p.rid !in closed && p.callId !in s.retired && !p.conflicted && p.order < s.nextOrder
    && NameDeclared(cfg, p.name)
  }

  ghost predicate AllHeld(pending: seq<PendingCall>, seen: set<Update>, closed: set<Id>) {
    forall u <- seen :: u.rid in closed || Held(pending, u)
  }

  /** Every call named for an open response is pending with all that was said of it, and no other call is pending. */
  ghost predicate CallsKept(cfg: Config, s: Ledger, seen: set<Update>, closed: set<Id>) {
    && AllHeld(s.pending, seen, closed)
    && (forall p <- s.pending :: Live(cfg, s, seen, closed, p))
    && Ordered(s.pending)
  }

  ghost predicate NotesKept(s: Ledger, seen: set<Update>) {
    && (forall k <- s.outputItems :: ItemMentions(k.rid, s.outputItems[k], k.done) <= seen)
    && (forall c <- s.argumentDone ::
          var g := s.argumentDone[c]; Update(c, g.rid, g.itemId, Some(g.name), Some(g.args), true, false) in seen)
    && s.rejected == map[]
    && (forall c <- s.authorizations :: c in s.retired)
  }

  ghost predicate WithinBudget(cfg: Config, s: Ledger) {
    && s.pendingBytes == SumArgs(cfg, s.pending) <= MAX_PENDING_ARGUMENT_BYTES
    && |s.pending| <= MAX_PENDING_CALLS
    && forall rid :: |CallsOf(s.pending, rid)| <= MAX_CALLS_PER_RESPONSE
  }

  ghost predicate Kept(cfg: Config, s: Ledger, seen: set<Update>, closed: set<Id>) {
    CallsKept(cfg, s, seen, closed) && NotesKept(s, seen) && WithinBudget(cfg, s)
  }

  // Admitting or extending a call

  lemma UpsertHolds(s: Ledger, next: Ledger, u: Update, i: nat, seen: set<Update>, closed: set<Id>)
    requires AllHeld(s.pending, seen, closed) && Upserted(s, next, u, i)
    ensures AllHeld(next.pending, seen + {u}, closed)
  {
    forall v <- seen + {u} | v.rid !in closed ensures Held(next.pending, v) {
      if v == u {
        assert Carries(next.pending[i], u);
      } else {
        assert Held(s.pending, v);
        var k :| 0 <= k < |s.pending| && Carries(s.pending[k], v);
        assert Carries(next.pending[k], v);
      }
    }
  }

  lemma SourcedGrows(seen: set<Update>, more: set<Update>, p: PendingCall)
    requires Sourced(seen, p) && seen <= more
    ensures Sourced(more, p)
  {
    assert forall u :: u in seen ==> u in more;
  }

  lemma UpsertSources(s: Ledger, next: Ledger, u: Update, i: nat, seen: set<Update>)
    requires Upserted(s, next, u, i) && (i < |s.pending| ==> Sourced(seen, s.pending[i]))
    ensures Sourced(seen + {u}, next.pending[i])
  {
    assert u in seen + {u};
    if i < |s.pending| {
      SourcedGrows(seen, seen + {u}, s.pending[i]);
    }
  }

  lemma UpsertLives(cfg: Config, s: Ledger, next: Ledger, u: Update, i: nat, seen: set<Update>, closed: set<Id>,
                    p: PendingCall)
    requires forall q <- s.pending :: Live(cfg, s, seen, closed, q)
    requires Upserted(s, next, u, i) && u.rid !in closed && NameDeclared(cfg, u.name) && p in next.pending
    ensures Live(cfg, next, seen + {u}, closed, p)
  {
    hide Sourced;
    if p == next.pending[i] {
      assert i < |s.pending| ==> Live(cfg, s, seen, closed, s.pending[i]);
      UpsertSources(s, next, u, i, seen);
    } else {
      assert p in s.pending;
      SourcedGrows(seen, seen + {u}, p);
    }
  }

  lemma UpsertOrders(s: Ledger, next: Ledger, u: Update, i: nat)
    requires Ordered(s.pending) && Upserted(s, next, u, i)
    requires forall p <- s.pending :: p.order < s.nextOrder
    ensures Ordered(next.pending)
  {
  }

  lemma UpsertKeepsCalls(cfg: Config, s: Ledger, next: Ledger, u: Update, i: nat, seen: set<Update>, closed: set<Id>)
    requires CallsKept(cfg, s, seen, closed) && Upserted(s, next, u, i) && u.rid !in closed && NameDeclared(cfg, u.name)
    ensures CallsKept(cfg, next, seen + {u}, closed)
  {
    assert forall p <- s.pending :: Live(cfg, s, seen, closed, p) ==> p.order < s.nextOrder;
    hide Live, Ordered, AllHeld, Upserted;
    UpsertHolds(s, next, u, i, seen, closed);
    UpsertOrders(s, next, u, i);
    forall p <- next.pending ensures Live(cfg, next, seen + {u}, closed, p) {
      UpsertLives(cfg, s, next, u, i, seen, closed, p);
    }
  }

  lemma {:induction false} SumArgsUpdate(cfg: Config, pending: seq<PendingCall>, i: nat, p: PendingCall)
    requires i < |pending|
    ensures SumArgs(cfg, pending[i := p]) ==
            SumArgs(cfg, pending) - ArgsBytes(cfg, pending[i].args) + ArgsBytes(cfg, p.args)
  {
    var n := |pending| - 1;
    if i < n {
      assert pending[i := p][..n] == pending[..n][i := p];
      SumArgsUpdate(cfg, pending[..n], i, p);
    } else {
      assert pending[i := p][..n] == pending[..n];
    }
  }

  lemma {:induction false} CallsOfUpdate(pending: seq<PendingCall>, i: nat, p: PendingCall, rid: Id)
    requires i < |pending| && p.rid == pending[i].rid
    ensures |CallsOf(pending[i := p], rid)| == |CallsOf(pending, rid)|
  {
    var n := |pending| - 1;
    if i < n {
      assert pending[i := p][..n] == pending[..n][i := p];
      CallsOfUpdate(pending[..n], i, p, rid);
    } else {
      assert pending[i := p][..n] == pending[..n];
    }
  }

  lemma UpsertKeepsBudget(cfg: Config, s: Ledger, next: Ledger, u: Update, i: nat)
    requires WithinBudget(cfg, s) && Upserted(s, next, u, i) && Charged(cfg, s, next, i)
    ensures WithinBudget(cfg, next)
  {
    if i < |s.pending| {
      SumArgsUpdate(cfg, s.pending, i, next.pending[i]);
      forall rid ensures |CallsOf(next.pending, rid)| <= MAX_CALLS_PER_RESPONSE {
        CallsOfUpdate(s.pending, i, next.pending[i], rid);
      }
    } else {
      assert next.pending[..|s.pending|] == s.pending;
    }
  }

  lemma UpsertKeeps(cfg: Config, s: Ledger, next: Ledger, u: Update, i: nat, seen: set<Update>, closed: set<Id>)
    requires Kept(cfg, s, seen, closed) && Upserted(s, next, u, i) && Charged(cfg, s, next, i)
    requires u.rid !in closed && NameDeclared(cfg, u.name)
    ensures Kept(cfg, next, seen + {u}, closed)
  {
    hide CallsKept, WithinBudget;
    UpsertKeepsCalls(cfg, s, next, u, i, seen, closed);
    UpsertKeepsBudget(cfg, s, next, u, i);
  }

  // The pending calls of a response

  ghost predicate HasCall(calls: seq<PendingCall>, c: Id) {
    exists i :: 0 <= i < |calls| && calls[i].callId == c
  }

  lemma PendingOf(pending: seq<PendingCall>, rid: Id, k: nat)
    requires k < |pending| && pending[k].rid == rid
    ensures HasCall(CallsOf(pending, rid), pending[k].callId)
  {
    var calls := CallsOf(pending, rid);
    assert pending[k] in calls;
    hide CallsOf;
    var i :| 0 <= i < |calls| && calls[i] == pending[k];
  }

  lemma PendingKnown(cfg: Config, s: Ledger, said: set<Update>, closed: set<Id>, rid: Id, i: nat)
    requires CallsKept(cfg, s, said, closed) && i < |CallsOf(s.pending, rid)|
    ensures Known(said, rid, CallsOf(s.pending, rid)[i].callId)
  {
    var p := CallsOf(s.pending, rid)[i];
    assert p in CallsOf(s.pending, rid);
    assert Live(cfg, s, said, closed, p);
  }

  /** The pending calls of an open response are those the frames named for it. */
  lemma CallMentioned(cfg: Config, s: Ledger, said: set<Update>, closed: set<Id>, rid: Id, c: Id)
    requires CallsKept(cfg, s, said, closed) && rid !in closed
    ensures HasCall(CallsOf(s.pending, rid), c) <==> Known(said, rid, c)
  {
    hide Live, Ordered, CallsOf;
    var calls := CallsOf(s.pending, rid);
    if HasCall(calls, c) {
      var i :| 0 <= i < |calls| && calls[i].callId == c;
      PendingKnown(cfg, s, said, closed, rid, i);
    }
    if Known(said, rid, c) {
      var u :| u in said && u.rid == rid && u.callId == c;
      assert Held(s.pending, u);
      var k :| 0 <= k < |s.pending| && Carries(s.pending[k], u);
      PendingOf(s.pending, rid, k);
    }
  }

  /** The pending call with an id carries everything said of it for an open response. */
  lemma PendingCarries(cfg: Config, s: Ledger, said: set<Update>, closed: set<Id>, i: nat, u: Update)
    requires CallsKept(cfg, s, said, closed) && i < |s.pending|
    requires u in said && u.rid !in closed && u.callId == s.pending[i].callId
    ensures Carries(s.pending[i], u)
  {
    hide Live, Ordered;
    assert Held(s.pending, u);
    var k :| 0 <= k < |s.pending| && Carries(s.pending[k], u);
    if k != i {
      DistinctAt(s.pending, i, k);
    }
  }

  // Retiring the calls of a response

  lemma {:induction false} RetireSum(cfg: Config, pending: seq<PendingCall>, rid: Id)
    ensures SumArgs(cfg, CallsOf(pending, rid)) + SumArgs(cfg, Others(pending, rid)) == SumArgs(cfg, pending)
  {
    if pending != [] {
      var n := |pending| - 1;
      RetireSum(cfg, pending[..n], rid);
      var calls, others := CallsOf(pending[..n], rid), Others(pending[..n], rid);
      assert (calls + [pending[n]])[..|calls|] == calls;
      assert (others + [pending[n]])[..|others|] == others;
      assert calls + [] == calls && others + [] == others;
    }
  }

  lemma OrderedSnoc(pending: seq<PendingCall>, p: PendingCall)
    requires Ordered(pending) && forall q <- pending :: q.callId != p.callId && q.order < p.order
    ensures Ordered(pending + [p])
  {
  }

  lemma OrderedPrefix(pending: seq<PendingCall>)
    requires Ordered(pending) && pending != []
    ensures var n := |pending| - 1;
            && Ordered(pending[..n])
            && forall q <- pending[..n] :: q.callId != pending[n].callId && q.order < pending[n].order
  {
  }

  lemma {:induction false} FilteredOrdered(pending: seq<PendingCall>, rid: Id)
    requires Ordered(pending)
    ensures Ordered(CallsOf(pending, rid)) && Ordered(Others(pending, rid))
  {
    if pending != [] {
      hide Ordered;
      var n := |pending| - 1;
      OrderedPrefix(pending);
      FilteredOrdered(pending[..n], rid);
      if pending[n].rid == rid {
        OrderedSnoc(CallsOf(pending[..n], rid), pending[n]);
      } else {
        OrderedSnoc(Others(pending[..n], rid), pending[n]);
      }
      assert CallsOf(pending[..n], rid) + [] == CallsOf(pending[..n], rid);
      assert Others(pending[..n], rid) + [] == Others(pending[..n], rid);
    }
  }

  lemma {:induction false} OthersCount(pending: seq<PendingCall>, rid: Id, other: Id)
    ensures |CallsOf(Others(pending, rid), other)| <= |CallsOf(pending, other)|
  {
    if pending != [] {
      var n := |pending| - 1;
      OthersCount(pending[..n], rid, other);
      var others := Others(pending[..n], rid);
      assert (others + [pending[n]])[..|others|] == others;
      assert others + [] == others;
    }
  }

  lemma RetireHolds(pending: seq<PendingCall>, rid: Id, seen: set<Update>, closed: set<Id>)
    requires AllHeld(pending, seen, closed)
    ensures AllHeld(Others(pending, rid), seen, closed + {rid})
  {
    forall u <- seen | u.rid !in closed && u.rid != rid ensures Held(Others(pending, rid), u) {
      assert Held(pending, u);
      var k :| 0 <= k < |pending| && Carries(pending[k], u);
      assert pending[k] in Others(pending, rid);
    }
  }

  lemma DistinctAt(pending: seq<PendingCall>, i: nat, k: nat)
    requires Ordered(pending) && i < |pending| && k < |pending| && i != k
    ensures pending[i].callId != pending[k].callId
  {
  }

  lemma DistinctCalls(pending: seq<PendingCall>, p: PendingCall, q: PendingCall)
    requires Ordered(pending) && p in pending && q in pending && p != q
    ensures p.callId != q.callId
  {
    hide Ordered;
    var i :| 0 <= i < |pending| && pending[i] == p;
    var k :| 0 <= k < |pending| && pending[k] == q;
    DistinctAt(pending, i, k);
  }

  lemma RetireLives(cfg: Config, s: Ledger, rid: Id, seen: set<Update>, closed: set<Id>, p: PendingCall)
    requires CallsKept(cfg, s, seen, closed) && p in Others(s.pending, rid)
    ensures Live(cfg, Retire(cfg, s, rid), seen, closed + {rid}, p)
  {
    hide Sourced, Ordered, SumArgs;
    assert Live(cfg, s, seen, closed, p);
    var calls := CallsOf(s.pending, rid);
    forall i | 0 <= i < |calls| ensures calls[i].callId != p.callId {
      assert calls[i] in s.pending && calls[i] in calls;
      DistinctCalls(s.pending, calls[i], p);
    }
  }

  lemma RetireKeepsCalls(cfg: Config, s: Ledger, rid: Id, seen: set<Update>, closed: set<Id>)
    requires CallsKept(cfg, s, seen, closed)
    ensures CallsKept(cfg, Retire(cfg, s, rid), seen, closed + {rid})
  {
    FilteredOrdered(s.pending, rid);
    RetireHolds(s.pending, rid, seen, closed);
    forall p <- Others(s.pending, rid) ensures Live(cfg, Retire(cfg, s, rid), seen, closed + {rid}, p) {
      RetireLives(cfg, s, rid, seen, closed, p);
    }
  }

  lemma RetireKeeps(cfg: Config, s: Ledger, rid: Id, seen: set<Update>, closed: set<Id>)
    requires Kept(cfg, s, seen, closed)
    ensures Kept(cfg, Retire(cfg, s, rid), seen, closed + {rid})
    ensures Retire(cfg, s, rid).pendingBytes == s.pendingBytes - SumArgs(cfg, CallsOf(s.pending, rid))
  {
    var next := Retire(cfg, s, rid);
    RetireKeepsCalls(cfg, s, rid, seen, closed);
    RetireSum(cfg, s.pending, rid);
    forall other ensures |CallsOf(next.pending, other)| <= MAX_CALLS_PER_RESPONSE {
      OthersCount(s.pending, rid, other);
    }
  }

  // Handlers

  /** The ledgers the invariant speaks of. */
  ghost predicate SameCalls(s: Ledger, t: Ledger) {
    && t.pending == s.pending && t.nextOrder == s.nextOrder && t.retired == s.retired
    && t.pendingBytes == s.pendingBytes
  }

  ghost predicate SameNotes(s: Ledger, t: Ledger) {
    && t.outputItems == s.outputItems && t.argumentDone == s.argumentDone && t.rejected == s.rejected
    && t.authorizations == s.authorizations
  }

  lemma CallsFrame(cfg: Config, s: Ledger, t: Ledger, seen: set<Update>, closed: set<Id>)
    requires CallsKept(cfg, s, seen, closed) && WithinBudget(cfg, s) && SameCalls(s, t)
    ensures CallsKept(cfg, t, seen, closed) && WithinBudget(cfg, t)
  {
    hide Sourced, Ordered, AllHeld;
    forall p <- t.pending ensures Live(cfg, t, seen, closed, p) {
      assert Live(cfg, s, seen, closed, p);
    }
  }

  lemma KeptFrame(cfg: Config, s: Ledger, t: Ledger, seen: set<Update>, closed: set<Id>)
    requires Kept(cfg, s, seen, closed) && SameCalls(s, t) && SameNotes(s, t)
    ensures Kept(cfg, t, seen, closed)
  {
    hide CallsKept, WithinBudget;
    CallsFrame(cfg, s, t, seen, closed);
  }

  /** Hearing again of a call already known, or of one whose response is closed, changes nothing. */
  lemma SeenGrows(cfg: Config, s: Ledger, seen: set<Update>, more: set<Update>, closed: set<Id>)
    requires Kept(cfg, s, seen, closed) && forall u <- more :: u in seen || u.rid in closed
    ensures Kept(cfg, s, seen + more, closed)
  {
    hide WithinBudget, Ordered, Sourced;
    forall p <- s.pending ensures Live(cfg, s, seen + more, closed, p) {
      assert Live(cfg, s, seen, closed, p);
      SourcedGrows(seen, seen + more, p);
    }
    assert AllHeld(s.pending, seen + more, closed);
  }

  lemma NoteItemKeeps(cfg: Config, s: Ledger, rid: Id, item: Item, done: bool, seen: set<Update>, closed: set<Id>)
    requires Kept(cfg, s, seen, closed) && rid !in closed && NoteItem(cfg, s, rid, item, done).Done?
    ensures Kept(cfg, NoteItem(cfg, s, rid, item, done).ledger, seen + ItemMentions(rid, item, done), closed)
  {
    hide CallsKept, WithinBudget, Upsert, Upserted, Charged;
    var key := ItemKey(done, rid, item.id.value);
    var next := NoteItem(cfg, s, rid, item, done).ledger;
    if key in s.outputItems {
      assert ItemMentions(rid, item, done) <= seen;
      SeenGrows(cfg, s, seen, ItemMentions(rid, item, done), closed);
    } else {
      var noted := s.(outputItems := s.outputItems[key := item]);
      var bound := BindIdentity(noted, item.id.value, item, rid).ledger;
      CallsFrame(cfg, s, bound, seen, closed);
      if item.kind.FunctionCall? {
        var r := Ingest(cfg, bound, item, rid, done);
        var u := UpdateOf(item, rid, done);
        UpsertKeepsCalls(cfg, bound, next, u, r.value, seen, closed);
        UpsertKeepsBudget(cfg, bound, next, u, r.value);
        UpsertFrame(bound, next, u, r.value);
        NotesWithItem(s, next, key, item, seen);
      } else {
        assert ItemMentions(rid, item, done) == {};
        assert seen + {} == seen;
        NotesWithItem(s, next, key, item, seen);
      }
    }
  }

  lemma UpsertFrame(s: Ledger, next: Ledger, u: Update, i: nat)
    requires Upserted(s, next, u, i)
    ensures next == s.(pending := next.pending, nextOrder := next.nextOrder, pendingBytes := next.pendingBytes)
  {
  }

  lemma NotesWithItem(s: Ledger, next: Ledger, key: ItemKey, item: Item, seen: set<Update>)
    requires NotesKept(s, seen) && next.outputItems == s.outputItems[key := item] && next.retired == s.retired
    requires next.argumentDone == s.argumentDone && next.rejected == s.rejected
    requires next.authorizations == s.authorizations
    ensures NotesKept(next, seen + ItemMentions(key.rid, item, key.done))
  {
  }

  lemma NotesWithArguments(s: Ledger, next: Ledger, w: Wire, seen: set<Update>)
    requires w.ArgumentsDone? && NotesKept(s, seen) && next.outputItems == s.outputItems && next.retired == s.retired
    requires next.argumentDone == s.argumentDone[w.callId := Signature(w.rid, w.itemId, w.name, w.args)]
    requires next.rejected == s.rejected && next.authorizations == s.authorizations
    ensures NotesKept(next, seen + {ArgumentsUpdate(w)})
  {
  }

  lemma CompleteArgumentsKeeps(cfg: Config, s: Ledger, w: Wire, seen: set<Update>, closed: set<Id>)
    requires w.ArgumentsDone? && w.rid !in closed && Kept(cfg, s, seen, closed) && CompleteArguments(cfg, s, w).Done?
    ensures Kept(cfg, CompleteArguments(cfg, s, w).ledger, seen + Mentions(w), closed)
  {
    hide CallsKept, WithinBudget, Upserted, Charged, Upsert;
    var u := ArgumentsUpdate(w);
    var next := CompleteArguments(cfg, s, w).ledger;
    if w.callId in s.argumentDone {
      assert u in seen;
      SeenGrows(cfg, s, seen, {u}, closed);
    } else {
      hide CompleteArguments, NotesKept;
      var noted := s.(argumentDone := s.argumentDone[w.callId := Signature(w.rid, w.itemId, w.name, w.args)]);
      var i := CompletedCall(cfg, s, w, noted, u);
      CallsFrame(cfg, s, noted, seen, closed);
      UpsertKeepsCalls(cfg, noted, next, u, i, seen, closed);
      UpsertKeepsBudget(cfg, noted, next, u, i);
      UpsertFrame(noted, next, u, i);
      NotesWithArguments(s, next, w, seen);
    }
  }

  lemma CompletedCall(cfg: Config, s: Ledger, w: Wire, noted: Ledger, u: Update) returns (i: nat)
    requires w.ArgumentsDone? && CompleteArguments(cfg, s, w).Done? && w.callId !in s.argumentDone
    requires noted == s.(argumentDone := s.argumentDone[w.callId := Signature(w.rid, w.itemId, w.name, w.args)])
    requires u == ArgumentsUpdate(w)
    ensures var next := CompleteArguments(cfg, s, w).ledger;
            Upserted(noted, next, u, i) && Charged(cfg, noted, next, i)
  {
    hide Upsert;
    var r := Upsert(cfg, noted, u);
    i := r.value;
  }

  lemma CancelArgumentsKeeps(cfg: Config, s: Ledger, rid: Id, callId: Id, seen: set<Update>, closed: set<Id>)
    requires rid !in closed && Kept(cfg, s, seen, closed) && CancelArguments(cfg, s, rid, callId).Done?
    ensures Kept(cfg, CancelArguments(cfg, s, rid, callId).ledger, seen + {CancelUpdate(callId, rid)}, closed)
  {
    hide Kept, Upserted, Charged, Upsert, CancelArguments;
    var i := CancelledCall(cfg, s, rid, callId);
    UpsertKeeps(cfg, s, CancelArguments(cfg, s, rid, callId).ledger, CancelUpdate(callId, rid), i, seen, closed);
  }

  lemma CancelledCall(cfg: Config, s: Ledger, rid: Id, callId: Id) returns (i: nat)
    requires CancelArguments(cfg, s, rid, callId).Done?
    ensures var next := CancelArguments(cfg, s, rid, callId).ledger;
            Upserted(s, next, CancelUpdate(callId, rid), i) && Charged(cfg, s, next, i)
  {
    hide Upsert;
    i := Upsert(cfg, s, CancelUpdate(callId, rid)).value;
  }

  lemma CancelResponseKeeps(cfg: Config, s: Ledger, rid: Id, seen: set<Update>)
    requires Kept(cfg, s, seen, s.terminals.Keys) && CancelResponse(cfg, s, rid).Done?
    ensures var next := CancelResponse(cfg, s, rid).ledger; Kept(cfg, next, seen, next.terminals.Keys)
  {
    hide CallsKept, WithinBudget, NotesKept;
    if rid !in s.terminals {
      var marked := s.(terminals := s.terminals[rid := CancelledMark]);
      KeptFrame(cfg, s, marked, seen, s.terminals.Keys);
      RetireKeeps(cfg, marked, rid, seen, s.terminals.Keys);
      assert marked.terminals.Keys == s.terminals.Keys + {rid};
    }
  }

  // The terminal event

  ghost predicate InOutput(said: set<Update>, callId: Id, itemId: Option<Id>) {
    exists u :: u in said && u.callId == callId && u.itemId == itemId
  }

  /** What a scan that met no fault has established. */
  ghost predicate ScanKept(cfg: Config, start: Ledger, scan: Scan, seen: set<Update>, said: set<Update>,
                           closed: set<Id>)
  {
    && Kept(cfg, scan.ledger, seen + said, closed)
    && scan.ledger.terminals == start.terminals && scan.ledger.starts == start.starts
    && scan.ledger.retired == start.retired && scan.ledger.authorizations == start.authorizations
    && scan.ledger.sessionReady == start.sessionReady
    && !scan.invalid
    && forall c <- scan.members :: InOutput(said, c, scan.members[c])
  }

  lemma ScannedFunction(cfg: Config, scan: Scan, item: Item, rid: Id)
    requires item.Item? && !ScanFunction(cfg, scan, item, rid).ledger.poisoned
    ensures item.id.Some? && Ingest(cfg, scan.ledger, item, rid, true).Done? && !scan.ledger.poisoned
    ensures ScanFunction(cfg, scan, item, rid) ==
            scan.(ledger := Ingest(cfg, scan.ledger, item, rid, true).ledger,
                  members := scan.members[item.callId.value := item.id])
  {
    hide Ingest, Charged;
  }

  /** A faultless step of the scan: identities are bound, and a function item is recorded under its item id. */
  lemma ScannedItem(cfg: Config, scan: Scan, item: Item, rid: Id)
    requires !ScanItem(cfg, scan, item, rid).ledger.poisoned
    ensures item.Item? && BindTerminal(scan.ledger, item, rid).Done? && !scan.ledger.poisoned
    ensures var next, bound := ScanItem(cfg, scan, item, rid), BindTerminal(scan.ledger, item, rid).ledger;
            && next.invalid == scan.invalid
            && (!item.kind.FunctionCall? ==> next.ledger == bound && next.members == scan.members)
            && (item.kind.FunctionCall? ==>
                  && item.id.Some? && Ingest(cfg, bound, item, rid, true).Done?
                  && next.ledger == Ingest(cfg, bound, item, rid, true).ledger
                  && next.members == scan.members[item.callId.value := item.id])
  {
    hide Ingest, BindTerminal, ScanFunction;
    var seen := if item.Item? && item.id.Some? then scan.(itemIds := scan.itemIds + {item.id.value}) else scan;
    if item.Item? && item.kind.FunctionCall? && BindTerminal(scan.ledger, item, rid).Done? {
      var bound := seen.(ledger := BindTerminal(scan.ledger, item, rid).ledger);
      if !ScanFunction(cfg, bound, item, rid).ledger.poisoned {
        ScannedFunction(cfg, bound, item, rid);
      }
    }
  }

  lemma ScanFunctionItem(cfg: Config, start: Ledger, scan: Scan, item: Item, rid: Id, seen: set<Update>,
                         said: set<Update>, closed: set<Id>)
    requires ScanKept(cfg, start, scan, seen, said, closed) && rid !in closed
    requires item.Item? && item.kind.FunctionCall? && !ScanItem(cfg, scan, item, rid).ledger.poisoned
    ensures ScanKept(cfg, start, ScanItem(cfg, scan, item, rid), seen, said + ItemMentions(rid, item, true), closed)
  {
    hide Kept, ScanItem, Ingest, Upserted, Charged, BindTerminal;
    ScannedItem(cfg, scan, item, rid);
    var next := ScanItem(cfg, scan, item, rid);
    var bound := BindTerminal(scan.ledger, item, rid).ledger;
    KeptFrame(cfg, scan.ledger, bound, seen + said, closed);
    var r := Ingest(cfg, bound, item, rid, true);
    var u := UpdateOf(item, rid, true);
    UpsertKeeps(cfg, bound, next.ledger, u, r.value, seen + said, closed);
    UpsertFrame(bound, next.ledger, u, r.value);
    assert seen + said + {u} == seen + (said + {u});
    forall c <- next.members ensures InOutput(said + {u}, c, next.members[c]) {
      if c == u.callId {
        assert u in said + {u};
      } else {
        assert InOutput(said, c, scan.members[c]);
        var v :| v in said && v.callId == c && v.itemId == scan.members[c];
        assert v in said + {u};
      }
    }
  }

  lemma ScanItemKeeps(cfg: Config, start: Ledger, scan: Scan, item: Item, rid: Id, seen: set<Update>,
                      said: set<Update>, closed: set<Id>)
    requires scan.ledger.poisoned || ScanKept(cfg, start, scan, seen, said, closed)
    requires rid !in closed
    ensures var next := ScanItem(cfg, scan, item, rid);
            next.ledger.poisoned || ScanKept(cfg, start, next, seen, said + ItemMentions(rid, item, true), closed)
    ensures scan.ledger.poisoned ==> ScanItem(cfg, scan, item, rid).ledger.poisoned
  {
    hide Kept, ScanItem, Ingest, BindTerminal;
    if !ScanItem(cfg, scan, item, rid).ledger.poisoned {
      ScannedItem(cfg, scan, item, rid);
      if item.kind.FunctionCall? {
        ScanFunctionItem(cfg, start, scan, item, rid, seen, said, closed);
      } else {
        KeptFrame(cfg, scan.ledger, BindTerminal(scan.ledger, item, rid).ledger, seen + said, closed);
        assert said + {} == said;
      }
    }
  }

  lemma {:induction false} ScanItemsKeeps(cfg: Config, start: Ledger, output: seq<Item>, rid: Id,
                                          seen: set<Update>, closed: set<Id>)
    requires Kept(cfg, start, seen, closed) && rid !in closed
    ensures var scan := ScanItems(cfg, Scan(start, {}, map[], false, []), output, rid);
            scan.ledger.poisoned || ScanKept(cfg, start, scan, seen, OutputMentions(rid, output), closed)
    ensures start.poisoned ==> ScanItems(cfg, Scan(start, {}, map[], false, []), output, rid).ledger.poisoned
  {
    hide Kept, ScanItem;
    if output == [] {
      assert seen + {} == seen;
    } else {
      var n := |output| - 1;
      ScanItemsKeeps(cfg, start, output[..n], rid, seen, closed);
      ScanItemKeeps(cfg, start, ScanItems(cfg, Scan(start, {}, map[], false, []), output[..n], rid), output[n], rid,
                    seen, OutputMentions(rid, output[..n]), closed);
    }
  }

  lemma ScanKeepsCalls(cfg: Config, start: Ledger, scan: Scan, seen: set<Update>, said: set<Update>, closed: set<Id>)
    requires ScanKept(cfg, start, scan, seen, said, closed)
    ensures CallsKept(cfg, scan.ledger, seen + said, closed) && !scan.invalid
  {
    hide CallsKept, WithinBudget, NotesKept;
  }
}
