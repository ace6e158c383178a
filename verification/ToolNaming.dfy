/** The calls of a response in the order in which frames first named them, and the pending calls that follow it. */
module ToolNaming {
  import opened Common
  import opened ToolLedger
  import opened ToolRelease
  import opened ToolRuns
  import opened ToolTerminal

  // What the inputs name

  function Name(names: seq<Id>, c: Id): seq<Id> {
    if c in names then names else names + [c]
  }

  function CallOfItem(item: Item): Option<Id> {
    if item.Item? && item.kind.FunctionCall? then item.callId else None
  }

  function NameSome(names: seq<Id>, c: Option<Id>): seq<Id> {
    if c.Some? then Name(names, c.value) else names
  }

  function NameItems(names: seq<Id>, items: seq<Item>): seq<Id> {
    if items == [] then names
    else NameSome(NameItems(names, items[..|items| - 1]), CallOfItem(items[|items| - 1]))
  }

  /** The call a frame names for a response while the response is open. */
  function NamesCall(w: Wire, rid: Id): Option<Id> {
    match w
    case ItemEvent(r, item, _) => if r == rid then CallOfItem(item) else None
    case ArgumentsDone(r, _, callId, _, _) => if r == rid then Some(callId) else None
    case ArgumentsCancelled(r, callId) => if r == rid then Some(callId) else None
    case _ => None
  }

  /** The calls the frames named for a response, each once, in order of first mention. */
  function Naming(inputs: seq<Input>, rid: Id): seq<Id> {
    if inputs == [] then []
    else
      var n := |inputs| - 1;
      NameSome(Naming(inputs[..n], rid), if inputs[n].Frame? then NamesCall(inputs[n].wire, rid) else None)
  }

  lemma NameKeeps(names: seq<Id>, c: Option<Id>)
    ensures Distinct(names) ==> Distinct(NameSome(names, c))
    ensures names <= NameSome(names, c)
    ensures forall x :: x in NameSome(names, c) <==> x in names || c == Some(x)
  {
  }

  lemma {:induction false} NameItemsKeeps(names: seq<Id>, items: seq<Item>)
    requires Distinct(names)
    ensures Distinct(NameItems(names, items)) && names <= NameItems(names, items)
    ensures forall x :: x in NameItems(names, items) <==> x in names || x in Calls(items)
  {
    hide Distinct, NameSome;
    if items != [] {
      var n := |items| - 1;
      NameItemsKeeps(names, items[..n]);
      NameKeeps(NameItems(names, items[..n]), CallOfItem(items[n]));
    }
  }

  lemma NamedByFrame(w: Wire, rid: Id, c: Id)
    requires rid !in Ends(w)
    ensures NamesCall(w, rid) == Some(c) <==> exists u :: u in Mentions(w) && u.rid == rid && u.callId == c
  {
    match w
    case ItemEvent(r, item, done) =>
      if item.Item? && item.callId.Some? {
        assert UpdateOf(item, r, done).rid == r;
      }
    case ArgumentsDone(_, _, _, _, _) =>
      assert ArgumentsUpdate(w) in Mentions(w);
    case ArgumentsCancelled(r, callId) =>
      assert CancelUpdate(callId, r) in Mentions(w);
    case ResponseDone(_, _, _, _) =>
    case _ =>
  }

  /** For a response no input closed, the naming lists each call that any frame named for it, once. */
  lemma {:induction false} NamingIs(cfg: Config, size: nat, inputs: seq<Input>, rid: Id)
    requires rid !in ClosedBy(cfg, size, inputs)
    ensures Distinct(Naming(inputs, rid))
    ensures forall c :: c in Naming(inputs, rid) <==> exists u :: u in SaidBy(inputs) && u.rid == rid && u.callId == c
  {
    if inputs != [] {
      var n := |inputs| - 1;
      var before, input := inputs[..n], inputs[n];
      NamingIs(cfg, size, before, rid);
      var c := if input.Frame? then NamesCall(input.wire, rid) else None;
      hide Distinct, NameSome, NamesCall, Mentions, After;
      NameKeeps(Naming(before, rid), c);
      forall x: Id ensures c == Some(x) <==> exists u :: u in Said(input) && u.rid == rid && u.callId == x {
        if input.Frame? {
          NamedByFrame(input.wire, rid, x);
        }
      }
    }
  }

  // The pending calls of a response

  function Names(pending: seq<PendingCall>, rid: Id): seq<Id> {
    CallIds(CallsOf(pending, rid))
  }

  lemma NamesSnoc(pending: seq<PendingCall>, p: PendingCall, rid: Id)
    ensures Names(pending + [p], rid) == Names(pending, rid) + if p.rid == rid then [p.callId] else []
  {
    assert (pending + [p])[..|pending|] == pending;
  }

  lemma NamesIn(pending: seq<PendingCall>, rid: Id, c: Id)
    ensures c in Names(pending, rid) <==> exists p :: p in pending && p.rid == rid && p.callId == c
  {
    hide CallsOf;
    var calls := CallsOf(pending, rid);
    if c in Names(pending, rid) {
      var i :| 0 <= i < |calls| && Names(pending, rid)[i] == c;
      assert calls[i] in calls;
    }
    if p :| p in pending && p.rid == rid && p.callId == c {
      assert p in calls;
      var i :| 0 <= i < |calls| && calls[i] == p;
      assert Names(pending, rid)[i] == c;
    }
  }

  /** The same calls are pending for the same responses, whatever more is known of them. */
  ghost predicate SameNamed(a: seq<PendingCall>, b: seq<PendingCall>) {
    |a| == |b| && forall k :: 0 <= k < |a| ==> a[k].callId == b[k].callId && a[k].rid == b[k].rid
  }

  lemma {:induction false} NamesSame(a: seq<PendingCall>, b: seq<PendingCall>, rid: Id)
    requires SameNamed(a, b)
    ensures Names(a, rid) == Names(b, rid)
    decreases |a|
  {
    hide CallsOf;
    if a != [] {
      var n := |a| - 1;
      NamesSame(a[..n], b[..n], rid);
      NamesSnoc(a[..n], a[n], rid);
      NamesSnoc(b[..n], b[n], rid);
      assert a == a[..n] + [a[n]] && b == b[..n] + [b[n]];
    } else {
      assert a == b;
    }
  }

  lemma {:induction false} NamesOthers(pending: seq<PendingCall>, gone: Id, rid: Id)
    requires gone != rid
    ensures Names(Others(pending, gone), rid) == Names(pending, rid)
  {
    if pending != [] {
      var n := |pending| - 1;
      var last := pending[n];
      NamesOthers(pending[..n], gone, rid);
      assert pending == pending[..n] + [last];
      assert Others(pending, gone) == Others(pending[..n], gone) + if last.rid != gone then [last] else [];
      hide CallsOf, Others;
      NamesSnoc(pending[..n], last, rid);
      if last.rid != gone {
        NamesSnoc(Others(pending[..n], gone), last, rid);
      } else {
        assert Others(pending, gone) == Others(pending[..n], gone);
      }
    }
  }

  lemma UpsertNames(s: Ledger, next: Ledger, u: Update, i: nat, rid: Id)
    requires Upserted(s, next, u, i)
    ensures Names(next.pending, rid) == NameSome(Names(s.pending, rid), if u.rid == rid then Some(u.callId) else None)
  {
    hide CallsOf;
    NamesIn(s.pending, rid, u.callId);
    if i < |s.pending| {
      assert SameNamed(s.pending, next.pending);
      NamesSame(s.pending, next.pending, rid);
      assert s.pending[i] in s.pending;
    } else {
      NamesSnoc(s.pending, next.pending[i], rid);
      forall p <- s.pending ensures p.callId != u.callId {
        var k :| 0 <= k < |s.pending| && s.pending[k] == p;
      }
    }
  }

  /** A call that some frame named for an open response is among its pending calls. */
  lemma HeardIsNamed(cfg: Config, s: Ledger, seen: set<Update>, closed: set<Id>, u: Update)
    requires CallsKept(cfg, s, seen, closed) && u in seen && u.rid !in closed
    ensures u.callId in Names(s.pending, u.rid)
  {
    hide Live, Ordered;
    assert Held(s.pending, u);
    var k :| 0 <= k < |s.pending| && Carries(s.pending[k], u);
    assert s.pending[k] in s.pending;
    NamesIn(s.pending, u.rid, u.callId);
  }

  // One frame

  /** What a frame that closes nothing does to the pending calls of a response. */
  ghost predicate NamedNow(s: Ledger, next: Ledger, w: Wire, rid: Id) {
    Names(next.pending, rid) == NameSome(Names(s.pending, rid), NamesCall(w, rid))
  }

  lemma AlreadyNamed(cfg: Config, s: Ledger, seen: set<Update>, closed: set<Id>, w: Wire, rid: Id)
    requires CallsKept(cfg, s, seen, closed) && rid !in closed && rid !in Ends(w) && Mentions(w) <= seen
    ensures NamedNow(s, s, w, rid)
  {
    hide CallsKept, Names, Mentions, NamesCall;
    var c := NamesCall(w, rid);
    if c.Some? {
      NamedByFrame(w, rid, c.value);
      var u :| u in Mentions(w) && u.rid == rid && u.callId == c.value;
      HeardIsNamed(cfg, s, seen, closed, u);
    }
  }

  lemma NotedItem(cfg: Config, s: Ledger, rid: Id, item: Item, done: bool)
    requires NoteItem(cfg, s, rid, item, done).Done? && ItemKey(done, rid, item.id.value) !in s.outputItems
    ensures var next := NoteItem(cfg, s, rid, item, done).ledger;
            if CallOfItem(item).Some?
            then exists b: Ledger, i: nat :: b.pending == s.pending && Upserted(b, next, UpdateOf(item, rid, done), i)
            else next.pending == s.pending
  {
    hide Quiet, Charged, Extended, Admitted;
    var key := ItemKey(done, rid, item.id.value);
    var bound := BindIdentity(s.(outputItems := s.outputItems[key := item]), item.id.value, item, rid);
    hide BindIdentity;
    if item.kind.FunctionCall? {
      var r := Ingest(cfg, bound.ledger, item, rid, done);
      hide Ingest;
      assert Upserted(bound.ledger, r.ledger, UpdateOf(item, rid, done), r.value);
    }
  }

  lemma ItemNamesAgain(cfg: Config, s: Ledger, w: Wire, seen: set<Update>, r: Id)
    requires w.ItemEvent? && Kept(cfg, s, seen, s.terminals.Keys) && w.item.Item? && w.item.id.Some?
    requires r !in s.terminals
    requires var key := ItemKey(w.done, w.rid, w.item.id.value); key in s.outputItems && s.outputItems[key] == w.item
    ensures NamedNow(s, s, w, r)
  {
    hide Names, CallsKept, WithinBudget, ItemMentions, NamedNow;
    AlreadyNamed(cfg, s, seen, s.terminals.Keys, w, r);
  }

  lemma ItemNames(cfg: Config, s: Ledger, w: Wire, seen: set<Update>, r: Id)
    requires w.ItemEvent? && Kept(cfg, s, seen, s.terminals.Keys) && Handle(cfg, s, w).Done?
    requires r !in s.terminals
    ensures NamedNow(s, Handle(cfg, s, w).ledger, w, r)
  {
    assert Handle(cfg, s, w) == NoteItem(cfg, s, w.rid, w.item, w.done);
    hide Handle, Names, Kept, NoteItem, Upserted, Quiet;
    var key := ItemKey(w.done, w.rid, w.item.id.value);
    if key in s.outputItems {
      NotedAgain(cfg, s, w, key);
      ItemNamesAgain(cfg, s, w, seen, r);
    } else {
      NotedItem(cfg, s, w.rid, w.item, w.done);
      var next := NoteItem(cfg, s, w.rid, w.item, w.done).ledger;
      if CallOfItem(w.item).Some? {
        var b: Ledger, i: nat :| b.pending == s.pending && Upserted(b, next, UpdateOf(w.item, w.rid, w.done), i);
        UpsertNames(b, next, UpdateOf(w.item, w.rid, w.done), i, r);
      }
    }
  }

  lemma NotedAgain(cfg: Config, s: Ledger, w: Wire, key: ItemKey)
    requires w.ItemEvent? && w.item.Item? && w.item.id.Some? && key == ItemKey(w.done, w.rid, w.item.id.value)
    requires NoteItem(cfg, s, w.rid, w.item, w.done).Done? && key in s.outputItems
    ensures NoteItem(cfg, s, w.rid, w.item, w.done).ledger == s && s.outputItems[key] == w.item
  {
    hide Ingest, BindIdentity;
  }

  lemma ArgumentsNames(cfg: Config, s: Ledger, w: Wire, seen: set<Update>, r: Id)
    requires w.ArgumentsDone? && Kept(cfg, s, seen, s.terminals.Keys) && Handle(cfg, s, w).Done?
    requires r !in s.terminals
    ensures NamedNow(s, Handle(cfg, s, w).ledger, w, r)
  {
    assert Handle(cfg, s, w) == CompleteArguments(cfg, s, w);
    hide Handle, Names, Upserted, Charged, Upsert, Quiet;
    var signature := Signature(w.rid, w.itemId, w.name, w.args);
    if w.callId in s.argumentDone {
      assert s.argumentDone[w.callId] == signature;
      assert ArgumentsUpdate(w) in seen;
      AlreadyNamed(cfg, s, seen, s.terminals.Keys, w, r);
    } else {
      hide Kept;
      var noted, u := s.(argumentDone := s.argumentDone[w.callId := signature]), ArgumentsUpdate(w);
      var i := CompletedCall(cfg, s, w, noted, u);
      UpsertNames(noted, CompleteArguments(cfg, s, w).ledger, u, i, r);
    }
  }

  lemma CancelNames(cfg: Config, s: Ledger, w: Wire, r: Id)
    requires w.ArgumentsCancelled? && Handle(cfg, s, w).Done?
    ensures NamedNow(s, Handle(cfg, s, w).ledger, w, r)
  {
    assert Handle(cfg, s, w) == CancelArguments(cfg, s, w.rid, w.callId);
    hide Handle, Names, Upserted, Charged, CancelArguments;
    var i := CancelledCall(cfg, s, w.rid, w.callId);
    UpsertNames(s, CancelArguments(cfg, s, w.rid, w.callId).ledger, CancelUpdate(w.callId, w.rid), i, r);
  }

  // The pass over the items of a completed response

  /** What one item may do to the pending calls: nothing, or name its own call for the response. */
  ghost predicate NamesOne(s: Ledger, next: Ledger, rid: Id, c: Option<Id>, must: bool) {
    && next.retired == s.retired
    && (forall r: Id | r != rid :: Names(next.pending, r) == Names(s.pending, r))
    && (must ==> Names(next.pending, rid) == NameSome(Names(s.pending, rid), c))
    && Names(next.pending, rid) in {Names(s.pending, rid), NameSome(Names(s.pending, rid), c)}
    && (Unretired(s) ==> Unretired(next))
  }

  ghost predicate Unretired(s: Ledger) {
    forall p <- s.pending :: p.callId !in s.retired
  }

  lemma SameNames(s: Ledger, next: Ledger, rid: Id, c: Option<Id>)
    requires SameCallsNamed(s, next)
    ensures NamesOne(s, next, rid, c, false)
  {
    hide Names;
    forall r: Id ensures Names(next.pending, r) == Names(s.pending, r) {
      NamesSame(s.pending, next.pending, r);
    }
    if Unretired(s) {
      forall p <- next.pending ensures p.callId !in next.retired {
        var k :| 0 <= k < |next.pending| && next.pending[k] == p;
        assert s.pending[k] in s.pending;
      }
    }
  }

  lemma UpsertNamesOne(s: Ledger, next: Ledger, u: Update, i: nat)
    requires Upserted(s, next, u, i)
    ensures NamesOne(s, next, u.rid, Some(u.callId), true)
  {
    forall r: Id ensures Names(next.pending, r) ==
                         NameSome(Names(s.pending, r), if u.rid == r then Some(u.callId) else None)
    {
      UpsertNames(s, next, u, i, r);
    }
    hide Names;
    if Unretired(s) {
      forall p <- next.pending ensures p.callId !in next.retired {
        var k :| 0 <= k < |next.pending| && next.pending[k] == p;
        if k < |s.pending| {
          assert s.pending[k] in s.pending;
        }
      }
    }
  }

  /** The same calls are pending and retired. */
  ghost predicate SameCallsNamed(s: Ledger, next: Ledger) {
    next.retired == s.retired && SameNamed(s.pending, next.pending)
  }

  lemma MarkedSame(pending: seq<PendingCall>, i: nat)
    requires i < |pending|
    ensures SameNamed(pending, pending[i := pending[i].(conflicted := true)])
  {
  }

  lemma NothingMarked(pending: seq<PendingCall>)
    ensures SameNamed(pending, pending)
  {
  }

  lemma AdmitThrown(cfg: Config, s: Ledger, u: Update)
    requires AdmitCall(cfg, s, u).Thrown?
    ensures SameCallsNamed(s, AdmitCall(cfg, s, u).ledger)
  {
    NothingMarked(s.pending);
    hide CallsOf, SameNamed;
  }

  lemma ExtendThrown(cfg: Config, s: Ledger, i: nat, u: Update)
    requires i < |s.pending| && ExtendCall(cfg, s, i, u).Thrown?
    ensures SameCallsNamed(s, ExtendCall(cfg, s, i, u).ledger)
  {
    NothingMarked(s.pending);
    MarkedSame(s.pending, i);
    hide SameNamed;
  }

  lemma UpsertThrown(cfg: Config, s: Ledger, u: Update)
    requires Upsert(cfg, s, u).Thrown?
    ensures SameCallsNamed(s, Upsert(cfg, s, u).ledger)
  {
    hide Find, Upserted, Charged, AdmitCall, ExtendCall, SameCallsNamed;
    AlwaysSame(s);
    if u.callId !in s.rejected && u.callId !in s.retired {
      var found := Find(s.pending, u.callId);
      if found.None? {
        AdmitThrown(cfg, s, u);
      } else {
        ExtendThrown(cfg, s, found.value, u);
      }
    }
  }

  lemma RejectSame(s: Ledger, c: Id, rid: Id)
    ensures SameCallsNamed(s, Reject(s, c, rid))
  {
  }

  lemma IngestThrown(cfg: Config, s: Ledger, item: Item, rid: Id)
    requires item.Item? && Ingest(cfg, s, item, rid, true).Thrown?
    ensures SameCallsNamed(s, Ingest(cfg, s, item, rid, true).ledger)
  {
    hide CallsOf, Find, Upserted, Charged, Upsert, Reject;
    if item.callId.Some? {
      RejectSame(s, item.callId.value, rid);
      var r := Upsert(cfg, s, UpdateOf(item, rid, true));
      if r.Thrown? {
        UpsertThrown(cfg, s, UpdateOf(item, rid, true));
        RejectSame(r.ledger, item.callId.value, rid);
      }
    }
  }

  lemma ConflictSame(s: Ledger, c: Id)
    ensures SameCallsNamed(s, Conflict(s, c))
  {
    NothingMarked(s.pending);
    hide SameNamed;
    var found := Find(s.pending, c);
    hide Find;
    if found.Some? {
      MarkedSame(s.pending, found.value);
    }
  }

  lemma ScanFunctionNames(cfg: Config, scan: Scan, item: Item, rid: Id)
    requires item.Item?
    ensures var next := ScanFunction(cfg, scan, item, rid);
            NamesOne(scan.ledger, next.ledger, rid, item.callId, next.errors == scan.errors)
  {
    hide NamesOne, SameCallsNamed, Ingest, Conflict, Upserted, Charged;
    var r := if item.id.None? then Thrown(scan.ledger) else Ingest(cfg, scan.ledger, item, rid, true);
    if r.Thrown? {
      AlwaysSame(scan.ledger);
      if item.id.Some? {
        IngestThrown(cfg, scan.ledger, item, rid);
      }
      var l := if item.callId.Some? then Conflict(r.ledger, item.callId.value) else r.ledger;
      if item.callId.Some? {
        ConflictSame(r.ledger, item.callId.value);
        SameTwice(scan.ledger, r.ledger, l);
      }
      PoisonSame(scan.ledger, l);
      SameNames(scan.ledger, l.(poisoned := true), rid, item.callId);
    } else {
      UpsertNamesOne(scan.ledger, r.ledger, UpdateOf(item, rid, true), r.value);
    }
  }

  lemma AlwaysSame(s: Ledger)
    ensures SameCallsNamed(s, s)
  {
  }

  lemma SameTwice(a: Ledger, b: Ledger, c: Ledger)
    requires SameCallsNamed(a, b) && SameCallsNamed(b, c)
    ensures SameCallsNamed(a, c)
  {
  }

  lemma PoisonSame(a: Ledger, b: Ledger)
    requires SameCallsNamed(a, b)
    ensures SameCallsNamed(a, b.(poisoned := true))
  {
  }

  lemma BoundSame(s: Ledger, item: Item, rid: Id)
    requires item.Item?
    ensures var b := BindTerminal(s, item, rid).ledger; b.pending == s.pending && b.retired == s.retired
  {
  }

  lemma ScanItemNames(cfg: Config, scan: Scan, item: Item, rid: Id)
    ensures var next := ScanItem(cfg, scan, item, rid);
            NamesOne(scan.ledger, next.ledger, rid, CallOfItem(item), next.errors == scan.errors)
  {
    hide NamesOne, SameCallsNamed, ScanFunction, BindTerminal, Unretired, Names;
    AlwaysSame(scan.ledger);
    PoisonSame(scan.ledger, scan.ledger);
    SameNames(scan.ledger, scan.ledger.(poisoned := true), rid, CallOfItem(item));
    if item.Item? {
      var seen := if item.id.Some? then scan.(itemIds := scan.itemIds + {item.id.value}) else scan;
      var bound := BindTerminal(seen.ledger, item, rid).ledger;
      BoundSame(seen.ledger, item, rid);
      NamesFrame(scan.ledger, bound, rid, CallOfItem(item), false);
      NamesFrame(scan.ledger, bound.(poisoned := true), rid, CallOfItem(item), false);
      if !item.kind.FunctionCall? {
        NamesFrame(scan.ledger, bound, rid, CallOfItem(item), true);
      } else {
        ScanFunctionNames(cfg, seen.(ledger := bound), item, rid);
        var next := ScanFunction(cfg, seen.(ledger := bound), item, rid);
        NamesFrom(scan.ledger, bound, next.ledger, rid, CallOfItem(item), next.errors == scan.errors);
      }
    }
  }

  lemma NamesFrame(s: Ledger, b: Ledger, rid: Id, c: Option<Id>, must: bool)
    requires b.pending == s.pending && b.retired == s.retired && (must ==> c.None?)
    ensures NamesOne(s, b, rid, c, must)
  {
    hide Names;
  }

  lemma NamesFrom(s: Ledger, b: Ledger, next: Ledger, rid: Id, c: Option<Id>, must: bool)
    requires b.pending == s.pending && b.retired == s.retired && NamesOne(b, next, rid, c, must)
    ensures NamesOne(s, next, rid, c, must)
  {
    hide Names;
  }

  /** The names a pass leaves: those from before, each once, then only calls of the items. */
  ghost predicate NamedWithin(names: seq<Id>, items: seq<Item>, after: seq<Id>) {
    names <= after && (Distinct(names) ==> Distinct(after)) && forall c <- after :: c in names || c in Calls(items)
  }

  lemma {:induction false} PassNames(cfg: Config, scan: Scan, items: seq<Item>, rid: Id)
    ensures var s, next := scan.ledger, ScanItems(cfg, scan, items, rid).ledger;
            && next.retired == s.retired && (Unretired(s) ==> Unretired(next))
            && (forall r: Id | r != rid :: Names(next.pending, r) == Names(s.pending, r))
            && NamedWithin(Names(s.pending, rid), items, Names(next.pending, rid))
  {
    hide Names, Unretired, NamedWithin, ScanItem;
    if items == [] {
      NothingNamed(Names(scan.ledger.pending, rid));
    } else {
      var n := |items| - 1;
      PassNames(cfg, scan, items[..n], rid);
      var mid := ScanItems(cfg, scan, items[..n], rid);
      ScanItemNames(cfg, mid, items[n], rid);
      var next := ScanItem(cfg, mid, items[n], rid);
      OneMoreNamed(Names(scan.ledger.pending, rid), items, Names(mid.ledger.pending, rid),
                   Names(next.ledger.pending, rid));
    }
  }

  lemma NothingNamed(names: seq<Id>)
    ensures NamedWithin(names, [], names)
  {
  }

  lemma OneMoreNamed(names: seq<Id>, items: seq<Item>, mid: seq<Id>, after: seq<Id>)
    requires items != [] && NamedWithin(names, items[..|items| - 1], mid)
    requires after in {mid, NameSome(mid, CallOfItem(items[|items| - 1]))}
    ensures NamedWithin(names, items, after)
  {
    hide NameSome, Distinct;
    NameKeeps(mid, CallOfItem(items[|items| - 1]));
  }

  lemma {:induction false} PassGrows(cfg: Config, scan: Scan, items: seq<Item>, rid: Id, j: nat)
    requires j <= |items|
    ensures Names(ScanItems(cfg, scan, items[..j], rid).ledger.pending, rid) <=
            Names(ScanItems(cfg, scan, items, rid).ledger.pending, rid)
    decreases |items|
  {
    hide Names, ScanItem, Unretired, NameSome;
    if j == |items| {
      assert items[..j] == items;
    } else {
      var n := |items| - 1;
      PassGrows(cfg, scan, items[..n], rid, j);
      assert items[..n][..j] == items[..j];
      var mid := ScanItems(cfg, scan, items[..n], rid);
      ScanItemNames(cfg, mid, items[n], rid);
      NameKeeps(Names(mid.ledger.pending, rid), CallOfItem(items[n]));
    }
  }

  /** A pass without a fault names every call of the items. */
  lemma {:induction false} CleanPassNames(cfg: Config, scan: Scan, items: seq<Item>, rid: Id)
    requires scan.errors == [] && ScanItems(cfg, scan, items, rid).errors == []
    ensures Names(ScanItems(cfg, scan, items, rid).ledger.pending, rid) ==
            NameItems(Names(scan.ledger.pending, rid), items)
  {
    hide Names, ScanItem, Unretired, NameSome;
    if items != [] {
      var n := |items| - 1;
      var mid := ScanItems(cfg, scan, items[..n], rid);
      ErrorsStay(cfg, mid, items[n], rid);
      CleanPassNames(cfg, scan, items[..n], rid);
      ScanItemNames(cfg, mid, items[n], rid);
    }
  }
}
