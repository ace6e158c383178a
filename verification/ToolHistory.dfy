/** The adapter's ledgers as functions of the inputs: what an adapter that is not sealed knows is what it was told. */
module ToolHistory {
  import opened Common
  import opened ToolLedger
  import opened ToolRelease
  import opened ToolRuns
  import opened ToolTerminal

  /** What a frame said an item is. */
  datatype Shape = Shape(itemId: Id, identity: Identity)

  /** Which response a frame named an item for. */
  datatype Binding = Binding(itemId: Id, rid: Id)

  // What one frame says of items

  function ItemShape(rid: Id, item: Item): set<Shape> {
    if item.Item? && item.id.Some? then {Shape(item.id.value, Identity(rid, item.kind, item.callId, item.name))} else {}
  }

  function ItemBinding(rid: Id, item: Item): set<Binding> {
    if item.Item? && item.id.Some? then {Binding(item.id.value, rid)} else {}
  }

  function OutputShapes(rid: Id, items: seq<Item>): set<Shape> {
    if items == [] then {} else OutputShapes(rid, items[..|items| - 1]) + ItemShape(rid, items[|items| - 1])
  }

  function OutputBindings(rid: Id, items: seq<Item>): set<Binding> {
    if items == [] then {} else OutputBindings(rid, items[..|items| - 1]) + ItemBinding(rid, items[|items| - 1])
  }

  predicate Completes(w: Wire) {
    w.ResponseDone? && w.status == Completed && w.output.Some?
  }

  /** Items described by a frame; nothing more is taken from a response that is closed. */
  function ShapesIn(w: Wire, closed: set<Id>): set<Shape> {
    if w.ItemEvent? && w.rid !in closed then ItemShape(w.rid, w.item)
    else if Completes(w) && w.rid !in closed then OutputShapes(w.rid, w.output.value)
    else {}
  }

  function NamedBinding(w: Wire): set<Binding> {
    if ResponseOf(w).Some? && ItemOf(w).Some? then {Binding(ItemOf(w).value, ResponseOf(w).value)} else {}
  }

  function BindingsIn(w: Wire, closed: set<Id>): set<Binding> {
    NamedBinding(w) + if Completes(w) && w.rid !in closed then OutputBindings(w.rid, w.output.value) else {}
  }

  // What the ledgers keep of it

  ghost predicate Binds(responses: map<Id, Id>, bindings: set<Binding>) {
    && (forall b <- bindings :: b.itemId in responses && responses[b.itemId] == b.rid)
    && (forall id <- responses :: Binding(id, responses[id]) in bindings)
  }

  /** The identity carries what a frame said the item is. */
  predicate Describes(known: Identity, said: Identity) {
    && known.rid == said.rid && known.kind == said.kind
    && Agrees(known.callId, said.callId) && Agrees(known.name, said.name)
  }

  ghost predicate ShapeSourced(shapes: set<Shape>, id: Id, known: Identity) {
    && (exists h :: h in shapes && h.itemId == id)
    && (known.callId.Some? ==> exists h :: h in shapes && h.itemId == id && h.identity.callId == known.callId)
    && (known.name.Some? ==> exists h :: h in shapes && h.itemId == id && h.identity.name == known.name)
  }

  /** What an item is known as is the join of everything said of it. */
  ghost predicate Shapes(identities: map<Id, Identity>, shapes: set<Shape>) {
    && (forall h <- shapes :: h.itemId in identities && Describes(identities[h.itemId], h.identity))
    && (forall id <- identities :: ShapeSourced(shapes, id, identities[id]))
  }

  /** An item recorded as added or done was described when it was. */
  ghost predicate ItemsDescribed(outputItems: map<ItemKey, Item>, shapes: set<Shape>) {
    forall k <- outputItems :: ItemShape(k.rid, outputItems[k]) <= shapes
  }

  ghost predicate SessionKept(s: Ledger) {
    && s.preAckResponses == {} && s.preAckItems == {} && (s.starts != map[] ==> s.sessionReady)
    && s.terminals.Keys <= s.starts.Keys
  }

  // The past as the inputs tell it

  /** Everything the inputs so far said, started, closed, retired, bound and described. */
  datatype Past = Past(
    said: set<Update>, started: set<Id>, closed: set<Id>, retired: set<Id>, bindings: set<Binding>, shapes: set<Shape>)

  const NOTHING: Past := Past({}, {}, {}, {}, {}, {})

  /** The calls named for some of the responses. */
  function CallsNamed(said: set<Update>, rids: set<Id>): set<Id> {
    set u | u in said && u.rid in rids :: u.callId
  }

  function Told(p: Past, w: Wire): Past {
    var said := p.said + Mentions(w);
    Past(said, p.started + Starts(w), p.closed + Ends(w), p.retired + CallsNamed(said, Ends(w) - p.closed),
         p.bindings + BindingsIn(w, p.closed), p.shapes + ShapesIn(w, p.closed))
  }

  function Interrupted(p: Past, rid: Id): Past {
    p.(closed := p.closed + {rid}, retired := p.retired + CallsNamed(p.said, {rid} - p.closed))
  }

  ghost predicate Remembers(s: Ledger, p: Past) {
    && Binds(s.itemResponses, p.bindings) && Shapes(s.identities, p.shapes) && ItemsDescribed(s.outputItems, p.shapes)
    && s.retired.Keys == p.retired && s.starts.Keys == p.started && SessionKept(s)
  }

  // Items

  lemma BindingAdded(responses: map<Id, Id>, bindings: set<Binding>, id: Id, rid: Id)
    requires Binds(responses, bindings) && (id in responses ==> responses[id] == rid)
    ensures Binds(responses[id := rid], bindings + {Binding(id, rid)})
  {
  }

  /** Whether an item contradicts what it is known as is whether it contradicts something said of it. */
  lemma ShapeAgrees(identities: map<Id, Identity>, shapes: set<Shape>, id: Id, item: Item, rid: Id)
    requires Shapes(identities, shapes) && item.Item?
    ensures (id in identities ==> SameShape(identities[id], item, rid)) <==>
            forall h <- shapes :: h.itemId == id ==> SameShape(h.identity, item, rid)
  {
    if id in identities {
      var known := identities[id];
      assert ShapeSourced(shapes, id, known);
      if SameShape(known, item, rid) {
        forall h <- shapes | h.itemId == id ensures SameShape(h.identity, item, rid) {
          assert Describes(known, h.identity);
        }
      }
    }
  }

  lemma ShapeAdded(identities: map<Id, Identity>, shapes: set<Shape>, id: Id, item: Item, rid: Id, known: Identity)
    requires Shapes(identities, shapes) && item.Item? && item.id == Some(id)
    requires id in identities ==> SameShape(identities[id], item, rid)
    requires known == if id !in identities then Identity(rid, item.kind, item.callId, item.name)
                      else identities[id].(callId := Joined(identities[id].callId, item.callId),
                                           name := Joined(identities[id].name, item.name))
    ensures Shapes(identities[id := known], shapes + ItemShape(rid, item))
  {
    var next, more := identities[id := known], shapes + ItemShape(rid, item);
    var said := Shape(id, Identity(rid, item.kind, item.callId, item.name));
    assert said in more;
    forall h <- more ensures h.itemId in next && Describes(next[h.itemId], h.identity) {
      if h != said {
        assert h in shapes && Describes(identities[h.itemId], h.identity);
      }
    }
    forall other <- next ensures ShapeSourced(more, other, next[other]) {
      if other in identities {
        ShapeSourcedGrows(shapes, more, other, identities[other]);
      }
    }
  }

  lemma ShapeSourcedGrows(shapes: set<Shape>, more: set<Shape>, id: Id, known: Identity)
    requires ShapeSourced(shapes, id, known) && shapes <= more
    ensures ShapeSourced(more, id, known)
  {
    assert forall h :: h in shapes ==> h in more;
  }

  // The pass over a terminal's items

  /** Only calls, item responses and identities change in a pass. */
  ghost predicate PassFrame(s: Ledger, next: Ledger) {
    next == s.(itemResponses := next.itemResponses, identities := next.identities, pending := next.pending,
               nextOrder := next.nextOrder, pendingBytes := next.pendingBytes)
  }

  lemma SteppedLedger(cfg: Config, scan: Scan, item: Item, rid: Id)
    requires StepClean(cfg, scan.ledger, scan.itemIds, item, rid)
    ensures var b, next := Bound(scan.ledger, item, rid), Stepped(cfg, scan, item, rid).ledger;
            next == b.(pending := next.pending, nextOrder := next.nextOrder, pendingBytes := next.pendingBytes)
  {
    BoundCalls(cfg, scan.ledger, item, rid);
    FitsNeedsItem(cfg, scan.ledger, item, rid);
    hide Bound, Ingest, CallFits, CallRoom, NewBinding, NewIdentity, BindingAgrees, IdentityAgrees;
    if item.kind.FunctionCall? {
      var b := Bound(scan.ledger, item, rid);
      IngestIff(cfg, b, item, rid);
      IngestEffect(cfg, b, item, rid);
    }
  }

  lemma StepRemembers(cfg: Config, scan: Scan, item: Item, rid: Id, bindings: set<Binding>, shapes: set<Shape>)
    requires StepClean(cfg, scan.ledger, scan.itemIds, item, rid)
    requires Binds(scan.ledger.itemResponses, bindings) && Shapes(scan.ledger.identities, shapes)
    ensures var next := Stepped(cfg, scan, item, rid).ledger;
            && Binds(next.itemResponses, bindings + ItemBinding(rid, item))
            && Shapes(next.identities, shapes + ItemShape(rid, item))
            && PassFrame(scan.ledger, next)
  {
    SteppedLedger(cfg, scan, item, rid);
    BoundRemembers(scan.ledger, item, rid, bindings, shapes);
    BoundCalls(cfg, scan.ledger, item, rid);
    hide Bound, Binds, Shapes, ItemBinding, ItemShape, ItemFits, StepClean, CallFits, CallRoom, Stepped;
  }

  lemma BoundRemembers(l: Ledger, item: Item, rid: Id, bindings: set<Binding>, shapes: set<Shape>)
    requires item.Item? && Binds(l.itemResponses, bindings) && Shapes(l.identities, shapes)
    requires item.id.Some? ==> BindingAgrees(l, item.id.value, rid) && IdentityAgrees(l, item.id.value, item, rid)
    ensures var b := Bound(l, item, rid);
            && Binds(b.itemResponses, bindings + ItemBinding(rid, item))
            && Shapes(b.identities, shapes + ItemShape(rid, item))
  {
    if item.id.Some? {
      var id := item.id.value;
      hide Binds, Shapes;
      BindingAdded(l.itemResponses, bindings, id, rid);
      ShapeAdded(l.identities, shapes, id, item, rid, BoundIdentity(l, id, item, rid));
    } else {
      assert bindings + {} == bindings && shapes + {} == shapes;
    }
  }

  /** What a faultless pass leaves bound and described. */
  lemma {:induction false} PassRemembers(cfg: Config, s: Ledger, items: seq<Item>, rid: Id, bindings: set<Binding>,
                                         shapes: set<Shape>)
    requires ScanItems(cfg, Scan(s, {}, map[], false, []), items, rid).errors == []
    requires Binds(s.itemResponses, bindings) && Shapes(s.identities, shapes)
    ensures var next := ScanItems(cfg, Scan(s, {}, map[], false, []), items, rid).ledger;
            && Binds(next.itemResponses, bindings + OutputBindings(rid, items))
            && Shapes(next.identities, shapes + OutputShapes(rid, items))
            && PassFrame(s, next)
  {
    hide ScanItem, Binds, Shapes, StepClean, Stepped, ItemBinding, ItemShape;
    if items == [] {
      assert bindings + {} == bindings && shapes + {} == shapes;
    } else {
      var n := |items| - 1;
      var scan := ScanItems(cfg, Scan(s, {}, map[], false, []), items[..n], rid);
      ErrorsStay(cfg, scan, items[n], rid);
      PassRemembers(cfg, s, items[..n], rid, bindings, shapes);
      ScanItemIff(cfg, scan, items[n], rid);
      StepRemembers(cfg, scan, items[n], rid, bindings + OutputBindings(rid, items[..n]),
                    shapes + OutputShapes(rid, items[..n]));
      SetsRegroup(bindings, OutputBindings(rid, items[..n]), ItemBinding(rid, items[n]));
      SetsRegroup(shapes, OutputShapes(rid, items[..n]), ItemShape(rid, items[n]));
    }
  }

  lemma SetsRegroup<T>(a: set<T>, b: set<T>, c: set<T>)
    ensures a + b + c == a + (b + c)
  {
  }

  // Handlers

  /** The ledgers that history speaks of. */
  ghost predicate SameMemory(s: Ledger, t: Ledger) {
    && t.itemResponses == s.itemResponses && t.identities == s.identities && t.outputItems == s.outputItems
    && t.retired == s.retired && t.starts == s.starts && t.terminals == s.terminals
    && t.sessionReady == s.sessionReady && t.preAckResponses == s.preAckResponses && t.preAckItems == s.preAckItems
  }

  lemma RemembersFrame(s: Ledger, t: Ledger, p: Past)
    requires Remembers(s, p) && SameMemory(s, t)
    ensures Remembers(t, p)
  {
    hide Binds, Shapes, ItemsDescribed;
  }

  /** A past that says the same of items, retirement and starts is remembered alike. */
  lemma RemembersSame(s: Ledger, p: Past, q: Past)
    requires Remembers(s, p) && q.bindings == p.bindings && q.shapes == p.shapes && q.retired == p.retired
    requires q.started == p.started
    ensures Remembers(s, q)
  {
    hide Binds, Shapes, ItemsDescribed, SessionKept;
  }

  lemma AdmitLedger(s: Ledger, w: Wire)
    requires Admit(s, w).Done?
    ensures var rid, itemId := ResponseOf(w), ItemOf(w);
            if rid.None? || itemId.None? then Admit(s, w).ledger == s
            else BindResponse(s, itemId.value, rid.value).Done?
                 && BindResponse(s, itemId.value, rid.value).ledger == Admit(s, w).ledger
  {
    hide BindResponse;
  }

  lemma AdmitBinds(s: Ledger, w: Wire, bindings: set<Binding>)
    requires Admit(s, w).Done? && Binds(s.itemResponses, bindings)
    ensures Binds(Admit(s, w).ledger.itemResponses, bindings + NamedBinding(w))
  {
    hide Admit, BindResponse, Binds;
    AdmitLedger(s, w);
    var rid, itemId := ResponseOf(w), ItemOf(w);
    if rid.Some? && itemId.Some? {
      BindResponseIff(s, itemId.value, rid.value);
      BindingAdded(s.itemResponses, bindings, itemId.value, rid.value);
    } else {
      assert bindings + {} == bindings;
    }
  }

  lemma AdmitRemembers(s: Ledger, w: Wire, p: Past)
    requires Admit(s, w).Done? && Remembers(s, p)
    ensures Remembers(Admit(s, w).ledger, p.(bindings := p.bindings + NamedBinding(w)))
  {
    hide Binds, Shapes, ItemsDescribed, Admit, NamedBinding;
    AdmitBinds(s, w, p.bindings);
  }

  lemma DescribedMore(outputItems: map<ItemKey, Item>, shapes: set<Shape>, key: ItemKey, item: Item)
    requires ItemsDescribed(outputItems, shapes)
    ensures ItemsDescribed(outputItems[key := item], shapes + ItemShape(key.rid, item))
  {
    hide ItemShape;
  }

  lemma NoteItemShapes(cfg: Config, s: Ledger, rid: Id, item: Item, done: bool, shapes: set<Shape>)
    requires NoteItem(cfg, s, rid, item, done).Done?
    requires Shapes(s.identities, shapes) && ItemsDescribed(s.outputItems, shapes)
    ensures var next := NoteItem(cfg, s, rid, item, done).ledger;
            && Shapes(next.identities, shapes + ItemShape(rid, item))
            && ItemsDescribed(next.outputItems, shapes + ItemShape(rid, item))
  {
    var id := item.id.value;
    var key := ItemKey(done, rid, id);
    if key in s.outputItems {
      NoteItemAgain(cfg, s, rid, item, done);
      hide NoteItem;
      assert shapes + ItemShape(rid, item) == shapes;
    } else {
      var noted := s.(outputItems := s.outputItems[key := item]);
      BindIdentityIff(noted, id, item, rid);
      NoteItemLedger(cfg, s, rid, item, done);
      hide NoteItem, BindIdentity, Shapes, ItemsDescribed, ItemShape;
      DescribedMore(s.outputItems, shapes, key, item);
      ShapeAdded(s.identities, shapes, id, item, rid, BoundIdentity(noted, id, item, rid));
    }
  }

  /** An item noted for the first time is recorded and bound, and a function item updates the calls. */
  lemma NoteItemLedger(cfg: Config, s: Ledger, rid: Id, item: Item, done: bool)
    requires NoteItem(cfg, s, rid, item, done).Done? && ItemKey(done, rid, item.id.value) !in s.outputItems
    ensures var next := NoteItem(cfg, s, rid, item, done).ledger;
            var noted := s.(outputItems := s.outputItems[ItemKey(done, rid, item.id.value) := item]);
            && BindIdentity(noted, item.id.value, item, rid).Done?
            && next == BindIdentity(noted, item.id.value, item, rid).ledger.(
                 pending := next.pending, nextOrder := next.nextOrder, pendingBytes := next.pendingBytes)
  {
    hide BindIdentity, Ingest, Extended, Admitted, Charged, Quiet;
  }

  lemma NoteItemAgain(cfg: Config, s: Ledger, rid: Id, item: Item, done: bool)
    requires NoteItem(cfg, s, rid, item, done).Done? && ItemKey(done, rid, item.id.value) in s.outputItems
    ensures NoteItem(cfg, s, rid, item, done).ledger == s && s.outputItems[ItemKey(done, rid, item.id.value)] == item
  {
    hide BindIdentity, Ingest;
  }

  lemma NoteItemFrame(cfg: Config, s: Ledger, rid: Id, item: Item, done: bool)
    requires NoteItem(cfg, s, rid, item, done).Done?
    ensures var next := NoteItem(cfg, s, rid, item, done).ledger;
            SameMemory(s, next.(identities := s.identities, outputItems := s.outputItems))
  {
    hide NoteItem, BindIdentity, Quiet;
    if ItemKey(done, rid, item.id.value) in s.outputItems {
      NoteItemAgain(cfg, s, rid, item, done);
    } else {
      NoteItemLedger(cfg, s, rid, item, done);
    }
  }

  lemma ArgumentsFrame(cfg: Config, s: Ledger, w: Wire)
    requires w.ArgumentsDone? && CompleteArguments(cfg, s, w).Done?
    ensures SameMemory(s, CompleteArguments(cfg, s, w).ledger)
  {
    hide Upsert, Upserted, Charged, Quiet;
    if w.callId !in s.argumentDone {
      var u := ArgumentsUpdate(w);
      var noted := s.(argumentDone := s.argumentDone[w.callId := Signature(w.rid, w.itemId, w.name, w.args)]);
      var i := CompletedCall(cfg, s, w, noted, u);
      UpsertFrame(noted, CompleteArguments(cfg, s, w).ledger, u, i);
    }
  }

  lemma CancelFrame(cfg: Config, s: Ledger, rid: Id, callId: Id)
    requires CancelArguments(cfg, s, rid, callId).Done?
    ensures SameMemory(s, CancelArguments(cfg, s, rid, callId).ledger)
  {
    hide CancelArguments, Upserted, Charged;
    var i := CancelledCall(cfg, s, rid, callId);
    UpsertFrame(s, CancelArguments(cfg, s, rid, callId).ledger, CancelUpdate(callId, rid), i);
  }

  // Closing a response

  lemma CallNamed(cfg: Config, s: Ledger, rid: Id, said: set<Update>, closed: set<Id>, c: Id)
    requires CallsKept(cfg, s, said, closed) && rid !in closed
    ensures HasCall(CallsOf(s.pending, rid), c) <==> c in CallsNamed(said, {rid})
  {
    hide CallsKept, CallsOf, HasCall;
    CallMentioned(cfg, s, said, closed, rid, c);
  }

  lemma RetiredKeys(cfg: Config, s: Ledger, rid: Id, c: Id)
    ensures c in Retire(cfg, s, rid).retired <==> c in s.retired || HasCall(CallsOf(s.pending, rid), c)
  {
    hide CallsOf, Others, SumArgs;
  }

  lemma RetiredNamed(cfg: Config, s: Ledger, rid: Id, said: set<Update>, closed: set<Id>)
    requires CallsKept(cfg, s, said, closed) && rid !in closed
    ensures Retire(cfg, s, rid).retired.Keys == s.retired.Keys + CallsNamed(said, {rid})
  {
    hide CallsKept, CallsOf, Retire, HasCall, CallsNamed;
    forall c ensures c in Retire(cfg, s, rid).retired <==> c in s.retired || c in CallsNamed(said, {rid}) {
      CallNamed(cfg, s, rid, said, closed, c);
      RetiredKeys(cfg, s, rid, c);
    }
  }

  lemma RetireRemembers(cfg: Config, s: Ledger, rid: Id, said: set<Update>, closed: set<Id>, p: Past)
    requires CallsKept(cfg, s, said, closed) && rid !in closed && Remembers(s, p)
    ensures Remembers(Retire(cfg, s, rid), p.(retired := p.retired + CallsNamed(said, {rid})))
  {
    RetiredNamed(cfg, s, rid, said, closed);
    RetireGrows(cfg, s, rid);
    hide Retire, Binds, Shapes, ItemsDescribed, CallsNamed, CallsKept;
  }

  lemma MarkRemembers(s: Ledger, rid: Id, mark: Terminal, p: Past)
    requires Remembers(s, p) && rid in s.starts
    ensures Remembers(s.(terminals := s.terminals[rid := mark]), p)
  {
    hide Binds, Shapes, ItemsDescribed;
  }

  lemma CancelRemembers(cfg: Config, s: Ledger, rid: Id, said: set<Update>, p: Past)
    requires Kept(cfg, s, said, s.terminals.Keys) && rid in s.starts && Remembers(s, p)
    requires CancelResponse(cfg, s, rid).Done?
    ensures Remembers(CancelResponse(cfg, s, rid).ledger,
                      p.(retired := p.retired + CallsNamed(said, {rid} - s.terminals.Keys)))
  {
    hide Retire, CallsOf, Remembers, CallsKept, WithinBudget, NotesKept;
    var closed := s.terminals.Keys;
    if rid in s.terminals {
      NothingNamed(said, {rid} - closed, p);
    } else {
      var marked := s.(terminals := s.terminals[rid := CancelledMark]);
      KeptFrame(cfg, s, marked, said, closed);
      MarkRemembers(s, rid, CancelledMark, p);
      RetireRemembers(cfg, marked, rid, said, closed, p);
      assert {rid} - closed == {rid};
    }
  }

  lemma NothingNamed(said: set<Update>, rids: set<Id>, p: Past)
    requires rids == {}
    ensures p.(retired := p.retired + CallsNamed(said, rids)) == p
  {
    assert CallsNamed(said, rids) == {};
  }

  lemma EndRemembers(cfg: Config, marked: Ledger, w: Wire, said: set<Update>, closed: set<Id>, p: Past)
    requires w.ResponseDone? && Kept(cfg, marked, said, closed) && w.rid !in closed && Remembers(marked, p)
    ensures Remembers(EndWithoutRelease(cfg, marked, w, false).ledger,
                      p.(retired := p.retired + CallsNamed(said, {w.rid})))
  {
    hide Retire, CallsOf, Remembers, CallsKept, WithinBudget, NotesKept;
    RetireRemembers(cfg, marked, w.rid, said, closed, p);
    RemembersFrame(Retire(cfg, marked, w.rid), EndWithoutRelease(cfg, marked, w, false).ledger,
                   p.(retired := p.retired + CallsNamed(said, {w.rid})));
  }

  lemma DecideRemembers(cfg: Config, scan: Scan, rid: Id, said: set<Update>, closed: set<Id>, p: Past)
    requires CallsKept(cfg, scan.ledger, said, closed) && rid !in closed && Remembers(scan.ledger, p)
    ensures Remembers(Decide(cfg, scan, rid).ledger, p.(retired := p.retired + CallsNamed(said, {rid})))
  {
    hide Remembers, CallsKept;
    RetireRemembers(cfg, scan.ledger, rid, said, closed, p);
    DecideFrame(cfg, scan, rid);
    RemembersFrame(Retire(cfg, scan.ledger, rid), Decide(cfg, scan, rid).ledger,
                   p.(retired := p.retired + CallsNamed(said, {rid})));
  }

  lemma DecideFrame(cfg: Config, scan: Scan, rid: Id)
    ensures SameMemory(Retire(cfg, scan.ledger, rid), Decide(cfg, scan, rid).ledger)
  {
    hide Retire, CallsOf, AllReady, Judge, CallErrors;
  }

  lemma PassKeepsMemory(s: Ledger, next: Ledger, p: Past, bindings: set<Binding>, shapes: set<Shape>)
    requires Remembers(s, p) && PassFrame(s, next)
    requires Binds(next.itemResponses, p.bindings + bindings) && Shapes(next.identities, p.shapes + shapes)
    ensures Remembers(next, p.(bindings := p.bindings + bindings, shapes := p.shapes + shapes))
  {
    hide Binds, Shapes;
  }

  /** A completed response: its items are bound and described, and its calls are retired. */
  lemma CompletedRemembers(cfg: Config, marked: Ledger, w: Wire, said: set<Update>, closed: set<Id>, p: Past)
    requires Completes(w) && Kept(cfg, marked, said, closed) && w.rid !in closed && Remembers(marked, p)
    requires marked.terminals.Keys == closed + {w.rid} && !marked.poisoned
    requires !Decide(cfg, Scanned(cfg, marked, w), w.rid).ledger.poisoned
    ensures Remembers(Decide(cfg, Scanned(cfg, marked, w), w.rid).ledger,
                      p.(retired := p.retired + CallsNamed(said + Mentions(w), {w.rid}),
                         bindings := p.bindings + OutputBindings(w.rid, w.output.value),
                         shapes := p.shapes + OutputShapes(w.rid, w.output.value)))
  {
    hide Decide, ScanItems, Remembers, Mentions, OutputBindings, OutputShapes, CallsNamed;
    var scan := Scanned(cfg, marked, w);
    CompletedKeeps(cfg, marked, w, said, closed);
    ScanSeals(cfg, Scan(marked, {}, map[], false, []), w.output.value, w.rid);
    DecidePoison(cfg, scan, w.rid);
    RemembersItems(marked, p);
    hide Kept;
    PassRemembers(cfg, marked, w.output.value, w.rid, p.bindings, p.shapes);
    hide Binds, Shapes, ScanKept;
    PassKeepsMemory(marked, scan.ledger, p, OutputBindings(w.rid, w.output.value), OutputShapes(w.rid, w.output.value));
    ScanKeepsCalls(cfg, marked, scan, said, Mentions(w), closed);
    DecideRemembers(cfg, scan, w.rid, said + Mentions(w), closed,
                    p.(bindings := p.bindings + OutputBindings(w.rid, w.output.value),
                       shapes := p.shapes + OutputShapes(w.rid, w.output.value)));
  }

  lemma RemembersItems(s: Ledger, p: Past)
    requires Remembers(s, p)
    ensures Binds(s.itemResponses, p.bindings) && Shapes(s.identities, p.shapes)
  {
  }

  lemma EndResponseRemembers(cfg: Config, marked: Ledger, w: Wire, said: set<Update>, closed: set<Id>, p: Past)
    requires w.ResponseDone? && Kept(cfg, marked, said, closed) && w.rid !in closed && Remembers(marked, p)
    requires marked.terminals.Keys == closed + {w.rid} && !marked.poisoned
    requires !EndResponse(cfg, marked, w).ledger.poisoned
    ensures Remembers(EndResponse(cfg, marked, w).ledger,
                      p.(retired := p.retired + CallsNamed(said + Mentions(w), {w.rid}),
                         bindings := p.bindings + BindingsIn(w, closed), shapes := p.shapes + ShapesIn(w, closed)))
  {
    hide Kept, Decide, ScanItems, Remembers, Retire, OutputBindings, OutputShapes, CallsNamed, OutputMentions;
    if Completes(w) {
      CompletedRemembers(cfg, marked, w, said, closed, p);
      NoneAdded(p.bindings, OutputBindings(w.rid, w.output.value));
    } else {
      EndRemembers(cfg, marked, w, said, closed, p);
      NoneAdded(p.bindings, {});
      NoneAdded(p.shapes, {});
      NoneAdded(said, {});
    }
  }

  lemma NoneAdded<T>(a: set<T>, b: set<T>)
    ensures a + {} == a && {} + b == b
  {
  }

  lemma OpenTells(p: Past, w: Wire)
    requires w.ResponseDone? && w.rid !in p.closed
    ensures var q := Told(p, w);
            && q.retired == p.retired + CallsNamed(p.said + Mentions(w), {w.rid}) && q.started == p.started
            && q.bindings == p.bindings + BindingsIn(w, p.closed) && q.shapes == p.shapes + ShapesIn(w, p.closed)
  {
    hide CallsNamed, BindingsIn, ShapesIn, Mentions;
    assert Ends(w) - p.closed == {w.rid};
    NoneAdded(p.started, {});
  }

  lemma OpenRemembers(cfg: Config, s: Ledger, w: Wire, p: Past)
    requires w.ResponseDone? && Kept(cfg, s, p.said, p.closed) && s.terminals.Keys == p.closed && !s.poisoned
    requires w.rid in s.starts && w.rid !in p.closed && Remembers(s, p)
    requires var marked := s.(terminals := s.terminals[w.rid := TerminalOf(w)]);
             !EndResponse(cfg, marked, w).ledger.poisoned
    ensures var marked := s.(terminals := s.terminals[w.rid := TerminalOf(w)]);
            Remembers(EndResponse(cfg, marked, w).ledger, Told(p, w))
  {
    hide Kept, EndResponse, Remembers, CallsNamed, BindingsIn, ShapesIn, Mentions, Told;
    var marked := s.(terminals := s.terminals[w.rid := TerminalOf(w)]);
    KeptFrame(cfg, s, marked, p.said, p.closed);
    MarkRemembers(s, w.rid, TerminalOf(w), p);
    assert marked.terminals.Keys == p.closed + {w.rid};
    EndResponseRemembers(cfg, marked, w, p.said, p.closed, p);
    OpenTells(p, w);
    RemembersSame(EndResponse(cfg, marked, w).ledger,
                  p.(retired := p.retired + CallsNamed(p.said + Mentions(w), {w.rid}),
                     bindings := p.bindings + BindingsIn(w, p.closed), shapes := p.shapes + ShapesIn(w, p.closed)),
                  Told(p, w));
  }

  lemma CompleteRemembers(cfg: Config, s: Ledger, w: Wire, p: Past)
    requires w.ResponseDone? && Kept(cfg, s, p.said, p.closed) && s.terminals.Keys == p.closed && !s.poisoned
    requires w.rid in s.starts && Remembers(s, p)
    requires CompleteResponse(cfg, s, w).Done? && !CompleteResponse(cfg, s, w).ledger.poisoned
    ensures Remembers(CompleteResponse(cfg, s, w).ledger, Told(p, w))
  {
    hide Kept, EndResponse, Remembers, Told;
    if w.rid in s.terminals {
      ClosedTellsNothing(p, w);
      RemembersSame(s, p, Told(p, w));
    } else {
      OpenRemembers(cfg, s, w, p);
    }
  }

  lemma ClosedTellsNothing(p: Past, w: Wire)
    requires (w.ResponseDone? || w.ResponseCancelled?) && w.rid in p.closed
    ensures var q := Told(p, w);
            q.bindings == p.bindings && q.shapes == p.shapes && q.retired == p.retired && q.started == p.started
  {
    hide Mentions, OutputBindings, OutputShapes;
    assert CallsNamed(p.said + Mentions(w), Ends(w) - p.closed) == {};
  }

  lemma CancelTells(p: Past, w: Wire)
    requires w.ResponseCancelled?
    ensures var q := Told(p, w);
            && q.retired == p.retired + CallsNamed(p.said, {w.rid} - p.closed) && q.started == p.started
            && q.bindings == p.bindings && q.shapes == p.shapes
  {
    hide CallsNamed;
    NoneAdded(p.said, {});
  }

  lemma CancelledRemembers(cfg: Config, s: Ledger, w: Wire, p: Past)
    requires w.ResponseCancelled? && Kept(cfg, s, p.said, p.closed) && s.terminals.Keys == p.closed
    requires w.rid in s.starts && Remembers(s, p) && CancelResponse(cfg, s, w.rid).Done?
    ensures Remembers(CancelResponse(cfg, s, w.rid).ledger, Told(p, w))
  {
    CancelRemembers(cfg, s, w.rid, p.said, p);
    CancelTells(p, w);
    hide Kept, CancelResponse, Remembers, CallsNamed, Told;
    RemembersSame(CancelResponse(cfg, s, w.rid).ledger,
                  p.(retired := p.retired + CallsNamed(p.said, {w.rid} - p.closed)), Told(p, w));
  }

  /** What a frame that ends no response tells. */
  lemma QuietTells(p: Past, w: Wire)
    requires Ends(w) == {}
    ensures var q := Told(p, w);
            && q.retired == p.retired && q.bindings == p.bindings + NamedBinding(w)
            && q.started == p.started + Starts(w)
            && q.shapes == p.shapes + if w.ItemEvent? && w.rid !in p.closed then ItemShape(w.rid, w.item) else {}
  {
    hide Mentions, NamedBinding, ItemShape;
    assert CallsNamed(p.said + Mentions(w), {}) == {};
    NoneAdded(NamedBinding(w), {});
  }

  lemma ItemRemembers(cfg: Config, s: Ledger, w: Wire, p: Past)
    requires w.ItemEvent? && NoteItem(cfg, s, w.rid, w.item, w.done).Done? && Remembers(s, p)
    ensures Remembers(NoteItem(cfg, s, w.rid, w.item, w.done).ledger, p.(shapes := p.shapes + ItemShape(w.rid, w.item)))
  {
    hide NoteItem, Binds, Shapes, ItemsDescribed, ItemShape, Quiet;
    NoteItemShapes(cfg, s, w.rid, w.item, w.done, p.shapes);
    NoteItemFrame(cfg, s, w.rid, w.item, w.done);
  }

  lemma StartRemembers(s: Ledger, rid: Id, content: Id, p: Past)
    requires StartResponse(s, rid, content).Done? && Remembers(s, p) && s.sessionReady
    ensures Remembers(StartResponse(s, rid, content).ledger, p.(started := p.started + {rid}))
  {
    hide Binds, Shapes, ItemsDescribed, StartResponse;
    StartedKeys(s, rid, content);
  }

  lemma StartedKeys(s: Ledger, rid: Id, content: Id)
    requires StartResponse(s, rid, content).Done?
    ensures StartResponse(s, rid, content).ledger.starts.Keys == s.starts.Keys + {rid}
  {
  }

  lemma SessionRemembers(s: Ledger, ack: Id, accepted: bool, p: Past)
    requires SessionAck(s, ack, accepted).Done? && Remembers(s, p)
    ensures Remembers(SessionAck(s, ack, accepted).ledger, p)
  {
    hide Binds, Shapes, ItemsDescribed;
  }

  // One event

  lemma StillRemembers(cfg: Config, s: Ledger, w: Wire, p: Past)
    requires Ends(w) == {} && !w.ItemEvent? && !w.ResponseCreated? && Handle(cfg, s, w).Done? && Remembers(s, p)
    ensures Remembers(Handle(cfg, s, w).ledger, p)
  {
    hide Remembers, SessionAck, CompleteArguments, CancelArguments, AcknowledgeTruncation, StartResponse, NoteItem;
    hide CancelResponse, CompleteResponse, Quiet;
    var next := Handle(cfg, s, w).ledger;
    match w
    case SessionUpdated(ack, accepted) => SessionRemembers(s, ack, accepted, p);
    case ArgumentsDone(_, _, _, _, _) =>
      ArgumentsFrame(cfg, s, w);
      RemembersFrame(s, next, p);
    case ArgumentsCancelled(rid, callId) =>
      CancelFrame(cfg, s, rid, callId);
      RemembersFrame(s, next, p);
    case Truncated(_, _, _) => RemembersFrame(s, next, p);
    case _ =>
  }

  lemma QuietRemembers(cfg: Config, s: Ledger, w: Wire, p: Past)
    requires Ends(w) == {} && Handle(cfg, s, w).Done? && Remembers(s, p.(bindings := p.bindings + NamedBinding(w)))
    requires w.ItemEvent? ==> w.rid !in p.closed
    requires w.ResponseCreated? ==> s.sessionReady
    ensures Remembers(Handle(cfg, s, w).ledger, Told(p, w))
  {
    QuietTells(p, w);
    hide Remembers, NamedBinding, ItemShape, NoteItem, StartResponse, Told, Ends;
    hide SessionAck, CompleteArguments, CancelArguments, AcknowledgeTruncation, CancelResponse, CompleteResponse, Quiet;
    var bound := p.(bindings := p.bindings + NamedBinding(w));
    if w.ItemEvent? {
      ItemRemembers(cfg, s, w, bound);
      NoneAdded(p.started, {});
      RemembersSame(Handle(cfg, s, w).ledger, bound.(shapes := p.shapes + ItemShape(w.rid, w.item)), Told(p, w));
    } else if w.ResponseCreated? {
      StartRemembers(s, w.rid, w.content, bound);
      NoneAdded(p.shapes, {});
      RemembersSame(Handle(cfg, s, w).ledger, bound.(started := p.started + {w.rid}), Told(p, w));
    } else {
      hide Handle;
      StillRemembers(cfg, s, w, bound);
      NoneAdded(p.shapes, {});
      NoneAdded(p.started, {});
      RemembersSame(Handle(cfg, s, w).ledger, bound, Told(p, w));
    }
  }

  lemma HandleRemembers(cfg: Config, s: Ledger, w: Wire, p: Past)
    requires Kept(cfg, s, p.said, p.closed) && s.terminals.Keys == p.closed && !s.poisoned
    requires Handle(cfg, s, w).Done? && !Handle(cfg, s, w).ledger.poisoned
    requires Remembers(s, p.(bindings := p.bindings + NamedBinding(w)))
    requires w.ItemEvent? ==> w.rid !in p.closed
    requires w.ResponseCreated? ==> s.sessionReady
    requires w.ResponseDone? || w.ResponseCancelled? ==> w.rid in s.starts
    ensures Remembers(Handle(cfg, s, w).ledger, Told(p, w))
  {
    hide Kept, Remembers, CompleteResponse, CancelResponse, Told;
    if w.ResponseDone? || w.ResponseCancelled? {
      NoneAdded(p.bindings, {});
      assert p.(bindings := p.bindings + NamedBinding(w)) == p;
      if w.ResponseDone? {
        CompleteRemembers(cfg, s, w, p);
      } else {
        CancelledRemembers(cfg, s, w, p);
      }
    } else {
      hide Handle;
      QuietRemembers(cfg, s, w, p);
    }
  }

  lemma StaleTells(s: Ledger, w: Wire, p: Past)
    requires Admit(s, w).Done? && !Admit(s, w).value && s.terminals.Keys == p.closed
    requires s.terminals.Keys <= s.starts.Keys && s.starts.Keys == p.started
    ensures var q := Told(p, w);
            && q.retired == p.retired && q.bindings == p.bindings + NamedBinding(w)
            && q.started == p.started && q.shapes == p.shapes
  {
    hide Admit, NamedBinding, ItemShape;
    QuietTells(p, w);
    NoneAdded(p.shapes, {});
  }

  lemma ProcessRemembers(cfg: Config, s: Ledger, w: Wire, p: Past)
    requires Kept(cfg, s, p.said, p.closed) && s.terminals.Keys == p.closed && Remembers(s, p)
    requires !s.poisoned && !Process(cfg, s, w).0.poisoned
    ensures Remembers(Process(cfg, s, w).0, Told(p, w))
  {
    assert SessionKept(s) && s.starts.Keys == p.started;
    hide Kept, Remembers, Admit, Handle, Told;
    var admitted := Admit(s, w);
    var bound := p.(bindings := p.bindings + NamedBinding(w));
    AdmitRemembers(s, w, p);
    if admitted.value {
      KeptFrame(cfg, s, admitted.ledger, p.said, p.closed);
      AdmitNeeds(s, w);
      HandleRemembers(cfg, admitted.ledger, w, p);
    } else {
      StaleTells(s, w, p);
      RemembersSame(admitted.ledger, bound, Told(p, w));
    }
  }

  lemma AdmitNeeds(s: Ledger, w: Wire)
    requires Admit(s, w).Done? && Admit(s, w).value
    ensures w.ItemEvent? ==> w.rid !in s.terminals
    ensures w.ResponseCreated? ==> s.sessionReady
    ensures w.ResponseDone? || w.ResponseCancelled? ==> w.rid in s.starts
  {
    hide BindResponse;
  }

  // Whole runs

  lemma InKeepsShrinking(w: Wire, closed: set<Id>, more: set<Id>)
    requires closed <= more
    ensures BindingsIn(w, more) <= BindingsIn(w, closed) && ShapesIn(w, more) <= ShapesIn(w, closed)
  {
    hide OutputBindings, OutputShapes, ItemShape, NamedBinding;
  }

  /** A frame told before tells nothing more, whatever was told since. */
  ghost predicate Heard(p: Past, w: Wire) {
    && Mentions(w) <= p.said && Starts(w) <= p.started && Ends(w) <= p.closed
    && BindingsIn(w, p.closed) <= p.bindings && ShapesIn(w, p.closed) <= p.shapes
  }

  lemma HeardTellsNothing(p: Past, w: Wire)
    requires Heard(p, w)
    ensures Told(p, w) == p
  {
    hide Mentions, Starts, BindingsIn, ShapesIn;
    assert Ends(w) - p.closed == {};
    assert CallsNamed(p.said + Mentions(w), {}) == {};
    assert p.said + Mentions(w) == p.said && p.started + Starts(w) == p.started && p.closed + Ends(w) == p.closed;
    assert p.bindings + BindingsIn(w, p.closed) == p.bindings && p.shapes + ShapesIn(w, p.closed) == p.shapes;
    assert p.retired + {} == p.retired;
  }

  ghost predicate Grown(p: Past, q: Past) {
    && p.said <= q.said && p.started <= q.started && p.closed <= q.closed
    && p.bindings <= q.bindings && p.shapes <= q.shapes
  }

  lemma HeardStays(p: Past, q: Past, w: Wire)
    requires Heard(p, w) && Grown(p, q)
    ensures Heard(q, w)
  {
    hide Mentions, Starts, Ends, BindingsIn, ShapesIn;
    InKeepsShrinking(w, p.closed, q.closed);
  }

  lemma ToldIsHeard(p: Past, w: Wire)
    ensures Heard(Told(p, w), w) && Grown(p, Told(p, w))
  {
    hide Mentions, Starts, Ends, BindingsIn, ShapesIn, CallsNamed;
    InKeepsShrinking(w, p.closed, p.closed + Ends(w));
  }

  ghost predicate Attentive(cfg: Config, a: Adapter, p: Past) {
    && Kept(cfg, a.ledger, p.said, p.closed) && a.ledger.terminals.Keys == p.closed
    && Remembers(a.ledger, p) && forall e <- a.window :: Heard(p, e.wire)
  }

  lemma ProcessCloses(cfg: Config, s: Ledger, w: Wire, said: set<Update>)
    requires Kept(cfg, s, said, s.terminals.Keys) && !s.poisoned && !Process(cfg, s, w).0.poisoned
    ensures var next := Process(cfg, s, w).0;
            && Kept(cfg, next, said + Mentions(w), next.terminals.Keys)
            && next.terminals.Keys == s.terminals.Keys + Ends(w)
  {
    hide Kept, Process, Mentions, Starts, Ends, Accounted, Grew;
    ProcessKeeps(cfg, s, w, said);
    ProcessResponses(cfg, s, w, said);
    GrewTerminals(s, Process(cfg, s, w).0);
  }

  lemma ProcessIsHeard(cfg: Config, s: Ledger, w: Wire, p: Past)
    requires Kept(cfg, s, p.said, p.closed) && s.terminals.Keys == p.closed && Remembers(s, p)
    requires !s.poisoned && !Process(cfg, s, w).0.poisoned
    ensures var next, q := Process(cfg, s, w).0, Told(p, w);
            Kept(cfg, next, q.said, q.closed) && next.terminals.Keys == q.closed && Remembers(next, q)
  {
    hide Kept, Process, Remembers, Mentions, Starts, Ends, BindingsIn, ShapesIn, CallsNamed;
    ProcessRemembers(cfg, s, w, p);
    ProcessCloses(cfg, s, w, p.said);
  }

  lemma WindowStays(window: seq<Seen>, p: Past, q: Past)
    requires Grown(p, q) && forall e <- window :: Heard(p, e.wire)
    ensures forall e <- window :: Heard(q, e.wire)
  {
    hide Heard, Grown;
    forall e <- window ensures Heard(q, e.wire) {
      HeardStays(p, q, e.wire);
    }
  }

  lemma FrameAttends(cfg: Config, size: nat, a: Adapter, eventId: Option<Id>, w: Wire, p: Past)
    requires Attentive(cfg, a, p) && !a.ledger.poisoned && !Normalize(cfg, size, a, eventId, w).0.ledger.poisoned
    ensures Attentive(cfg, Normalize(cfg, size, a, eventId, w).0, Told(p, w))
  {
    hide Kept, Process, Remembers, Heard, Told;
    var next := Normalize(cfg, size, a, eventId, w).0;
    if eventId.Some? && Recorded(a.window, eventId.value) == Some(w) {
      HeardTellsNothing(p, w);
    } else {
      ProcessIsHeard(cfg, a.ledger, w, p);
      ToldIsHeard(p, w);
      WindowStays(a.window, p, Told(p, w));
    }
  }

  lemma InterruptTells(p: Past, rid: Id)
    ensures Grown(p, Interrupted(p, rid))
  {
  }

  lemma InterruptCloses(cfg: Config, s: Ledger, rid: Id, said: set<Update>)
    requires Kept(cfg, s, said, s.terminals.Keys) && InterruptResponse(cfg, s, rid).Done?
    ensures var next := InterruptResponse(cfg, s, rid).ledger;
            Kept(cfg, next, said, next.terminals.Keys) && next.terminals.Keys == s.terminals.Keys + {rid}
  {
    hide Kept, InterruptResponse;
    InterruptKeeps(cfg, s, rid, said);
    InterruptOpens(cfg, s, rid);
    GrewTerminals(s, InterruptResponse(cfg, s, rid).ledger);
  }

  lemma InterruptOpens(cfg: Config, s: Ledger, rid: Id)
    requires InterruptResponse(cfg, s, rid).Done?
    ensures Opened(s, InterruptResponse(cfg, s, rid).ledger, {}, {rid})
  {
    hide CancelResponse;
    CancelResponses(cfg, s, rid);
  }

  lemma InterruptRemembers(cfg: Config, s: Ledger, rid: Id, p: Past)
    requires Kept(cfg, s, p.said, p.closed) && s.terminals.Keys == p.closed && Remembers(s, p)
    requires InterruptResponse(cfg, s, rid).Done?
    ensures Remembers(InterruptResponse(cfg, s, rid).ledger, Interrupted(p, rid))
  {
    hide Kept, Remembers, CallsNamed, CancelResponse;
    CancelRemembers(cfg, s, rid, p.said, p);
    RemembersSame(InterruptResponse(cfg, s, rid).ledger,
                  p.(retired := p.retired + CallsNamed(p.said, {rid} - p.closed)), Interrupted(p, rid));
  }

  lemma InterruptAttends(cfg: Config, a: Adapter, rid: Id, p: Past)
    requires Attentive(cfg, a, p) && InterruptResponse(cfg, a.ledger, rid).Done?
    ensures Attentive(cfg, a.(ledger := InterruptResponse(cfg, a.ledger, rid).ledger), Interrupted(p, rid))
  {
    InterruptTells(p, rid);
    hide Kept, Remembers, Heard, CallsNamed, InterruptResponse, Grown;
    InterruptCloses(cfg, a.ledger, rid, p.said);
    InterruptRemembers(cfg, a.ledger, rid, p);
    WindowStays(a.window, p, Interrupted(p, rid));
  }

  lemma SubmitAttends(cfg: Config, a: Adapter, ids: seq<Id>, p: Past)
    requires Attentive(cfg, a, p) && Submit(a.ledger, ids).Done?
    ensures Attentive(cfg, a.(ledger := Submit(a.ledger, ids).ledger), p)
  {
    SubmitKeeps(cfg, a.ledger, ids, p.said);
    hide Kept, Remembers, Heard, Submit;
    RemembersFrame(a.ledger, Submit(a.ledger, ids).ledger, p);
  }

  function PastOf(cfg: Config, size: nat, inputs: seq<Input>): Past {
    if inputs == [] then NOTHING
    else
      var n := |inputs| - 1;
      var before := PastOf(cfg, size, inputs[..n]);
      match inputs[n]
      case Frame(_, w) => Told(before, w)
      case Interrupt(rid) =>
        if InterruptResponse(cfg, After(cfg, size, inputs[..n]).ledger, rid).Thrown? then before
        else Interrupted(before, rid)
      case SubmitOutputs(_) => before
  }

  lemma NothingYet(cfg: Config)
    ensures Attentive(cfg, Adapter([], NewLedger()), NOTHING)
  {
  }

  /** An adapter that is not sealed remembers exactly what the inputs told. */
  lemma {:induction false} RunRemembers(cfg: Config, size: nat, inputs: seq<Input>)
    requires !After(cfg, size, inputs).ledger.poisoned
    ensures Attentive(cfg, After(cfg, size, inputs), PastOf(cfg, size, inputs))
  {
    if inputs == [] {
      NothingYet(cfg);
    } else {
      hide Attentive, Told, Interrupted, Normalize, InterruptResponse, Submit;
      var n := |inputs| - 1;
      var a, p := After(cfg, size, inputs[..n]), PastOf(cfg, size, inputs[..n]);
      RunUnsealed(cfg, size, inputs);
      RunRemembers(cfg, size, inputs[..n]);
      match inputs[n]
      case Frame(eventId, w) => FrameAttends(cfg, size, a, eventId, w, p);
      case Interrupt(rid) =>
        if InterruptResponse(cfg, a.ledger, rid).Done? {
          InterruptAttends(cfg, a, rid, p);
        }
      case SubmitOutputs(ids) =>
        if Submit(a.ledger, ids).Done? {
          SubmitAttends(cfg, a, ids, p);
        }
    }
  }

  lemma RunUnsealed(cfg: Config, size: nat, inputs: seq<Input>)
    requires inputs != [] && !After(cfg, size, inputs).ledger.poisoned
    ensures !After(cfg, size, inputs[..|inputs| - 1]).ledger.poisoned
  {
    RunGrows(cfg, size, inputs, |inputs| - 1);
  }

  /** The past agrees with what was said, started and closed. */
  lemma {:induction false} PastIs(cfg: Config, size: nat, inputs: seq<Input>)
    ensures var p := PastOf(cfg, size, inputs);
            p.said == SaidBy(inputs) && p.started == StartedBy(inputs) && p.closed == ClosedBy(cfg, size, inputs)
  {
    if inputs != [] {
      hide Mentions, Starts, Ends, BindingsIn, ShapesIn, CallsNamed, InterruptResponse;
      PastIs(cfg, size, inputs[..|inputs| - 1]);
    }
  }
}
