/** When the items of a completed response agree with what the frames said before, and when there is room for them. */
module ToolClean {
  import opened ToolLedger
  import opened ToolRelease
  import opened ToolTerminal
  import opened ToolHistory
  import Sets

  // One item against the past

  predicate SaidAgrees(u: Update, item: Item, rid: Id)
    requires item.Item?
  {
    u.rid == rid && !Differ(u.itemId, item.id) && !Differ(u.name, item.name) && !Differ(u.args, item.args)
  }

  /** A function item names itself and its call, asks for nothing undeclared or oversized, and contradicts no frame. */
  ghost predicate CallConsistent(cfg: Config, p: Past, item: Item, rid: Id)
    requires item.Item?
  {
    && item.id.Some? && item.callId.Some?
    && NameDeclared(cfg, item.name) && ArgsBytes(cfg, item.args) <= MAX_ARGUMENT_BYTES
    && item.callId.value !in p.retired
    && forall u <- p.said :: u.callId == item.callId.value && u.rid !in p.closed ==> SaidAgrees(u, item, rid)
  }

  ghost predicate ItemConsistent(cfg: Config, p: Past, item: Item, rid: Id) {
    && item.Item? && !item.kind.ForbiddenItem?
    && (item.id.Some? ==>
          && (forall b <- p.bindings :: b.itemId == item.id.value ==> b.rid == rid)
          && (forall h <- p.shapes :: h.itemId == item.id.value ==> SameShape(h.identity, item, rid)))
    && (item.kind.FunctionCall? ==> CallConsistent(cfg, p, item, rid))
  }

  lemma BindingConsistent(s: Ledger, bindings: set<Binding>, id: Id, rid: Id)
    requires Binds(s.itemResponses, bindings)
    ensures BindingAgrees(s, id, rid) <==> forall b <- bindings :: b.itemId == id ==> b.rid == rid
  {
    if id in s.itemResponses {
      assert Binding(id, s.itemResponses[id]) in bindings;
    }
  }

  lemma PendingUnknown(cfg: Config, s: Ledger, said: set<Update>, closed: set<Id>, c: Id)
    requires CallsKept(cfg, s, said, closed) && Find(s.pending, c).None?
    ensures forall u <- said :: u.callId == c ==> u.rid in closed
  {
    hide Live, Ordered;
    forall u <- said | u.callId == c ensures u.rid in closed {
      assert u.rid in closed || Held(s.pending, u);
    }
  }

  /** Some frame for an open response said each part known of a pending call. */
  lemma PendingParts(cfg: Config, s: Ledger, said: set<Update>, closed: set<Id>, i: nat)
    requires CallsKept(cfg, s, said, closed) && i < |s.pending|
    ensures var q := s.pending[i];
            && q.rid !in closed && Known(said, q.rid, q.callId)
            && (q.itemId.Some? ==> Placed(said, q.rid, q.callId)) && (q.name.Some? ==> Named(said, q.rid, q.callId))
            && (q.args.Some? ==> Argued(said, q.rid, q.callId))
  {
    assert Live(cfg, s, said, closed, s.pending[i]);
  }

  lemma CallConsistentIff(cfg: Config, s: Ledger, said: set<Update>, closed: set<Id>, i: nat, item: Item, rid: Id)
    requires CallsKept(cfg, s, said, closed) && i < |s.pending| && item.Item?
    ensures var q := s.pending[i];
            CallAgrees(q, item, rid) <==>
            forall u <- said :: u.callId == q.callId && u.rid !in closed ==> SaidAgrees(u, item, rid)
  {
    var q := s.pending[i];
    PendingParts(cfg, s, said, closed, i);
    forall u <- said | u.callId == q.callId && u.rid !in closed ensures Carries(q, u) {
      PendingCarries(cfg, s, said, closed, i, u);
    }
    hide CallsKept;
    if forall u <- said :: u.callId == q.callId && u.rid !in closed ==> SaidAgrees(u, item, rid) {
      var u :| u in said && u.rid == q.rid && u.callId == q.callId;
      assert SaidAgrees(u, item, rid);
    }
  }

  lemma CallFitsIff(cfg: Config, s: Ledger, p: Past, item: Item, rid: Id)
    requires CallsKept(cfg, s, p.said, p.closed) && s.retired.Keys == p.retired && s.rejected == map[] && item.Item?
    ensures CallFits(cfg, s, item, rid) <==> CallConsistent(cfg, p, item, rid)
  {
    hide CallsKept, CallAgrees, SaidAgrees, NameDeclared, Find;
    if item.callId.Some? {
      var known := Find(s.pending, item.callId.value);
      if known.Some? {
        CallConsistentIff(cfg, s, p.said, p.closed, known.value, item, rid);
      } else {
        PendingUnknown(cfg, s, p.said, p.closed, item.callId.value);
      }
    }
  }

  /** The ledger knows what the past told. */
  ghost predicate Informed(cfg: Config, s: Ledger, p: Past) {
    Kept(cfg, s, p.said, p.closed) && Remembers(s, p)
  }

  lemma ItemFitsIff(cfg: Config, s: Ledger, p: Past, item: Item, rid: Id)
    requires Informed(cfg, s, p)
    ensures ItemFits(cfg, s, item, rid) <==> ItemConsistent(cfg, p, item, rid)
  {
    hide CallsKept, WithinBudget, Binds, Shapes, CallFits, CallConsistent, SameShape, ItemsDescribed;
    if item.Item? {
      if item.id.Some? {
        BindingConsistent(s, p.bindings, item.id.value, rid);
        ShapeAgrees(s.identities, p.shapes, item.id.value, item, rid);
      }
      CallFitsIff(cfg, s, p, item, rid);
    }
  }

  // Room for the items

  function BoundItems(p: Past): set<Id> {
    set b | b in p.bindings :: b.itemId
  }

  function ShapedItems(p: Past): set<Id> {
    set h | h in p.shapes :: h.itemId
  }

  /** The calls named for responses that are open. */
  function OpenCalls(p: Past): set<Id> {
    set u | u in p.said && u.rid !in p.closed :: u.callId
  }

  datatype Argument = Argument(callId: Id, args: Id)

  /** The argument texts said for calls of open responses. */
  function Arguments(said: set<Update>, closed: set<Id>): set<Argument> {
    set u | u in said && u.rid !in closed && u.args.Some? :: Argument(u.callId, u.args.value)
  }

  ghost function TotalBytes(cfg: Config, arguments: set<Argument>): nat
    decreases |arguments|
  {
    if arguments == {} then 0
    else
      var a :| a in arguments;
      cfg.bytes(a.args) + TotalBytes(cfg, arguments - {a})
  }

  /** Tracked items and calls, pending calls, calls of the response and argument bytes stay within their limits. */
  ghost predicate RoomFor(cfg: Config, p: Past, items: seq<Item>, rid: Id) {
    var open := OpenCalls(p) + Calls(items);
    && (!(Ids(items) <= BoundItems(p)) ==> |BoundItems(p) + Ids(items)| <= MAX_TRACKED_IDENTITIES)
    && (!(Ids(items) <= ShapedItems(p)) ==> |ShapedItems(p) + Ids(items)| <= MAX_TRACKED_IDENTITIES)
    && (!(Calls(items) <= OpenCalls(p)) ==>
          && |open| + |p.retired| <= MAX_TRACKED_IDENTITIES && |open| <= MAX_PENDING_CALLS
          && |CallsNamed(p.said, {rid}) + Calls(items)| <= MAX_CALLS_PER_RESPONSE)
    && TotalBytes(cfg, Arguments(p.said + OutputMentions(rid, items), p.closed)) <= MAX_PENDING_ARGUMENT_BYTES
  }

  /** Each item agrees with what was said, no two items collide, and there is room for all of them. */
  ghost predicate OutputConsistent(cfg: Config, p: Past, items: seq<Item>, rid: Id) {
    AllConsistent(cfg, p, items, rid) && AllApart(items) && RoomFor(cfg, p, items, rid)
  }

  ghost predicate AllConsistent(cfg: Config, p: Past, items: seq<Item>, rid: Id) {
    forall i :: 0 <= i < |items| ==> ItemConsistent(cfg, p, items[i], rid)
  }

  lemma ConsistentSnoc(cfg: Config, p: Past, items: seq<Item>, rid: Id)
    requires items != [] && AllConsistent(cfg, p, items, rid)
    ensures var n := |items| - 1; AllConsistent(cfg, p, items[..n], rid) && ItemConsistent(cfg, p, items[n], rid)
  {
    hide ItemConsistent;
  }

  // Counting

  ghost predicate AllApart(items: seq<Item>) {
    forall i, j :: 0 <= i < j < |items| ==> Apart(items[i], items[j])
  }

  lemma ApartSnoc(items: seq<Item>)
    requires items != [] && AllApart(items)
    ensures AllApart(items[..|items| - 1]) && NotAmong(items[..|items| - 1], items[|items| - 1])
  {
    hide Apart, NotAmong;
    var n := |items| - 1;
    ApartIff(items[..n], items[n]);
  }

  lemma AddOne(known: set<Id>, ids: set<Id>, id: Id)
    requires id !in ids
    ensures |known + (ids + {id})| == |known + ids| + if id in known then 0 else 1
  {
    if id in known {
      assert known + (ids + {id}) == known + ids;
    } else {
      assert known + (ids + {id}) == known + ids + {id} && id !in known + ids;
    }
  }

  lemma GrowsBy(known: set<Id>, ids: set<Id>)
    ensures |known + ids| > |known| <==> !(ids <= known)
  {
    if ids <= known {
      assert known + ids == known;
    } else {
      Sets.SubsetSize(known, known + ids);
      if |known| == |known + ids| {
        Sets.SubsetEqual(known, known + ids);
      }
    }
  }

  lemma AddNone(known: set<Id>, ids: set<Id>)
    ensures known + (ids + {}) == known + ids
  {
  }

  lemma {:induction false} CountBindings(s: Ledger, items: seq<Item>)
    requires AllApart(items)
    ensures |s.itemResponses| + NewBindings(s, items) == |s.itemResponses.Keys + Ids(items)|
  {
    if items == [] {
      assert s.itemResponses.Keys + {} == s.itemResponses.Keys;
    } else {
      var n := |items| - 1;
      ApartSnoc(items);
      hide AllApart, Calls;
      CountBindings(s, items[..n]);
      if items[n].Item? && items[n].id.Some? {
        AddOne(s.itemResponses.Keys, Ids(items[..n]), items[n].id.value);
      } else {
        AddNone(s.itemResponses.Keys, Ids(items[..n]));
      }
    }
  }

  lemma {:induction false} CountIdentities(s: Ledger, items: seq<Item>)
    requires AllApart(items)
    ensures |s.identities| + NewIdentities(s, items) == |s.identities.Keys + Ids(items)|
  {
    if items == [] {
      assert s.identities.Keys + {} == s.identities.Keys;
    } else {
      var n := |items| - 1;
      ApartSnoc(items);
      hide AllApart, Calls;
      CountIdentities(s, items[..n]);
      if items[n].Item? && items[n].id.Some? {
        AddOne(s.identities.Keys, Ids(items[..n]), items[n].id.value);
      } else {
        AddNone(s.identities.Keys, Ids(items[..n]));
      }
    }
  }

  function CallIdsOf(pending: seq<PendingCall>): set<Id> {
    set q | q in pending :: q.callId
  }

  lemma {:induction false} CountCalls(s: Ledger, items: seq<Item>, known: set<Id>)
    requires AllApart(items) && forall i :: 0 <= i < |items| && IsCall(items[i]) ==>
                                  (NewCall(s, items[i]) <==> items[i].callId.value !in known)
    ensures |known| + NewCalls(s, items) == |known + Calls(items)|
  {
    if items == [] {
      assert known + {} == known;
    } else {
      var n := |items| - 1;
      ApartSnoc(items);
      assert forall i :: 0 <= i < n ==> items[..n][i] == items[i];
      hide AllApart, Ids;
      CountCalls(s, items[..n], known);
      if IsCall(items[n]) {
        AddOne(known, Calls(items[..n]), items[n].callId.value);
      } else {
        AddNone(known, Calls(items[..n]));
      }
    }
  }

  // The known sets

  lemma BoundKeys(s: Ledger, p: Past)
    requires Remembers(s, p)
    ensures s.itemResponses.Keys == BoundItems(p) && s.identities.Keys == ShapedItems(p)
  {
    forall id ensures id in s.itemResponses <==> id in BoundItems(p) {
      if id in s.itemResponses {
        assert Binding(id, s.itemResponses[id]) in p.bindings;
      }
    }
    forall id ensures id in s.identities <==> id in ShapedItems(p) {
      if id in s.identities {
        assert ShapeSourced(p.shapes, id, s.identities[id]);
      }
    }
  }

  lemma OpenIds(cfg: Config, s: Ledger, p: Past)
    requires CallsKept(cfg, s, p.said, p.closed)
    ensures CallIdsOf(s.pending) == OpenCalls(p)
  {
    forall c ensures c in CallIdsOf(s.pending) <==> c in OpenCalls(p) {
      if c in CallIdsOf(s.pending) {
        var q :| q in s.pending && q.callId == c;
        assert Live(cfg, s, p.said, p.closed, q);
      }
      if c in OpenCalls(p) {
        var u :| u in p.said && u.rid !in p.closed && u.callId == c;
        assert Held(s.pending, u);
      }
    }
  }

  lemma ResponseIds(cfg: Config, s: Ledger, p: Past, rid: Id)
    requires CallsKept(cfg, s, p.said, p.closed) && rid !in p.closed
    ensures CallIdsOf(CallsOf(s.pending, rid)) == CallsNamed(p.said, {rid})
  {
    hide CallsKept, CallsOf, CallsNamed;
    forall c ensures c in CallIdsOf(CallsOf(s.pending, rid)) <==> c in CallsNamed(p.said, {rid}) {
      CallNamed(cfg, s, rid, p.said, p.closed, c);
      IdIsHeld(CallsOf(s.pending, rid), c);
    }
  }

  lemma IdIsHeld(calls: seq<PendingCall>, c: Id)
    ensures c in CallIdsOf(calls) <==> HasCall(calls, c)
  {
    if c in CallIdsOf(calls) {
      var q :| q in calls && q.callId == c;
      var i :| 0 <= i < |calls| && calls[i] == q;
    }
  }

  lemma OrderedShorter(pending: seq<PendingCall>)
    requires pending != [] && Ordered(pending)
    ensures Ordered(pending[..|pending| - 1])
  {
  }

  lemma {:induction false} SizeOfIds(pending: seq<PendingCall>)
    requires Ordered(pending)
    ensures |CallIdsOf(pending)| == |pending|
  {
    if pending == [] {
      assert CallIdsOf(pending) == {};
    } else {
      hide Ordered, CallIdsOf;
      OrderedShorter(pending);
      SizeOfIds(pending[..|pending| - 1]);
      IdsSnoc(pending);
    }
  }

  lemma IdsSnoc(pending: seq<PendingCall>)
    requires pending != [] && Ordered(pending)
    ensures var n := |pending| - 1;
            && CallIdsOf(pending) == CallIdsOf(pending[..n]) + {pending[n].callId}
            && pending[n].callId !in CallIdsOf(pending[..n])
  {
    var n := |pending| - 1;
    OrderedPrefix(pending);
    hide Ordered;
    assert pending == pending[..n] + [pending[n]];
  }

  lemma NewCallIff(s: Ledger, item: Item)
    requires IsCall(item)
    ensures NewCall(s, item) <==> item.callId.value !in CallIdsOf(s.pending)
  {
    hide Find;
  }

  /** A call named in the items that is open belongs to the response. */
  lemma NewToResponse(cfg: Config, p: Past, item: Item, rid: Id)
    requires IsCall(item) && ItemConsistent(cfg, p, item, rid) && rid !in p.closed
    ensures item.callId.value in OpenCalls(p) <==> item.callId.value in CallsNamed(p.said, {rid})
  {
  }

  lemma CallCounts(cfg: Config, s: Ledger, p: Past, items: seq<Item>, rid: Id)
    requires CallsKept(cfg, s, p.said, p.closed) && rid !in p.closed && AllApart(items)
    requires AllConsistent(cfg, p, items, rid)
    ensures |s.pending| == |OpenCalls(p)|
    ensures |s.pending| + NewCalls(s, items) == |OpenCalls(p) + Calls(items)|
    ensures |CallsOf(s.pending, rid)| + NewCalls(s, items) == |CallsNamed(p.said, {rid}) + Calls(items)|
  {
    OpenIds(cfg, s, p);
    ResponseIds(cfg, s, p, rid);
    SizeOfIds(s.pending);
    FilteredOrdered(s.pending, rid);
    SizeOfIds(CallsOf(s.pending, rid));
    hide CallsKept, CallsOf, CallIdsOf, Ordered, AllApart, ItemConsistent, NewCall, OpenCalls, CallsNamed;
    forall i | 0 <= i < |items| && IsCall(items[i])
      ensures NewCall(s, items[i]) <==> items[i].callId.value !in OpenCalls(p)
      ensures NewCall(s, items[i]) <==> items[i].callId.value !in CallsNamed(p.said, {rid})
    {
      NewCallIff(s, items[i]);
      NewToResponse(cfg, p, items[i], rid);
    }
    CountCalls(s, items, OpenCalls(p));
    CountCalls(s, items, CallsNamed(p.said, {rid}));
  }

  // Bytes

  lemma {:induction false} TotalWithout(cfg: Config, arguments: set<Argument>, x: Argument)
    requires x in arguments
    ensures TotalBytes(cfg, arguments) == cfg.bytes(x.args) + TotalBytes(cfg, arguments - {x})
    decreases |arguments|
  {
    var a :| a in arguments && TotalBytes(cfg, arguments) == cfg.bytes(a.args) + TotalBytes(cfg, arguments - {a});
    if a != x {
      hide TotalBytes;
      TotalWithout(cfg, arguments - {a}, x);
      TotalWithout(cfg, arguments - {x}, a);
      assert arguments - {a} - {x} == arguments - {x} - {a};
    }
  }

  lemma TotalWith(cfg: Config, arguments: set<Argument>, x: Argument)
    ensures TotalBytes(cfg, arguments + {x}) ==
            TotalBytes(cfg, arguments) + if x in arguments then 0 else cfg.bytes(x.args)
  {
    hide TotalBytes;
    if x in arguments {
      assert arguments + {x} == arguments;
    } else {
      TotalWithout(cfg, arguments + {x}, x);
      assert arguments + {x} - {x} == arguments;
    }
  }

  function PendingArguments(pending: seq<PendingCall>): set<Argument> {
    set q | q in pending && q.args.Some? :: Argument(q.callId, q.args.value)
  }

  lemma ArgumentsSnoc(pending: seq<PendingCall>)
    requires pending != [] && Ordered(pending)
    ensures var n := |pending| - 1;
            var before, last := PendingArguments(pending[..n]), pending[n];
            && PendingArguments(pending) ==
               (if last.args.Some? then before + {Argument(last.callId, last.args.value)} else before)
            && (last.args.Some? ==> Argument(last.callId, last.args.value) !in before)
  {
    var n := |pending| - 1;
    OrderedPrefix(pending);
    hide Ordered;
    assert pending == pending[..n] + [pending[n]];
  }

  lemma {:induction false} SumIsTotal(cfg: Config, pending: seq<PendingCall>)
    requires Ordered(pending)
    ensures SumArgs(cfg, pending) == TotalBytes(cfg, PendingArguments(pending))
  {
    if pending == [] {
      assert PendingArguments(pending) == {};
    } else {
      hide Ordered, TotalBytes, PendingArguments;
      var n := |pending| - 1;
      OrderedShorter(pending);
      ArgumentsSnoc(pending);
      SumIsTotal(cfg, pending[..n]);
      if pending[n].args.Some? {
        TotalWith(cfg, PendingArguments(pending[..n]), Argument(pending[n].callId, pending[n].args.value));
      }
    }
  }

  lemma ArgumentsKnown(cfg: Config, s: Ledger, p: Past)
    requires CallsKept(cfg, s, p.said, p.closed)
    ensures PendingArguments(s.pending) == Arguments(p.said, p.closed)
  {
    forall a ensures a in PendingArguments(s.pending) <==> a in Arguments(p.said, p.closed) {
      if a in PendingArguments(s.pending) {
        PendingArgumentSaid(cfg, s, p, a);
      }
      if a in Arguments(p.said, p.closed) {
        var u :| u in p.said && u.rid !in p.closed && u.args.Some? && Argument(u.callId, u.args.value) == a;
        assert Held(s.pending, u);
      }
    }
  }

  lemma PendingArgumentSaid(cfg: Config, s: Ledger, p: Past, a: Argument)
    requires CallsKept(cfg, s, p.said, p.closed) && a in PendingArguments(s.pending)
    ensures a in Arguments(p.said, p.closed)
  {
    var q :| q in s.pending && q.args.Some? && Argument(q.callId, q.args.value) == a;
    var i :| 0 <= i < |s.pending| && s.pending[i] == q;
    PendingParts(cfg, s, p.said, p.closed, i);
    var u :| u in p.said && u.rid == q.rid && u.callId == q.callId && u.args.Some?;
    PendingCarries(cfg, s, p.said, p.closed, i, u);
  }

  /** Whether the argument text of a consistent item was said before is whether its pending call has one. */
  lemma ArgumentKnown(cfg: Config, s: Ledger, p: Past, item: Item, rid: Id)
    requires CallsKept(cfg, s, p.said, p.closed) && IsCall(item) && item.args.Some? && ItemConsistent(cfg, p, item, rid)
    ensures Argument(item.callId.value, item.args.value) in Arguments(p.said, p.closed) <==>
            var known := Find(s.pending, item.callId.value); known.Some? && s.pending[known.value].args.Some?
  {
    ArgumentsKnown(cfg, s, p);
    var c, known := item.callId.value, Find(s.pending, item.callId.value);
    var x := Argument(c, item.args.value);
    if known.Some? && s.pending[known.value].args.Some? {
      var q := s.pending[known.value];
      assert Argument(c, q.args.value) in PendingArguments(s.pending);
      var u :| u in p.said && u.rid !in p.closed && u.args.Some?
               && Argument(u.callId, u.args.value) == Argument(c, q.args.value);
      assert SaidAgrees(u, item, rid);
    }
    if x in Arguments(p.said, p.closed) {
      var q :| q in s.pending && q.args.Some? && Argument(q.callId, q.args.value) == x;
      if s.pending[known.value] != q {
        DistinctCalls(s.pending, s.pending[known.value], q);
      }
    }
  }

  function ItemArgument(item: Item): set<Argument> {
    if IsCall(item) && item.args.Some? then {Argument(item.callId.value, item.args.value)} else {}
  }

  lemma MentionsCalls(rid: Id, items: seq<Item>, u: Update)
    requires u in OutputMentions(rid, items)
    ensures u.rid == rid && u.callId in Calls(items)
  {
    var i :| 0 <= i < |items| && u in ItemMentions(rid, items[i], true);
    hide OutputMentions, Calls;
    CallOfSome(items, u.callId);
  }

  lemma MentionedArguments(said: set<Update>, closed: set<Id>, rid: Id, item: Item)
    requires rid !in closed
    ensures Arguments(said + ItemMentions(rid, item, true), closed) == Arguments(said, closed) + ItemArgument(item)
  {
    if IsCall(item) {
      var u := UpdateOf(item, rid, true);
      assert ItemMentions(rid, item, true) == {u};
      assert Arguments({u}, closed) == ItemArgument(item);
      ArgumentsUnion(said, {u}, closed);
    } else {
      assert said + {} == said;
    }
  }

  lemma ArgumentsUnion(a: set<Update>, b: set<Update>, closed: set<Id>)
    ensures Arguments(a + b, closed) == Arguments(a, closed) + Arguments(b, closed)
  {
  }

  /** What earlier items said is about other calls. */
  lemma EarlierArguments(said: set<Update>, closed: set<Id>, rid: Id, items: seq<Item>, x: Argument)
    requires x.callId !in Calls(items)
    ensures x in Arguments(said + OutputMentions(rid, items), closed) <==> x in Arguments(said, closed)
  {
    hide OutputMentions, Calls;
    ArgumentsUnion(said, OutputMentions(rid, items), closed);
    if x in Arguments(OutputMentions(rid, items), closed) {
      var u :| u in OutputMentions(rid, items) && u.rid !in closed && u.args.Some?
               && Argument(u.callId, u.args.value) == x;
      MentionsCalls(rid, items, u);
    }
  }

  lemma ExtraStep(cfg: Config, s: Ledger, p: Past, items: seq<Item>, item: Item, rid: Id)
    requires CallsKept(cfg, s, p.said, p.closed) && rid !in p.closed
    requires ItemConsistent(cfg, p, item, rid) && NotAmong(items, item)
    ensures var said := p.said + OutputMentions(rid, items);
            TotalBytes(cfg, Arguments(said + ItemMentions(rid, item, true), p.closed)) ==
            TotalBytes(cfg, Arguments(said, p.closed)) + ExtraBytes(cfg, s, item)
  {
    var said := p.said + OutputMentions(rid, items);
    MentionedArguments(said, p.closed, rid, item);
    if IsCall(item) && item.args.Some? {
      var x := Argument(item.callId.value, item.args.value);
      EarlierArguments(p.said, p.closed, rid, items, x);
      ArgumentKnown(cfg, s, p, item, rid);
      hide CallsKept, ItemConsistent, TotalBytes, Arguments, OutputMentions, ItemMentions, Find;
      TotalWith(cfg, Arguments(said, p.closed), x);
    } else {
      hide CallsKept, ItemConsistent, TotalBytes, Arguments, OutputMentions, ItemMentions;
      assert Arguments(said, p.closed) + {} == Arguments(said, p.closed);
    }
  }

  lemma {:induction false} ExtraIsTotal(cfg: Config, s: Ledger, p: Past, items: seq<Item>, rid: Id)
    requires CallsKept(cfg, s, p.said, p.closed) && rid !in p.closed && AllApart(items)
    requires AllConsistent(cfg, p, items, rid)
    ensures TotalBytes(cfg, Arguments(p.said + OutputMentions(rid, items), p.closed)) ==
            TotalBytes(cfg, Arguments(p.said, p.closed)) + Extra(cfg, s, items)
  {
    if items == [] {
      assert p.said + {} == p.said;
    } else {
      var n := |items| - 1;
      hide CallsKept, ItemConsistent, AllConsistent, TotalBytes, Arguments, AllApart, NotAmong, ItemMentions;
      hide ExtraBytes;
      ApartSnoc(items);
      ConsistentSnoc(cfg, p, items, rid);
      ExtraIsTotal(cfg, s, p, items[..n], rid);
      ExtraStep(cfg, s, p, items[..n], items[n], rid);
      SetsRegroup(p.said, OutputMentions(rid, items[..n]), ItemMentions(rid, items[n], true));
    }
  }

  lemma BytesMatch(cfg: Config, s: Ledger, p: Past, items: seq<Item>, rid: Id)
    requires CallsKept(cfg, s, p.said, p.closed) && rid !in p.closed && AllApart(items)
    requires WithinBudget(cfg, s)
    requires AllConsistent(cfg, p, items, rid)
    ensures s.pendingBytes + Extra(cfg, s, items) ==
            TotalBytes(cfg, Arguments(p.said + OutputMentions(rid, items), p.closed))
  {
    ExtraIsTotal(cfg, s, p, items, rid);
    ArgumentsKnown(cfg, s, p);
    SumIsTotal(cfg, s.pending);
    hide TotalBytes, Arguments, Extra, OutputMentions, CallsOf, PendingArguments;
  }

  // The whole output

  /** The items bound and described so far, with those of the response. */
  lemma ItemCounts(s: Ledger, p: Past, items: seq<Item>)
    requires Remembers(s, p) && AllApart(items)
    ensures |s.itemResponses| + NewBindings(s, items) == |BoundItems(p) + Ids(items)|
    ensures |s.identities| + NewIdentities(s, items) == |ShapedItems(p) + Ids(items)|
    ensures NewBindings(s, items) > 0 <==> !(Ids(items) <= BoundItems(p))
    ensures NewIdentities(s, items) > 0 <==> !(Ids(items) <= ShapedItems(p))
  {
    hide Remembers, AllApart, NewBindings, NewIdentities, BoundItems, ShapedItems, Ids;
    BoundKeys(s, p);
    CountBindings(s, items);
    CountIdentities(s, items);
    GrowsBy(BoundItems(p), Ids(items));
    GrowsBy(ShapedItems(p), Ids(items));
    assert |s.itemResponses| == |s.itemResponses.Keys| && |s.identities| == |s.identities.Keys|;
  }

  lemma RoomIff(cfg: Config, s: Ledger, p: Past, items: seq<Item>, rid: Id)
    requires Informed(cfg, s, p) && rid !in p.closed && AllApart(items) && AllConsistent(cfg, p, items, rid)
    ensures Room(cfg, s, items, rid) <==> RoomFor(cfg, p, items, rid)
  {
    hide CallsKept, WithinBudget, TotalBytes, Arguments, Extra, OutputMentions, CallsOf, Ids, Calls, AllApart;
    hide NewBindings, NewIdentities, NewCalls, BoundItems, ShapedItems, OpenCalls, CallsNamed, AllConsistent;
    hide Binds, Shapes, ItemsDescribed, SessionKept;
    ItemCounts(s, p, items);
    CallCounts(cfg, s, p, items, rid);
    BytesMatch(cfg, s, p, items, rid);
    GrowsBy(OpenCalls(p), Calls(items));
    assert |s.retired| == |s.retired.Keys| && |s.rejected| == 0;
  }

  /** What the pass over the items needs of the ledgers is what the past allows. */
  lemma FitsIff(cfg: Config, s: Ledger, p: Past, items: seq<Item>, rid: Id)
    requires Informed(cfg, s, p) && rid !in p.closed
    ensures OutputFits(cfg, s, items, rid) <==> OutputConsistent(cfg, p, items, rid)
  {
    hide Informed, ItemFits, ItemConsistent, Room, RoomFor, Apart;
    assert AllApart(items) <==> forall i, j :: 0 <= i < j < |items| ==> Apart(items[i], items[j]);
    forall i | 0 <= i < |items| ensures ItemFits(cfg, s, items[i], rid) <==> ItemConsistent(cfg, p, items[i], rid) {
      ItemFitsIff(cfg, s, p, items[i], rid);
    }
    if AllApart(items) && AllConsistent(cfg, p, items, rid) {
      RoomIff(cfg, s, p, items, rid);
    }
  }
}
