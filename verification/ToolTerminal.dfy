/** When the pass over the items of a completed response meets no fault: a condition free of the order of the items. */
module ToolTerminal {
  import opened Common
  import opened ToolLedger
  import opened ToolRelease

  // One item against what is known before the pass

  predicate BindingAgrees(s: Ledger, itemId: Id, rid: Id) {
    itemId in s.itemResponses ==> s.itemResponses[itemId] == rid
  }

  predicate SameShape(known: Identity, item: Item, rid: Id)
    requires item.Item?
  {
    && known.rid == rid && known.kind == item.kind
    && !Differ(known.callId, item.callId) && !Differ(known.name, item.name)
  }

  predicate IdentityAgrees(s: Ledger, itemId: Id, item: Item, rid: Id)
    requires item.Item?
  {
    itemId in s.identities ==> SameShape(s.identities[itemId], item, rid)
  }

  predicate CallAgrees(p: PendingCall, item: Item, rid: Id)
    requires item.Item?
  {
    p.rid == rid && !Differ(p.itemId, item.id) && !Differ(p.name, item.name) && !Differ(p.args, item.args)
  }

  predicate IsCall(item: Item) {
    item.Item? && item.kind.FunctionCall? && item.callId.Some?
  }

  /** A function item names itself, its call and at most declared and bounded content, and contradicts nothing known. */
  predicate CallFits(cfg: Config, s: Ledger, item: Item, rid: Id)
    requires item.Item?
  {
    && item.id.Some? && item.callId.Some?
    && NameDeclared(cfg, item.name) && ArgsBytes(cfg, item.args) <= MAX_ARGUMENT_BYTES
    && item.callId.value !in s.retired && item.callId.value !in s.rejected
    && var known := Find(s.pending, item.callId.value);
       known.Some? ==> CallAgrees(s.pending[known.value], item, rid)
  }

  predicate ItemFits(cfg: Config, s: Ledger, item: Item, rid: Id) {
    && item.Item? && !item.kind.ForbiddenItem?
    && (item.id.Some? ==> BindingAgrees(s, item.id.value, rid) && IdentityAgrees(s, item.id.value, item, rid))
    && (item.kind.FunctionCall? ==> CallFits(cfg, s, item, rid))
  }

  /** Two items of one response share neither their id nor their call. */
  predicate Apart(a: Item, b: Item) {
    && (a.Item? && b.Item? && a.id.Some? && b.id.Some? ==> a.id != b.id)
    && (IsCall(a) && IsCall(b) ==> a.callId != b.callId)
  }

  // How much the items add

  predicate NewBinding(s: Ledger, item: Item) {
    item.Item? && item.id.Some? && item.id.value !in s.itemResponses
  }

  predicate NewIdentity(s: Ledger, item: Item) {
    item.Item? && item.id.Some? && item.id.value !in s.identities
  }

  predicate NewCall(s: Ledger, item: Item) {
    IsCall(item) && Find(s.pending, item.callId.value).None?
  }

  function ExtraBytes(cfg: Config, s: Ledger, item: Item): nat {
    if !IsCall(item) then 0
    else
      var known := Find(s.pending, item.callId.value);
      if known.None? || s.pending[known.value].args.None? then ArgsBytes(cfg, item.args) else 0
  }

  function NewBindings(s: Ledger, items: seq<Item>): nat {
    if items == [] then 0
    else NewBindings(s, items[..|items| - 1]) + if NewBinding(s, items[|items| - 1]) then 1 else 0
  }

  function NewIdentities(s: Ledger, items: seq<Item>): nat {
    if items == [] then 0
    else NewIdentities(s, items[..|items| - 1]) + if NewIdentity(s, items[|items| - 1]) then 1 else 0
  }

  function NewCalls(s: Ledger, items: seq<Item>): nat {
    if items == [] then 0
    else NewCalls(s, items[..|items| - 1]) + if NewCall(s, items[|items| - 1]) then 1 else 0
  }

  function Extra(cfg: Config, s: Ledger, items: seq<Item>): nat {
    if items == [] then 0
    else Extra(cfg, s, items[..|items| - 1]) + ExtraBytes(cfg, s, items[|items| - 1])
  }

  /** The items stay within every limit of the ledgers. */
  predicate Room(cfg: Config, s: Ledger, items: seq<Item>, rid: Id) {
    var calls := NewCalls(s, items);
    && (NewBindings(s, items) > 0 ==> |s.itemResponses| + NewBindings(s, items) <= MAX_TRACKED_IDENTITIES)
    && (NewIdentities(s, items) > 0 ==> |s.identities| + NewIdentities(s, items) <= MAX_TRACKED_IDENTITIES)
    && (calls > 0 ==>
          && |s.pending| + |s.retired| + |s.rejected| + calls <= MAX_TRACKED_IDENTITIES
          && |s.pending| + calls <= MAX_PENDING_CALLS
          && |CallsOf(s.pending, rid)| + calls <= MAX_CALLS_PER_RESPONSE)
    && s.pendingBytes + Extra(cfg, s, items) <= MAX_PENDING_ARGUMENT_BYTES
  }

  /** Each item fits what is known, no two items collide, and there is room for all of them. */
  ghost predicate OutputFits(cfg: Config, s: Ledger, items: seq<Item>, rid: Id) {
    && (forall i :: 0 <= i < |items| ==> ItemFits(cfg, s, items[i], rid))
    && (forall i, j :: 0 <= i < j < |items| ==> Apart(items[i], items[j]))
    && Room(cfg, s, items, rid)
  }

  lemma RoomBefore(cfg: Config, s: Ledger, items: seq<Item>, rid: Id)
    requires items != [] && Room(cfg, s, items, rid)
    ensures Room(cfg, s, items[..|items| - 1], rid)
  {
    hide NewBinding, NewIdentity, NewCall, ExtraBytes, CallsOf;
  }

  // What a faultless pass has done so far

  function Ids(items: seq<Item>): set<Id> {
    if items == [] then {}
    else
      var last := items[|items| - 1];
      Ids(items[..|items| - 1]) + if last.Item? && last.id.Some? then {last.id.value} else {}
  }

  function Calls(items: seq<Item>): set<Id> {
    if items == [] then {}
    else
      var last := items[|items| - 1];
      Calls(items[..|items| - 1]) + if IsCall(last) then {last.callId.value} else {}
  }

  lemma {:induction false} IdOfSome(items: seq<Item>, id: Id)
    ensures id in Ids(items) <==> exists i :: 0 <= i < |items| && items[i].Item? && items[i].id == Some(id)
  {
    if items != [] {
      var n := |items| - 1;
      IdOfSome(items[..n], id);
      assert forall i :: 0 <= i < n ==> items[..n][i] == items[i];
    }
  }

  lemma {:induction false} CallOfSome(items: seq<Item>, c: Id)
    ensures c in Calls(items) <==> exists i :: 0 <= i < |items| && IsCall(items[i]) && items[i].callId == Some(c)
  {
    if items != [] {
      var n := |items| - 1;
      CallOfSome(items[..n], c);
      assert forall i :: 0 <= i < n ==> items[..n][i] == items[i];
    }
  }

  ghost predicate SameAt<V>(a: map<Id, V>, b: map<Id, V>, id: Id) {
    (id in a <==> id in b) && (id in a ==> a[id] == b[id])
  }

  ghost predicate SameExcept<V>(a: map<Id, V>, b: map<Id, V>, id: Id) {
    forall other :: other != id ==> SameAt(a, b, other)
  }

  ghost predicate SameCallAt(a: seq<PendingCall>, b: seq<PendingCall>, callId: Id) {
    && Find(a, callId) == Find(b, callId)
    && (Find(a, callId).Some? ==> a[Find(a, callId).value] == b[Find(b, callId).value])
  }

  /** A map grew by `more` entries and changed only at the given ids. */
  ghost predicate MapProgress<V>(before: map<Id, V>, after: map<Id, V>, ids: set<Id>, more: nat) {
    |after| == |before| + more && forall id :: id !in ids ==> SameAt(after, before, id)
  }

  ghost predicate ItemsProgress(s: Ledger, items: seq<Item>, l: Ledger) {
    && MapProgress(s.itemResponses, l.itemResponses, Ids(items), NewBindings(s, items))
    && MapProgress(s.identities, l.identities, Ids(items), NewIdentities(s, items))
  }

  ghost predicate CallsProgress(cfg: Config, s: Ledger, items: seq<Item>, rid: Id, l: Ledger) {
    && |l.pending| == |s.pending| + NewCalls(s, items)
    && |CallsOf(l.pending, rid)| == |CallsOf(s.pending, rid)| + NewCalls(s, items)
    && (forall c :: c !in Calls(items) ==> SameCallAt(l.pending, s.pending, c))
    && l.pendingBytes == s.pendingBytes + Extra(cfg, s, items)
  }

  /** The ledgers after a faultless pass, as far as later items can notice. */
  ghost predicate Progress(cfg: Config, s: Ledger, items: seq<Item>, rid: Id, l: Ledger) {
    && !l.poisoned && l.retired == s.retired && l.rejected == s.rejected
    && ItemsProgress(s, items, l) && CallsProgress(cfg, s, items, rid, l)
  }

  // One item

  lemma PutSize<V>(m: map<Id, V>, id: Id, v: V)
    ensures |m[id := v]| == |m| + (if id in m then 0 else 1)
    ensures SameExcept(m[id := v], m, id)
  {
    assert m[id := v].Keys == m.Keys + {id};
    assert |m| == |m.Keys| && |m[id := v]| == |m[id := v].Keys|;
  }

  lemma BindResponseIff(l: Ledger, itemId: Id, rid: Id)
    ensures BindResponse(l, itemId, rid).Done? <==>
            BindingAgrees(l, itemId, rid) && (itemId !in l.itemResponses ==> |l.itemResponses| < MAX_TRACKED_IDENTITIES)
    ensures BindResponse(l, itemId, rid).Done? ==>
            BindResponse(l, itemId, rid).ledger == l.(itemResponses := l.itemResponses[itemId := rid])
  {
    if itemId in l.itemResponses {
      assert l.itemResponses[itemId := l.itemResponses[itemId]] == l.itemResponses;
    }
  }

  lemma BindIdentityIff(l: Ledger, itemId: Id, item: Item, rid: Id)
    requires item.Item?
    ensures BindIdentity(l, itemId, item, rid).Done? <==>
            && IdentityAgrees(l, itemId, item, rid)
            && (itemId !in l.identities ==> |l.identities| < MAX_TRACKED_IDENTITIES)
    ensures BindIdentity(l, itemId, item, rid).Done? ==>
            BindIdentity(l, itemId, item, rid).ledger ==
            l.(identities := l.identities[itemId := BoundIdentity(l, itemId, item, rid)])
  {
  }

  /** What an item is known as once it is bound. */
  function BoundIdentity(l: Ledger, itemId: Id, item: Item, rid: Id): Identity
    requires item.Item?
  {
    if itemId !in l.identities then Identity(rid, item.kind, item.callId, item.name)
    else
      var known := l.identities[itemId];
      known.(callId := Joined(known.callId, item.callId), name := Joined(known.name, item.name))
  }

  lemma SameIdentities(l: Ledger, b: Ledger, itemId: Id, item: Item, rid: Id)
    requires item.Item? && b.identities == l.identities
    ensures IdentityAgrees(b, itemId, item, rid) <==> IdentityAgrees(l, itemId, item, rid)
    ensures BoundIdentity(b, itemId, item, rid) == BoundIdentity(l, itemId, item, rid)
  {
  }

  lemma BindTerminalDone(l: Ledger, item: Item, rid: Id)
    requires item.Item? && item.id.Some? && BindResponse(l, item.id.value, rid).Done?
    ensures var id := item.id.value;
            var bound := l.(itemResponses := l.itemResponses[id := rid]);
            && BindTerminal(l, item, rid) == BindIdentity(bound, id, item, rid)
            && (BindIdentity(bound, id, item, rid).Done? <==>
                  && IdentityAgrees(l, id, item, rid)
                  && (NewIdentity(l, item) ==> |l.identities| < MAX_TRACKED_IDENTITIES))
            && (BindIdentity(bound, id, item, rid).Done? ==>
                  BindIdentity(bound, id, item, rid).ledger == Bound(l, item, rid))
  {
    var id := item.id.value;
    var bound := l.(itemResponses := l.itemResponses[id := rid]);
    BindResponseIff(l, id, rid);
    BindIdentityIff(bound, id, item, rid);
    SameIdentities(l, bound, id, item, rid);
    hide BindResponse, BindIdentity, IdentityAgrees, BoundIdentity;
  }

  lemma BindTerminalIff(l: Ledger, item: Item, rid: Id)
    requires item.Item?
    ensures BindTerminal(l, item, rid).Done? <==>
            (item.id.Some? ==>
               && BindingAgrees(l, item.id.value, rid) && IdentityAgrees(l, item.id.value, item, rid)
               && (NewBinding(l, item) ==> |l.itemResponses| < MAX_TRACKED_IDENTITIES)
               && (NewIdentity(l, item) ==> |l.identities| < MAX_TRACKED_IDENTITIES))
    ensures BindTerminal(l, item, rid).Done? ==> BindTerminal(l, item, rid).ledger == Bound(l, item, rid)
  {
    hide BindResponse, BindIdentity, IdentityAgrees, BindingAgrees, Bound, NewIdentity;
    if item.id.Some? {
      BindResponseIff(l, item.id.value, rid);
      if BindResponse(l, item.id.value, rid).Done? {
        BindTerminalDone(l, item, rid);
      }
    } else {
      NothingBound(l, item, rid);
    }
  }

  lemma NothingBound(l: Ledger, item: Item, rid: Id)
    requires item.Item? && item.id.None?
    ensures Bound(l, item, rid) == l
  {
  }

  function Bound(l: Ledger, item: Item, rid: Id): Ledger
    requires item.Item?
  {
    if item.id.None? then l
    else l.(itemResponses := l.itemResponses[item.id.value := rid],
            identities := l.identities[item.id.value := BoundIdentity(l, item.id.value, item, rid)])
  }

  // The call of one function item

  predicate CallRoom(cfg: Config, l: Ledger, item: Item, rid: Id) {
    && (NewCall(l, item) ==>
          && |l.pending| + |l.retired| + |l.rejected| < MAX_TRACKED_IDENTITIES
          && |l.pending| < MAX_PENDING_CALLS && |CallsOf(l.pending, rid)| < MAX_CALLS_PER_RESPONSE)
    && l.pendingBytes + ExtraBytes(cfg, l, item) <= MAX_PENDING_ARGUMENT_BYTES
  }

  lemma UpsertIff(cfg: Config, l: Ledger, item: Item, rid: Id)
    requires IsCall(item)
    ensures Upsert(cfg, l, UpdateOf(item, rid, true)).Done? <==>
            && item.callId.value !in l.retired && item.callId.value !in l.rejected
            && (var known := Find(l.pending, item.callId.value);
                known.Some? ==> CallAgrees(l.pending[known.value], item, rid))
            && CallRoom(cfg, l, item, rid)
  {
    hide CallsOf, Find, Reject;
  }

  lemma IngestIff(cfg: Config, l: Ledger, item: Item, rid: Id)
    requires item.Item? && item.kind.FunctionCall? && item.id.Some?
    ensures Ingest(cfg, l, item, rid, true).Done? <==> CallFits(cfg, l, item, rid) && CallRoom(cfg, l, item, rid)
  {
    hide CallRoom, Upsert, Upserted, Charged, Find, Reject;
    if item.callId.Some? {
      UpsertIff(cfg, l, item, rid);
    }
  }

  lemma {:induction false} FindUpdate(pending: seq<PendingCall>, i: nat, p: PendingCall, callId: Id)
    requires i < |pending| && p.callId == pending[i].callId
    ensures Find(pending[i := p], callId) == Find(pending, callId)
  {
    var n := |pending| - 1;
    if i < n {
      assert pending[i := p][..n] == pending[..n][i := p];
      FindUpdate(pending[..n], i, p, callId);
    } else {
      assert pending[i := p][..n] == pending[..n];
    }
  }

  lemma FindSnoc(pending: seq<PendingCall>, p: PendingCall, callId: Id)
    requires p.callId != callId
    ensures Find(pending + [p], callId) == Find(pending, callId)
  {
    assert (pending + [p])[..|pending|] == pending;
  }

  lemma CallsOfSnoc(pending: seq<PendingCall>, p: PendingCall, rid: Id)
    ensures |CallsOf(pending + [p], rid)| == |CallsOf(pending, rid)| + if p.rid == rid then 1 else 0
  {
    assert (pending + [p])[..|pending|] == pending;
  }

  ghost predicate SameCallsExcept(a: seq<PendingCall>, b: seq<PendingCall>, callId: Id) {
    forall c :: c != callId ==> SameCallAt(a, b, c)
  }

  lemma UpsertIndex(cfg: Config, l: Ledger, u: Update)
    requires Upsert(cfg, l, u).Done?
    ensures var known := Find(l.pending, u.callId);
            Upsert(cfg, l, u).value == if known.Some? then known.value else |l.pending|
  {
    hide CallsOf, Find, Reject;
  }

  lemma IngestIndex(cfg: Config, l: Ledger, item: Item, rid: Id)
    requires IsCall(item) && Ingest(cfg, l, item, rid, true).Done?
    ensures var known := Find(l.pending, item.callId.value);
            Ingest(cfg, l, item, rid, true).value == if known.Some? then known.value else |l.pending|
  {
    hide Upsert, Find, Upserted, Charged;
    UpsertIndex(cfg, l, UpdateOf(item, rid, true));
  }

  /** What one more pending call, or more said of one, changes in the counts. */
  ghost predicate OneCall(cfg: Config, l: Ledger, item: Item, rid: Id, next: Ledger)
    requires IsCall(item)
  {
    var more := if NewCall(l, item) then 1 else 0;
    && next == l.(pending := next.pending, nextOrder := next.nextOrder, pendingBytes := next.pendingBytes)
    && |next.pending| == |l.pending| + more && |CallsOf(next.pending, rid)| == |CallsOf(l.pending, rid)| + more
    && next.pendingBytes == l.pendingBytes + ExtraBytes(cfg, l, item)
    && SameCallsExcept(next.pending, l.pending, item.callId.value)
  }

  lemma ExtendedOne(cfg: Config, l: Ledger, item: Item, rid: Id, next: Ledger, i: nat)
    requires IsCall(item) && Find(l.pending, item.callId.value) == Some(i)
    requires Upserted(l, next, UpdateOf(item, rid, true), i) && Charged(cfg, l, next, i)
    ensures OneCall(cfg, l, item, rid, next)
  {
    hide Find, CallsOf;
    var p := next.pending[i];
    CallsOfUpdate(l.pending, i, p, rid);
    forall c | c != item.callId.value ensures SameCallAt(next.pending, l.pending, c) {
      FindUpdate(l.pending, i, p, c);
    }
  }

  lemma AdmittedOne(cfg: Config, l: Ledger, item: Item, rid: Id, next: Ledger)
    requires IsCall(item) && Find(l.pending, item.callId.value).None?
    requires Upserted(l, next, UpdateOf(item, rid, true), |l.pending|) && Charged(cfg, l, next, |l.pending|)
    ensures OneCall(cfg, l, item, rid, next)
  {
    hide Find, CallsOf;
    var p := next.pending[|l.pending|];
    CallsOfSnoc(l.pending, p, rid);
    forall c | c != item.callId.value ensures SameCallAt(next.pending, l.pending, c) {
      FindSnoc(l.pending, p, c);
    }
  }

  lemma IngestEffect(cfg: Config, l: Ledger, item: Item, rid: Id)
    requires IsCall(item) && Ingest(cfg, l, item, rid, true).Done?
    ensures OneCall(cfg, l, item, rid, Ingest(cfg, l, item, rid, true).ledger)
  {
    hide Ingest, Find, Upserted, Charged, OneCall;
    IngestIndex(cfg, l, item, rid);
    var next := Ingest(cfg, l, item, rid, true);
    if Find(l.pending, item.callId.value).Some? {
      ExtendedOne(cfg, l, item, rid, next.ledger, next.value);
    } else {
      AdmittedOne(cfg, l, item, rid, next.ledger);
    }
  }

  // One step of the pass

  /** The item causes no fault against the ledgers as they are. */
  predicate StepClean(cfg: Config, l: Ledger, itemIds: set<Id>, item: Item, rid: Id) {
    && ItemFits(cfg, l, item, rid)
    && (item.id.Some? ==> item.id.value !in itemIds)
    && (NewBinding(l, item) ==> |l.itemResponses| < MAX_TRACKED_IDENTITIES)
    && (NewIdentity(l, item) ==> |l.identities| < MAX_TRACKED_IDENTITIES)
    && (item.kind.FunctionCall? ==> CallRoom(cfg, l, item, rid))
  }

  function Noted(scan: Scan, item: Item): Scan
    requires item.Item?
  {
    if item.id.Some? then scan.(itemIds := scan.itemIds + {item.id.value}) else scan
  }

  /** The pass after a faultless step. */
  function Stepped(cfg: Config, scan: Scan, item: Item, rid: Id): Scan
    requires item.Item?
  {
    var bound := Bound(scan.ledger, item, rid);
    if !IsCall(item) then Noted(scan, item).(ledger := bound)
    else Noted(scan, item).(ledger := Ingest(cfg, bound, item, rid, true).ledger,
                            members := scan.members[item.callId.value := item.id])
  }

  lemma BoundCalls(cfg: Config, l: Ledger, item: Item, rid: Id)
    requires item.Item?
    ensures var b := Bound(l, item, rid);
            && b == l.(itemResponses := b.itemResponses, identities := b.identities)
            && (CallFits(cfg, b, item, rid) <==> CallFits(cfg, l, item, rid))
            && (CallRoom(cfg, b, item, rid) <==> CallRoom(cfg, l, item, rid))
  {
    hide Find, CallsOf, NameDeclared, CallAgrees, BoundIdentity;
  }

  lemma ScanFunctionIff(cfg: Config, scan: Scan, item: Item, rid: Id)
    requires item.Item? && item.kind.FunctionCall?
    ensures ScanFunction(cfg, scan, item, rid).errors == scan.errors <==>
            CallFits(cfg, scan.ledger, item, rid) && CallRoom(cfg, scan.ledger, item, rid)
    ensures ScanFunction(cfg, scan, item, rid).errors == scan.errors ==>
            IsCall(item) && ScanFunction(cfg, scan, item, rid) ==
              scan.(ledger := Ingest(cfg, scan.ledger, item, rid, true).ledger,
                    members := scan.members[item.callId.value := item.id])
  {
    hide Ingest, CallRoom, Charged;
    if item.id.Some? {
      IngestIff(cfg, scan.ledger, item, rid);
    }
  }

  lemma ScanItemUnfolds(cfg: Config, scan: Scan, item: Item, rid: Id)
    requires item.Item? && !item.kind.ForbiddenItem? && BindTerminal(scan.ledger, item, rid).Done?
    requires item.id.Some? ==> item.id.value !in scan.itemIds
    ensures var bound := Noted(scan, item).(ledger := BindTerminal(scan.ledger, item, rid).ledger);
            ScanItem(cfg, scan, item, rid) ==
            if item.kind.FunctionCall? then ScanFunction(cfg, bound, item, rid) else bound
  {
    hide BindTerminal, ScanFunction;
  }

  lemma ScanItemFaultsOn(cfg: Config, scan: Scan, item: Item, rid: Id)
    requires item.Item? ==>
               item.kind.ForbiddenItem? || BindTerminal(scan.ledger, item, rid).Thrown?
               || (item.id.Some? && item.id.value in scan.itemIds)
    ensures ScanItem(cfg, scan, item, rid).errors != scan.errors
  {
    hide BindTerminal, ScanFunction;
  }

  lemma ScanItemIff(cfg: Config, scan: Scan, item: Item, rid: Id)
    ensures ScanItem(cfg, scan, item, rid).errors == scan.errors <==>
            StepClean(cfg, scan.ledger, scan.itemIds, item, rid)
    ensures ScanItem(cfg, scan, item, rid).errors == scan.errors ==>
            ScanItem(cfg, scan, item, rid) == Stepped(cfg, scan, item, rid)
  {
    hide BindTerminal, Bound, ScanItem, ScanFunction, CallFits, CallRoom, Ingest, BindingAgrees, IdentityAgrees;
    if item.Item? {
      BindTerminalIff(scan.ledger, item, rid);
    }
    if item.Item? && !item.kind.ForbiddenItem? && BindTerminal(scan.ledger, item, rid).Done?
       && (item.id.Some? ==> item.id.value !in scan.itemIds) {
      ScanItemUnfolds(cfg, scan, item, rid);
      BoundCalls(cfg, scan.ledger, item, rid);
      if item.kind.FunctionCall? {
        ScanFunctionIff(cfg, Noted(scan, item).(ledger := Bound(scan.ledger, item, rid)), item, rid);
      }
    } else {
      ScanItemFaultsOn(cfg, scan, item, rid);
    }
  }

  // The whole pass

  /** The calls recorded as present in the output are those of the function items, each under the id of its item. */
  ghost predicate MembersAre(scan: Scan, items: seq<Item>) {
    && scan.members.Keys == Calls(items)
    && forall c <- scan.members ::
         && scan.members[c].Some? && scan.members[c].value in Ids(items)
         && var known := Find(scan.ledger.pending, c);
            known.Some? && scan.ledger.pending[known.value].itemId == scan.members[c]
  }

  ghost predicate ScanProgress(cfg: Config, s: Ledger, items: seq<Item>, rid: Id, scan: Scan) {
    && Progress(cfg, s, items, rid, scan.ledger)
    && scan.errors == [] && !scan.invalid && scan.itemIds == Ids(items) && MembersAre(scan, items)
  }

  predicate NotAmong(items: seq<Item>, item: Item) {
    && (item.Item? && item.id.Some? ==> item.id.value !in Ids(items))
    && (IsCall(item) ==> item.callId.value !in Calls(items))
  }

  lemma ApartIff(items: seq<Item>, item: Item)
    ensures (forall i :: 0 <= i < |items| ==> Apart(items[i], item)) <==> NotAmong(items, item)
  {
    hide Ids, Calls;
    if item.Item? && item.id.Some? {
      IdOfSome(items, item.id.value);
    }
    if IsCall(item) {
      CallOfSome(items, item.callId.value);
    }
  }

  lemma FitsSnoc(cfg: Config, s: Ledger, items: seq<Item>, rid: Id)
    requires items != []
    ensures var n := |items| - 1;
            OutputFits(cfg, s, items, rid) <==>
              && OutputFits(cfg, s, items[..n], rid)
              && ItemFits(cfg, s, items[n], rid) && NotAmong(items[..n], items[n])
              && Room(cfg, s, items, rid)
  {
    hide ItemFits, Apart, Room, NotAmong;
    var n := |items| - 1;
    assert forall i :: 0 <= i < n ==> items[..n][i] == items[i];
    ApartIff(items[..n], items[n]);
    if Room(cfg, s, items, rid) {
      RoomBefore(cfg, s, items, rid);
    }
  }

  predicate StepRoom(cfg: Config, s: Ledger, items: seq<Item>, item: Item, rid: Id) {
    var calls := NewCalls(s, items);
    && (NewBinding(s, item) ==> |s.itemResponses| + NewBindings(s, items) < MAX_TRACKED_IDENTITIES)
    && (NewIdentity(s, item) ==> |s.identities| + NewIdentities(s, items) < MAX_TRACKED_IDENTITIES)
    && (NewCall(s, item) ==>
          && |s.pending| + |s.retired| + |s.rejected| + calls < MAX_TRACKED_IDENTITIES
          && |s.pending| + calls < MAX_PENDING_CALLS
          && |CallsOf(s.pending, rid)| + calls < MAX_CALLS_PER_RESPONSE)
    && s.pendingBytes + Extra(cfg, s, items) + ExtraBytes(cfg, s, item) <= MAX_PENDING_ARGUMENT_BYTES
  }

  lemma RoomSnoc(cfg: Config, s: Ledger, items: seq<Item>, rid: Id)
    requires items != []
    ensures var n := |items| - 1;
            Room(cfg, s, items, rid) <==> Room(cfg, s, items[..n], rid) && StepRoom(cfg, s, items[..n], items[n], rid)
  {
    hide NewBinding, NewIdentity, NewCall, ExtraBytes, CallsOf;
  }

  lemma ItemAsBefore(cfg: Config, s: Ledger, items: seq<Item>, rid: Id, l: Ledger, item: Item)
    requires Progress(cfg, s, items, rid, l) && item.Item? && NotAmong(items, item)
    ensures ItemFits(cfg, l, item, rid) <==> ItemFits(cfg, s, item, rid)
    ensures NewBinding(l, item) == NewBinding(s, item) && NewIdentity(l, item) == NewIdentity(s, item)
    ensures NewCall(l, item) == NewCall(s, item) && ExtraBytes(cfg, l, item) == ExtraBytes(cfg, s, item)
  {
    hide Find, CallsOf, NewBindings, NewIdentities, NewCalls, Extra, NameDeclared, SameShape, CallAgrees, Ids, Calls;
    if item.id.Some? {
      assert SameAt(l.itemResponses, s.itemResponses, item.id.value);
      assert SameAt(l.identities, s.identities, item.id.value);
    }
    if IsCall(item) {
      assert SameCallAt(l.pending, s.pending, item.callId.value);
    }
  }

  lemma RepeatedCallFaults(cfg: Config, s: Ledger, items: seq<Item>, rid: Id, scan: Scan, item: Item)
    requires ScanProgress(cfg, s, items, rid, scan) && IsCall(item) && item.callId.value in Calls(items)
    requires item.id.Some? && item.id.value !in Ids(items)
    ensures !ItemFits(cfg, scan.ledger, item, rid)
  {
    hide Find, Progress, Ids, Calls;
    assert item.callId.value in scan.members;
  }

  lemma StepMatches(cfg: Config, s: Ledger, items: seq<Item>, rid: Id, scan: Scan, item: Item)
    requires ScanProgress(cfg, s, items, rid, scan) && Room(cfg, s, items, rid)
    ensures StepClean(cfg, scan.ledger, scan.itemIds, item, rid) <==>
            && ItemFits(cfg, s, item, rid) && NotAmong(items, item)
            && StepRoom(cfg, s, items, item, rid)
  {
    hide ItemFits, NewBinding, NewIdentity, NewCall, ExtraBytes, MembersAre, Find, CallsOf;
    if item.Item? && NotAmong(items, item) {
      ItemAsBefore(cfg, s, items, rid, scan.ledger, item);
      CountsMatch(cfg, s, items, rid, scan.ledger, item);
    } else if item.Item? && item.id.Some? && item.id.value !in Ids(items) {
      RepeatedCallFaults(cfg, s, items, rid, scan, item);
    } else {
      FitsNeedsItem(cfg, scan.ledger, item, rid);
      FitsNeedsItem(cfg, s, item, rid);
    }
  }

  lemma FitsNeedsItem(cfg: Config, l: Ledger, item: Item, rid: Id)
    ensures ItemFits(cfg, l, item, rid) ==> item.Item? && (item.kind.FunctionCall? ==> IsCall(item) && item.id.Some?)
  {
  }

  lemma CountsMatch(cfg: Config, s: Ledger, items: seq<Item>, rid: Id, l: Ledger, item: Item)
    requires Progress(cfg, s, items, rid, l) && Room(cfg, s, items, rid) && item.Item?
    requires NewBinding(l, item) == NewBinding(s, item) && NewIdentity(l, item) == NewIdentity(s, item)
    requires NewCall(l, item) == NewCall(s, item) && ExtraBytes(cfg, l, item) == ExtraBytes(cfg, s, item)
    ensures StepRoom(cfg, s, items, item, rid) <==>
            && (NewBinding(l, item) ==> |l.itemResponses| < MAX_TRACKED_IDENTITIES)
            && (NewIdentity(l, item) ==> |l.identities| < MAX_TRACKED_IDENTITIES)
            && (item.kind.FunctionCall? ==> CallRoom(cfg, l, item, rid))
  {
    NoCallNoBytes(cfg, s, item);
    hide NewBinding, NewIdentity, NewCall, ExtraBytes, CallsOf, NewBindings, NewIdentities, NewCalls, Extra;
  }

  lemma NoCallNoBytes(cfg: Config, s: Ledger, item: Item)
    ensures item.Item? && !item.kind.FunctionCall? ==> !NewCall(s, item) && ExtraBytes(cfg, s, item) == 0
  {
  }

  lemma OneMore(cfg: Config, s: Ledger, items: seq<Item>, item: Item)
    ensures var more := items + [item];
            && Ids(more) == Ids(items) + (if item.Item? && item.id.Some? then {item.id.value} else {})
            && Calls(more) == Calls(items) + (if IsCall(item) then {item.callId.value} else {})
            && NewBindings(s, more) == NewBindings(s, items) + (if NewBinding(s, item) then 1 else 0)
            && NewIdentities(s, more) == NewIdentities(s, items) + (if NewIdentity(s, item) then 1 else 0)
            && NewCalls(s, more) == NewCalls(s, items) + (if NewCall(s, item) then 1 else 0)
            && Extra(cfg, s, more) == Extra(cfg, s, items) + ExtraBytes(cfg, s, item)
  {
    hide NewBinding, NewIdentity, NewCall, ExtraBytes, IsCall;
    assert (items + [item])[..|items|] == items;
  }

  lemma PutProgress<V>(before: map<Id, V>, after: map<Id, V>, ids: set<Id>, more: nat, id: Id, v: V)
    requires MapProgress(before, after, ids, more) && (id in after <==> id in before)
    ensures MapProgress(before, after[id := v], ids + {id}, more + if id in before then 0 else 1)
  {
    PutSize(after, id, v);
    forall other | other !in ids + {id} ensures SameAt(after[id := v], before, other) {
      assert SameAt(after[id := v], after, other) && SameAt(after, before, other);
    }
  }

  lemma ResponsesProgress(cfg: Config, s: Ledger, items: seq<Item>, rid: Id, l: Ledger, item: Item)
    requires MapProgress(s.itemResponses, l.itemResponses, Ids(items), NewBindings(s, items))
    requires item.Item? && item.id.Some? && NewBinding(l, item) == NewBinding(s, item)
    ensures var more := items + [item];
            MapProgress(s.itemResponses, l.itemResponses[item.id.value := rid], Ids(more), NewBindings(s, more))
  {
    OneMore(cfg, s, items, item);
    hide NewBindings, NewIdentities, NewCalls, Extra, ExtraBytes, Ids, Calls, MapProgress;
    PutProgress(s.itemResponses, l.itemResponses, Ids(items), NewBindings(s, items), item.id.value, rid);
  }

  lemma IdentitiesProgress(cfg: Config, s: Ledger, items: seq<Item>, l: Ledger, item: Item, known: Identity)
    requires MapProgress(s.identities, l.identities, Ids(items), NewIdentities(s, items))
    requires item.Item? && item.id.Some? && NewIdentity(l, item) == NewIdentity(s, item)
    ensures var more := items + [item];
            MapProgress(s.identities, l.identities[item.id.value := known], Ids(more), NewIdentities(s, more))
  {
    OneMore(cfg, s, items, item);
    hide NewBindings, NewIdentities, NewCalls, Extra, ExtraBytes, Ids, Calls, MapProgress;
    PutProgress(s.identities, l.identities, Ids(items), NewIdentities(s, items), item.id.value, known);
  }

  lemma NoIdProgress(cfg: Config, s: Ledger, items: seq<Item>, l: Ledger, item: Item)
    requires ItemsProgress(s, items, l) && item.Item? && item.id.None?
    ensures ItemsProgress(s, items + [item], l)
  {
    OneMore(cfg, s, items, item);
    hide NewBindings, NewIdentities, NewCalls, Extra, ExtraBytes, Ids, Calls, MapProgress;
    assert Ids(items) + {} == Ids(items);
  }

  lemma BoundProgress(cfg: Config, s: Ledger, items: seq<Item>, rid: Id, l: Ledger, item: Item)
    requires ItemsProgress(s, items, l) && item.Item?
    requires NewBinding(l, item) == NewBinding(s, item) && NewIdentity(l, item) == NewIdentity(s, item)
    ensures ItemsProgress(s, items + [item], Bound(l, item, rid))
  {
    hide NewBindings, NewIdentities, Ids, BoundIdentity, MapProgress, NewBinding, NewIdentity;
    if item.id.Some? {
      ResponsesProgress(cfg, s, items, rid, l, item);
      IdentitiesProgress(cfg, s, items, l, item, BoundIdentity(l, item.id.value, item, rid));
    } else {
      NoIdProgress(cfg, s, items, l, item);
    }
  }

  lemma CallProgress(cfg: Config, s: Ledger, items: seq<Item>, rid: Id, l: Ledger, item: Item, next: Ledger)
    requires CallsProgress(cfg, s, items, rid, l) && IsCall(item) && OneCall(cfg, l, item, rid, next)
    requires NewCall(l, item) == NewCall(s, item) && ExtraBytes(cfg, l, item) == ExtraBytes(cfg, s, item)
    ensures CallsProgress(cfg, s, items + [item], rid, next)
  {
    OneMore(cfg, s, items, item);
    hide NewBindings, NewIdentities, NewCalls, Extra, ExtraBytes, NewCall, Ids, Calls, CallsOf, Find;
    forall c | c !in Calls(items + [item]) ensures SameCallAt(next.pending, s.pending, c) {
      assert SameCallAt(next.pending, l.pending, c) && SameCallAt(l.pending, s.pending, c);
    }
  }

  lemma NoCallProgress(cfg: Config, s: Ledger, items: seq<Item>, rid: Id, l: Ledger, item: Item)
    requires CallsProgress(cfg, s, items, rid, l) && !IsCall(item)
    ensures CallsProgress(cfg, s, items + [item], rid, l)
  {
    OneMore(cfg, s, items, item);
    hide NewBindings, NewIdentities, NewCalls, Extra, Ids, Calls, CallsOf, Find;
  }

  lemma SameLedgerCalls(cfg: Config, s: Ledger, items: seq<Item>, rid: Id, l: Ledger, b: Ledger)
    requires CallsProgress(cfg, s, items, rid, l) && b.pending == l.pending && b.pendingBytes == l.pendingBytes
    ensures CallsProgress(cfg, s, items, rid, b)
  {
    hide NewCalls, Extra, Calls, CallsOf, Find;
  }

  lemma SameLedgerItems(s: Ledger, items: seq<Item>, l: Ledger, b: Ledger)
    requires ItemsProgress(s, items, l) && b.itemResponses == l.itemResponses && b.identities == l.identities
    ensures ItemsProgress(s, items, b)
  {
    hide NewBindings, NewIdentities, Ids;
  }

  lemma MembersProgress(cfg: Config, s: Ledger, items: seq<Item>, rid: Id, scan: Scan, item: Item, next: Scan)
    requires MembersAre(scan, items) && IsCall(item) && item.id.Some?
    requires next.members == scan.members[item.callId.value := item.id]
    requires SameCallsExcept(next.ledger.pending, scan.ledger.pending, item.callId.value)
    requires var known := Find(next.ledger.pending, item.callId.value);
             known.Some? && next.ledger.pending[known.value].itemId == item.id
    ensures MembersAre(next, items + [item])
  {
    OneMore(cfg, s, items, item);
    hide NewBindings, NewIdentities, NewCalls, Extra, ExtraBytes, Ids, Calls, Find;
    forall c <- next.members | c != item.callId.value
      ensures c in scan.members && SameCallAt(next.ledger.pending, scan.ledger.pending, c)
    {
    }
  }

  lemma NoMembersProgress(cfg: Config, s: Ledger, items: seq<Item>, scan: Scan, item: Item, next: Scan)
    requires MembersAre(scan, items) && !IsCall(item)
    requires next.members == scan.members && next.ledger.pending == scan.ledger.pending
    ensures MembersAre(next, items + [item])
  {
    OneMore(cfg, s, items, item);
    hide NewBindings, NewIdentities, NewCalls, Extra, ExtraBytes, Ids, Calls, Find;
  }

  /** The call of a function item is pending under the id of the item. */
  lemma IngestedId(cfg: Config, l: Ledger, item: Item, rid: Id)
    requires IsCall(item) && item.id.Some? && Ingest(cfg, l, item, rid, true).Done?
    ensures var next := Ingest(cfg, l, item, rid, true).ledger;
            var known := Find(next.pending, item.callId.value);
            known.Some? && next.pending[known.value].itemId == item.id
  {
    IngestIndex(cfg, l, item, rid);
    var next := Ingest(cfg, l, item, rid, true);
    hide Ingest, Find;
    var p := next.ledger.pending[next.value];
    if next.value < |l.pending| {
      FindUpdate(l.pending, next.value, p, item.callId.value);
    } else {
      FindLast(l.pending, p);
    }
  }

  lemma FindLast(pending: seq<PendingCall>, p: PendingCall)
    ensures Find(pending + [p], p.callId) == Some(|pending|)
  {
  }

  lemma PlainStep(cfg: Config, s: Ledger, items: seq<Item>, rid: Id, scan: Scan, item: Item)
    requires ScanProgress(cfg, s, items, rid, scan) && item.Item? && !IsCall(item) && NotAmong(items, item)
    ensures ScanProgress(cfg, s, items + [item], rid, Stepped(cfg, scan, item, rid))
  {
    hide ItemFits, CallRoom, ItemsProgress, CallsProgress, MembersAre, NewBinding, NewIdentity, NewCall, ExtraBytes;
    hide Bound, Ids, IsCall;
    var next := Stepped(cfg, scan, item, rid);
    ItemAsBefore(cfg, s, items, rid, scan.ledger, item);
    BoundCalls(cfg, scan.ledger, item, rid);
    BoundProgress(cfg, s, items, rid, scan.ledger, item);
    NoCallProgress(cfg, s, items, rid, scan.ledger, item);
    SameLedgerCalls(cfg, s, items + [item], rid, scan.ledger, next.ledger);
    NoMembersProgress(cfg, s, items, scan, item, next);
    NotedIds(cfg, s, items, scan, item);
  }

  lemma NotedIds(cfg: Config, s: Ledger, items: seq<Item>, scan: Scan, item: Item)
    requires item.Item? && scan.itemIds == Ids(items)
    ensures Noted(scan, item).itemIds == Ids(items + [item])
  {
    OneMore(cfg, s, items, item);
    hide NewBindings, NewIdentities, NewCalls, Extra, ExtraBytes, Ids, Calls;
  }

  lemma SameCallCounts(cfg: Config, l: Ledger, b: Ledger, item: Item)
    requires b.pending == l.pending
    ensures NewCall(b, item) == NewCall(l, item) && ExtraBytes(cfg, b, item) == ExtraBytes(cfg, l, item)
  {
  }

  lemma CallStep(cfg: Config, s: Ledger, items: seq<Item>, rid: Id, scan: Scan, item: Item)
    requires ScanProgress(cfg, s, items, rid, scan) && IsCall(item) && item.id.Some? && NotAmong(items, item)
    requires Ingest(cfg, Bound(scan.ledger, item, rid), item, rid, true).Done?
    ensures ScanProgress(cfg, s, items + [item], rid, Stepped(cfg, scan, item, rid))
  {
    var l, b, next := scan.ledger, Bound(scan.ledger, item, rid), Stepped(cfg, scan, item, rid);
    ItemAsBefore(cfg, s, items, rid, l, item);
    BoundCalls(cfg, l, item, rid);
    hide ItemFits, CallFits, CallRoom, ItemsProgress, CallsProgress, MembersAre, NewBinding, NewIdentity, NewCall;
    hide Bound, Ids, Ingest, ExtraBytes, Find, SameCallsExcept, CallsOf, Charged, Upserted;
    BoundProgress(cfg, s, items, rid, l, item);
    SameLedgerCalls(cfg, s, items, rid, l, b);
    SameCallCounts(cfg, l, b, item);
    IngestEffect(cfg, b, item, rid);
    CallProgress(cfg, s, items, rid, b, item, next.ledger);
    SameLedgerItems(s, items + [item], b, next.ledger);
    IngestedId(cfg, b, item, rid);
    MembersProgress(cfg, s, items, rid, scan, item, next);
    NotedIds(cfg, s, items, scan, item);
  }

  lemma StepProgress(cfg: Config, s: Ledger, items: seq<Item>, rid: Id, scan: Scan, item: Item)
    requires ScanProgress(cfg, s, items, rid, scan) && NotAmong(items, item)
    requires StepClean(cfg, scan.ledger, scan.itemIds, item, rid)
    ensures ScanProgress(cfg, s, items + [item], rid, Stepped(cfg, scan, item, rid))
  {
    hide ScanProgress, NotAmong, Ingest, CallRoom, CallFits, Bound, BindingAgrees, IdentityAgrees;
    FitsNeedsItem(cfg, scan.ledger, item, rid);
    if item.kind.FunctionCall? {
      BoundCalls(cfg, scan.ledger, item, rid);
      IngestIff(cfg, Bound(scan.ledger, item, rid), item, rid);
      CallStep(cfg, s, items, rid, scan, item);
    } else {
      PlainStep(cfg, s, items, rid, scan, item);
    }
  }

  lemma NoProgress(cfg: Config, s: Ledger, rid: Id)
    requires !s.poisoned && s.pendingBytes <= MAX_PENDING_ARGUMENT_BYTES
    ensures ScanProgress(cfg, s, [], rid, Scan(s, {}, map[], false, [])) && OutputFits(cfg, s, [], rid)
  {
    hide Find, CallsOf;
  }

  /**
   * The pass over the items of a completed response, which binds, admits and extends as it goes, meets no fault exactly
   * when each item fits what was known before it, no two items collide, and there is room for all of them.
   */
  lemma {:induction false} PassIsClean(cfg: Config, s: Ledger, items: seq<Item>, rid: Id)
    requires !s.poisoned && s.pendingBytes <= MAX_PENDING_ARGUMENT_BYTES
    ensures var scan := ScanItems(cfg, Scan(s, {}, map[], false, []), items, rid);
            && (scan.errors == [] <==> OutputFits(cfg, s, items, rid))
            && (scan.errors == [] ==> ScanProgress(cfg, s, items, rid, scan))
  {
    hide ScanItem, ScanProgress, OutputFits, StepClean, Room, StepRoom, ItemFits, NotAmong, Stepped;
    if items == [] {
      NoProgress(cfg, s, rid);
    } else {
      var n := |items| - 1;
      var scan := ScanItems(cfg, Scan(s, {}, map[], false, []), items[..n], rid);
      PassIsClean(cfg, s, items[..n], rid);
      ErrorsStay(cfg, scan, items[n], rid);
      FitsSnoc(cfg, s, items, rid);
      if scan.errors == [] {
        PassStep(cfg, s, items, rid, scan);
      }
    }
  }

  lemma ErrorsStay(cfg: Config, scan: Scan, item: Item, rid: Id)
    ensures scan.errors != [] ==> ScanItem(cfg, scan, item, rid).errors != []
  {
    hide ScanItem;
  }

  lemma FitsHasRoom(cfg: Config, s: Ledger, items: seq<Item>, rid: Id)
    requires OutputFits(cfg, s, items, rid)
    ensures Room(cfg, s, items, rid)
  {
  }

  lemma PassStep(cfg: Config, s: Ledger, items: seq<Item>, rid: Id, scan: Scan)
    requires items != [] && ScanProgress(cfg, s, items[..|items| - 1], rid, scan)
    requires OutputFits(cfg, s, items[..|items| - 1], rid) && scan.errors == []
    ensures var next := ScanItem(cfg, scan, items[|items| - 1], rid);
            && (next.errors == [] <==> OutputFits(cfg, s, items, rid))
            && (next.errors == [] ==> ScanProgress(cfg, s, items, rid, next))
  {
    var n := |items| - 1;
    var before, item := items[..n], items[n];
    hide ScanItem, ScanProgress, OutputFits, StepClean, Room, StepRoom, ItemFits, NotAmong, Stepped, Apart;
    FitsHasRoom(cfg, s, before, rid);
    ScanItemIff(cfg, scan, item, rid);
    StepMatches(cfg, s, before, rid, scan, item);
    RoomSnoc(cfg, s, items, rid);
    FitsSnoc(cfg, s, items, rid);
    if StepClean(cfg, scan.ledger, scan.itemIds, item, rid) {
      StepProgress(cfg, s, before, rid, scan, item);
      LastJoins(items);
    }
  }

  lemma LastJoins(items: seq<Item>)
    requires items != []
    ensures items[..|items| - 1] + [items[|items| - 1]] == items
  {
  }
}
