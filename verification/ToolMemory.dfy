/** What an unsealed adapter holds of the frames: the first thing each said of its session, response, item or call. */
module ToolMemory {
  import opened Common
  import opened ToolLedger
  import opened ToolRuns
  import opened ToolHistory
  import opened ToolVerdict
  import opened ToolNaming
  import opened ToolDropped
  import opened ToolReplies

  // First words

  datatype Memo = Memo(
    ack: Option<Id>, starts: map<Id, Id>, marks: map<Id, Terminal>, items: map<ItemKey, Item>,
    arguments: map<Id, Signature>, cuts: map<Id, Id>)

  /** The first value given to a key stands. */
  function Once<K, V>(m: map<K, V>, k: K, v: V): map<K, V> {
    if k in m then m else m[k := v]
  }

  function Memorized(m: Memo, w: Wire): Memo {
    match w
    case SessionUpdated(ack, _) => if m.ack.Some? then m else m.(ack := Some(ack))
    case ResponseCreated(rid, content) => m.(starts := Once(m.starts, rid, content))
    case ItemEvent(rid, item, done) =>
      if rid in m.marks || item.Garbled? || item.id.None? then m
      else m.(items := Once(m.items, ItemKey(done, rid, item.id.value), item))
    case ArgumentsDone(rid, itemId, callId, name, args) =>
      if rid in m.marks then m else m.(arguments := Once(m.arguments, callId, Signature(rid, itemId, name, args)))
    case ResponseCancelled(rid) => m.(marks := Once(m.marks, rid, CancelledMark))
    case ResponseDone(rid, _, _, _) => m.(marks := Once(m.marks, rid, TerminalOf(w)))
    case Truncated(_, Some(itemId), content) => m.(cuts := Once(m.cuts, itemId, content))
    case _ => m
  }

  /** What the inputs said first; an interruption cancels its response if that is open. */
  ghost function MemoOf(cfg: Config, size: nat, inputs: seq<Input>): Memo {
    if inputs == [] then Memo(None, map[], map[], map[], map[], map[])
    else
      var n := |inputs| - 1;
      var m := MemoOf(cfg, size, inputs[..n]);
      match inputs[n]
      case Frame(_, w) => Memorized(m, w)
      case Interrupt(rid) =>
        if Endable(cfg, size, inputs, n, rid) then m.(marks := Once(m.marks, rid, CancelledMark)) else m
      case SubmitOutputs(_) => m
  }

  /** The ledgers hold exactly the first words. */
  ghost predicate Recalls(s: Ledger, m: Memo) {
    && s.sessionAck == m.ack && (s.sessionReady <==> m.ack.Some?)
    && s.starts == m.starts && s.terminals == m.marks && s.outputItems == m.items
    && s.argumentDone == m.arguments && s.truncations == m.cuts
  }

  // Handlers

  lemma NewItemRest(cfg: Config, s: Ledger, w: Wire)
    requires w.ItemEvent? && NoteItem(cfg, s, w.rid, w.item, w.done).Done?
    requires ItemKey(w.done, w.rid, w.item.id.value) !in s.outputItems
    ensures SameRest(s.(outputItems := s.outputItems[ItemKey(w.done, w.rid, w.item.id.value) := w.item]),
                     NoteItem(cfg, s, w.rid, w.item, w.done).ledger)
  {
    var id, item := w.item.id.value, w.item;
    var noted := s.(outputItems := s.outputItems[ItemKey(w.done, w.rid, id) := item]);
    BindIdentityItems(noted, id, item, w.rid);
    var bound := BindIdentity(noted, id, item, w.rid).ledger;
    ItemsRest(noted, noted.itemResponses, bound.identities);
    IngestRest(cfg, bound, item, w.rid, w.done);
    hide BindIdentity, Ingest, Upserted, Charged, Quiet;
  }

  lemma NoteItemRecalls(cfg: Config, s: Ledger, w: Wire, m: Memo)
    requires w.ItemEvent? && NoteItem(cfg, s, w.rid, w.item, w.done).Done? && Recalls(s, m) && w.rid !in s.terminals
    ensures Recalls(NoteItem(cfg, s, w.rid, w.item, w.done).ledger, Memorized(m, w))
  {
    hide NoteItem, Quiet;
    if ItemKey(w.done, w.rid, w.item.id.value) in s.outputItems {
      NoteItemAgain(cfg, s, w.rid, w.item, w.done);
    } else {
      NewItemRest(cfg, s, w);
    }
  }

  lemma NewArgumentsRest(cfg: Config, s: Ledger, w: Wire)
    requires w.ArgumentsDone? && CompleteArguments(cfg, s, w).Done? && w.callId !in s.argumentDone
    ensures var signature := Signature(w.rid, w.itemId, w.name, w.args);
            SameRest(s.(argumentDone := s.argumentDone[w.callId := signature]), CompleteArguments(cfg, s, w).ledger)
  {
    var noted := s.(argumentDone := s.argumentDone[w.callId := Signature(w.rid, w.itemId, w.name, w.args)]);
    UpsertRest(cfg, noted, ArgumentsUpdate(w));
    hide Upsert, Upserted, Charged, Quiet;
  }

  lemma ArgumentsRecalls(cfg: Config, s: Ledger, w: Wire, m: Memo)
    requires w.ArgumentsDone? && CompleteArguments(cfg, s, w).Done? && Recalls(s, m) && w.rid !in s.terminals
    ensures Recalls(CompleteArguments(cfg, s, w).ledger, Memorized(m, w))
  {
    ArgumentsAnnounced(cfg, s, w);
    hide Quiet, CompleteArguments;
    if w.callId !in s.argumentDone {
      NewArgumentsRest(cfg, s, w);
    }
  }

  lemma CancelRecalls(cfg: Config, s: Ledger, w: Wire, m: Memo)
    requires w.ArgumentsCancelled? && CancelArguments(cfg, s, w.rid, w.callId).Done? && Recalls(s, m)
    ensures Recalls(CancelArguments(cfg, s, w.rid, w.callId).ledger, m)
  {
    UpsertRest(cfg, s, CancelUpdate(w.callId, w.rid));
    hide Upsert, Upserted, Charged, Quiet;
  }

  lemma RetireRest(cfg: Config, s: Ledger, rid: Id)
    ensures SameRest(s, Retire(cfg, s, rid).(retired := s.retired))
  {
    RetireGrows(cfg, s, rid);
    hide Retire;
  }

  /** What ending a response leaves of the first words. */
  lemma EndRest(cfg: Config, marked: Ledger, w: Wire)
    requires w.ResponseDone?
    ensures var t := EndResponse(cfg, marked, w).ledger;
            SameRest(marked, t.(retired := marked.retired, authorizations := marked.authorizations))
  {
    hide ScanItems, Decide, EndWithoutRelease;
    if w.output.Some? && |w.output.value| <= MAX_OUTPUT_ITEMS && w.status == Completed {
      PassRest(cfg, Scan(marked, {}, map[], false, []), w.output.value, w.rid);
      DecideRest(cfg, Scanned(cfg, marked, w), w.rid);
    } else {
      UnreleasedRest(cfg, marked, w, true);
      UnreleasedRest(cfg, marked, w, w.status == Unknown);
    }
  }

  lemma DecideRest(cfg: Config, scan: Scan, rid: Id)
    ensures var t := Decide(cfg, scan, rid).ledger;
            SameRest(scan.ledger, t.(retired := scan.ledger.retired, authorizations := scan.ledger.authorizations))
  {
    RetireRest(cfg, scan.ledger, rid);
    hide Retire, CallsOf, AllReady, Judge, Dropped, CallErrors, Authorized;
  }

  lemma UnreleasedRest(cfg: Config, marked: Ledger, w: Wire, fatal: bool)
    requires w.ResponseDone?
    ensures var t := EndWithoutRelease(cfg, marked, w, fatal).ledger;
            SameRest(marked, t.(retired := marked.retired, authorizations := marked.authorizations))
  {
    RetireRest(cfg, marked, w.rid);
    hide Retire, CallsOf, Dropped;
  }

  /** What ends a response adds its mark to the first words. */
  lemma MarkRecalls(s: Ledger, t: Ledger, rid: Id, mark: Terminal, m: Memo)
    requires Recalls(s, m) && rid !in s.terminals
    requires SameRest(s.(terminals := s.terminals[rid := mark]),
                      t.(retired := s.retired, authorizations := s.authorizations))
    ensures Recalls(t, m.(marks := Once(m.marks, rid, mark)))
  {
  }

  lemma EndedAgain(cfg: Config, s: Ledger, w: Wire)
    requires w.ResponseDone? && CompleteResponse(cfg, s, w).Done?
    ensures CompleteResponse(cfg, s, w).ledger ==
            if w.rid in s.terminals then s
            else EndResponse(cfg, s.(terminals := s.terminals[w.rid := TerminalOf(w)]), w).ledger
  {
    hide EndResponse;
  }

  lemma EndRecalls(cfg: Config, s: Ledger, w: Wire, m: Memo)
    requires w.ResponseDone? && CompleteResponse(cfg, s, w).Done? && Recalls(s, m)
    ensures Recalls(CompleteResponse(cfg, s, w).ledger, Memorized(m, w))
  {
    EndedAgain(cfg, s, w);
    hide EndResponse, CompleteResponse, SameRest, TerminalOf;
    if w.rid !in s.terminals {
      EndRest(cfg, s.(terminals := s.terminals[w.rid := TerminalOf(w)]), w);
      MarkRecalls(s, CompleteResponse(cfg, s, w).ledger, w.rid, TerminalOf(w), m);
      hide Recalls;
    }
  }

  lemma CancelResponseRecalls(cfg: Config, s: Ledger, rid: Id, m: Memo)
    requires CancelResponse(cfg, s, rid).Done? && Recalls(s, m)
    ensures Recalls(CancelResponse(cfg, s, rid).ledger, m.(marks := Once(m.marks, rid, CancelledMark)))
  {
    RetireRest(cfg, s.(terminals := s.terminals[rid := CancelledMark]), rid);
    hide Retire, CallsOf, Dropped;
  }

  lemma SessionRecalls(s: Ledger, w: Wire, m: Memo)
    requires w.SessionUpdated? && SessionAck(s, w.ack, w.accepted).Done? && Recalls(s, m)
    ensures Recalls(SessionAck(s, w.ack, w.accepted).ledger, Memorized(m, w))
  {
  }

  lemma StartRecalls(s: Ledger, w: Wire, m: Memo)
    requires w.ResponseCreated? && StartResponse(s, w.rid, w.content).Done? && Recalls(s, m)
    ensures Recalls(StartResponse(s, w.rid, w.content).ledger, Memorized(m, w))
  {
  }

  lemma TruncationRecalls(s: Ledger, w: Wire, m: Memo)
    requires w.Truncated? && AcknowledgeTruncation(s, w).Done? && Recalls(s, m)
    ensures Recalls(AcknowledgeTruncation(s, w).ledger, Memorized(m, w))
  {
  }

  lemma HandleRecalls(cfg: Config, s: Ledger, w: Wire, m: Memo)
    requires Handle(cfg, s, w).Done? && Recalls(s, m)
    requires (w.ItemEvent? || w.ArgumentsDone?) ==> w.rid !in s.terminals
    ensures Recalls(Handle(cfg, s, w).ledger, Memorized(m, w))
  {
    hide NoteItem, CompleteArguments, CancelArguments, CompleteResponse, CancelResponse, SessionAck, StartResponse;
    hide AcknowledgeTruncation, Quiet, Recalls, Once;
    match w
    case SessionUpdated(_, _) => SessionRecalls(s, w, m);
    case ResponseCreated(_, _) => StartRecalls(s, w, m);
    case ItemEvent(_, _, _) => NoteItemRecalls(cfg, s, w, m);
    case ArgumentsDone(_, _, _, _, _) => ArgumentsRecalls(cfg, s, w, m);
    case ArgumentsCancelled(_, _) => CancelRecalls(cfg, s, w, m);
    case Truncated(_, _, _) => TruncationRecalls(s, w, m);
    case ResponseCancelled(rid) => CancelResponseRecalls(cfg, s, rid, m);
    case ResponseDone(_, _, _, _) => EndRecalls(cfg, s, w, m);
    case _ =>
  }

  /** A frame for a closed response says nothing that was not said. */
  lemma StaleSaysNothing(s: Ledger, w: Wire, m: Memo)
    requires Admit(s, w).Done? && !Admit(s, w).value && Recalls(s, m) && s.terminals.Keys <= s.starts.Keys
    ensures Memorized(m, w) == m
  {
    hide Admit, Recalls;
    assert GoesStale(w);
    RecallsMarks(s, m);
  }

  lemma RecallsMarks(s: Ledger, m: Memo)
    requires Recalls(s, m)
    ensures m.marks == s.terminals && m.starts == s.starts
  {
  }

  lemma AdmitRecalls(s: Ledger, w: Wire, m: Memo)
    requires Admit(s, w).Done? && Recalls(s, m)
    ensures Recalls(Admit(s, w).ledger, m) && Admit(s, w).ledger.terminals == s.terminals
  {
    hide Admit;
  }

  lemma ProcessRecalls(cfg: Config, s: Ledger, w: Wire, m: Memo)
    requires !s.poisoned && !Process(cfg, s, w).0.poisoned && Recalls(s, m) && s.terminals.Keys <= s.starts.Keys
    ensures Recalls(Process(cfg, s, w).0, Memorized(m, w))
  {
    hide Admit, Handle, Recalls, Memorized;
    var admitted := Admit(s, w).ledger;
    AdmitRecalls(s, w, m);
    if Admit(s, w).value {
      HandleRecalls(cfg, admitted, w, m);
    } else {
      StaleSaysNothing(s, w, m);
    }
  }

  // Runs

  /** The frame says nothing new. */
  predicate Settled(m: Memo, w: Wire) {
    match w
    case SessionUpdated(_, _) => m.ack.Some?
    case ResponseCreated(rid, _) => rid in m.starts
    case ItemEvent(rid, item, done) =>
      rid in m.marks || item.Garbled? || item.id.None? || ItemKey(done, rid, item.id.value) in m.items
    case ArgumentsDone(rid, _, callId, _, _) => rid in m.marks || callId in m.arguments
    case ResponseCancelled(rid) => rid in m.marks
    case ResponseDone(rid, _, _, _) => rid in m.marks
    case Truncated(_, Some(itemId), _) => itemId in m.cuts
    case _ => true
  }

  lemma SettledSame(m: Memo, w: Wire)
    requires Settled(m, w)
    ensures Memorized(m, w) == m
  {
  }

  lemma SettledNow(m: Memo, w: Wire)
    ensures Settled(Memorized(m, w), w)
  {
  }

  ghost predicate Wider(m: Memo, n: Memo) {
    && (m.ack.Some? ==> n.ack.Some?) && m.starts.Keys <= n.starts.Keys && m.marks.Keys <= n.marks.Keys
    && m.items.Keys <= n.items.Keys && m.arguments.Keys <= n.arguments.Keys && m.cuts.Keys <= n.cuts.Keys
  }

  lemma MemorizedWider(m: Memo, w: Wire)
    ensures Wider(m, Memorized(m, w))
  {
  }

  lemma SettledStays(m: Memo, n: Memo, w: Wire)
    requires Settled(m, w) && Wider(m, n)
    ensures Settled(n, w)
  {
  }

  ghost predicate Attends(a: Adapter, m: Memo) {
    Recalls(a.ledger, m) && forall e <- a.window :: Settled(m, e.wire)
  }

  lemma FrameRecalls(cfg: Config, size: nat, a: Adapter, eventId: Option<Id>, w: Wire, m: Memo)
    requires Attends(a, m) && !a.ledger.poisoned && !Normalize(cfg, size, a, eventId, w).0.ledger.poisoned
    requires a.ledger.terminals.Keys <= a.ledger.starts.Keys
    ensures Attends(Normalize(cfg, size, a, eventId, w).0, Memorized(m, w))
  {
    hide Recalls, Settled, Memorized, Process;
    var t := Normalize(cfg, size, a, eventId, w).0;
    if eventId.Some? && Recorded(a.window, eventId.value) == Some(w) {
      SettledSame(m, w);
    } else {
      ProcessRecalls(cfg, a.ledger, w, m);
      SettledNow(m, w);
      MemorizedWider(m, w);
      forall e <- t.window ensures Settled(Memorized(m, w), e.wire) {
        if e in a.window {
          SettledStays(m, Memorized(m, w), e.wire);
        }
      }
    }
  }

  lemma InterruptRecalls(cfg: Config, a: Adapter, rid: Id, m: Memo)
    requires Attends(a, m) && InterruptResponse(cfg, a.ledger, rid).Done?
    ensures Attends(a.(ledger := InterruptResponse(cfg, a.ledger, rid).ledger),
                    m.(marks := Once(m.marks, rid, CancelledMark)))
  {
    var n := m.(marks := Once(m.marks, rid, CancelledMark));
    CancelResponseRecalls(cfg, a.ledger, rid, m);
    hide Recalls, Settled, CancelResponse;
    forall e <- a.window ensures Settled(n, e.wire) {
      SettledStays(m, n, e.wire);
    }
  }

  /** An interruption is accepted exactly when its response can be ended. */
  lemma InterruptIffEndable(cfg: Config, size: nat, inputs: seq<Input>, k: nat, rid: Id)
    requires k <= |inputs| && !After(cfg, size, inputs[..k]).ledger.poisoned
    ensures InterruptResponse(cfg, After(cfg, size, inputs[..k]).ledger, rid).Done? <==>
            Endable(cfg, size, inputs, k, rid)
  {
    var s := After(cfg, size, inputs[..k]).ledger;
    UnsealedIff(cfg, size, inputs, k);
    LedgerKnows(cfg, size, inputs[..k]);
    StartedIsReady(s, rid);
    if rid !in s.terminals {
      CancelReports(cfg, s, rid);
    }
    hide After, Unsealed, StartedBy, ClosedBy, CancelResponse, SessionKept, Names;
  }

  lemma SubmitRecalls(a: Adapter, ids: seq<Id>, m: Memo)
    requires Attends(a, m) && Submit(a.ledger, ids).Done?
    ensures Attends(a.(ledger := Submit(a.ledger, ids).ledger), m)
  {
    hide Distinct, Settled;
  }

  lemma NothingRecalled(cfg: Config, size: nat)
    ensures Attends(After(cfg, size, []), MemoOf(cfg, size, []))
  {
  }

  /** An unsealed adapter holds exactly the first words of its inputs. */
  lemma {:induction false} RunRecalls(cfg: Config, size: nat, inputs: seq<Input>)
    requires !After(cfg, size, inputs).ledger.poisoned
    ensures Attends(After(cfg, size, inputs), MemoOf(cfg, size, inputs))
  {
    hide Attends, Normalize, InterruptResponse, Submit, Memorized, Endable, OutputsAt;
    if inputs == [] {
      NothingRecalled(cfg, size);
    } else {
      var n := |inputs| - 1;
      var a, m := After(cfg, size, inputs[..n]), MemoOf(cfg, size, inputs[..n]);
      RunGrows(cfg, size, inputs, n);
      RunRecalls(cfg, size, inputs[..n]);
      LedgerKnows(cfg, size, inputs[..n]);
      match inputs[n]
      case Frame(eventId, w) => FrameRecalls(cfg, size, a, eventId, w, m);
      case Interrupt(rid) =>
        InterruptIffEndable(cfg, size, inputs, n, rid);
        if InterruptResponse(cfg, a.ledger, rid).Done? {
          InterruptRecalls(cfg, a, rid, m);
        }
      case SubmitOutputs(ids) =>
        if Submit(a.ledger, ids).Done? {
          SubmitRecalls(a, ids, m);
        }
    }
  }
}
