/** The provider adapter as an object: its ledgers updated in place, proved against the value-level ledgers. */
module ToolAdapter {
  import opened Common
  import opened ToolLedger

  lemma NoCalls(cfg: Config, pending: seq<PendingCall>, rid: Id, retired: map<Id, Id>)
    ensures CallsOf(pending[..0], rid) == [] && Others(pending[..0], rid) == []
    ensures RetiredWith(retired, []) == retired && SumArgs(cfg, []) == 0
  {
  }

  /** What one more pending call adds to the calls of a response or to the others. */
  lemma OneMorePending(pending: seq<PendingCall>, i: nat, rid: Id)
    requires i < |pending|
    ensures var p, calls, others := pending[i], CallsOf(pending[..i], rid), Others(pending[..i], rid);
            && CallsOf(pending[..i + 1], rid) == (if p.rid == rid then calls + [p] else calls)
            && Others(pending[..i + 1], rid) == (if p.rid == rid then others else others + [p])
  {
    assert pending[..i + 1][..i] == pending[..i];
    assert CallsOf(pending[..i], rid) + [] == CallsOf(pending[..i], rid);
    assert Others(pending[..i], rid) + [] == Others(pending[..i], rid);
  }

  lemma OneMoreRetired(cfg: Config, calls: seq<PendingCall>, p: PendingCall, retired: map<Id, Id>)
    ensures RetiredWith(retired, calls + [p]) == RetiredWith(retired, calls)[p.callId := p.rid]
    ensures SumArgs(cfg, calls + [p]) == SumArgs(cfg, calls) + ArgsBytes(cfg, p.args)
  {
    assert (calls + [p])[..|calls|] == calls;
  }

  predicate Named(calls: seq<PendingCall>) {
    forall i :: 0 <= i < |calls| ==> calls[i].name.Some? && calls[i].args.Some?
  }

  lemma NoneJudged(cfg: Config, calls: seq<PendingCall>, members: map<Id, Option<Id>>)
    ensures AllReady(cfg, calls[..0], members) && CallErrors(cfg, calls[..0], members) == []
    ensures Release(calls[..0]) == []
    ensures AllReady(cfg, calls, members) ==> Named(calls)
  {
  }

  /** What judging one more call adds. */
  lemma OneMoreJudged(cfg: Config, calls: seq<PendingCall>, i: nat, members: map<Id, Option<Id>>)
    requires i < |calls|
    ensures var verdict := Judge(cfg, calls[i], members);
            && (AllReady(cfg, calls[..i + 1], members) <==> AllReady(cfg, calls[..i], members) && verdict == ReadyToRun)
            && CallErrors(cfg, calls[..i + 1], members) == CallErrors(cfg, calls[..i], members) +
               (match verdict
                case NotInOutput => [ProtocolError(true)]
                case BadArguments => [ProtocolError(false)]
                case _ => [])
            && (verdict == ReadyToRun ==> calls[i].name.Some? && calls[i].args.Some?)
            && (verdict == ReadyToRun && Named(calls[..i]) ==>
                  && Named(calls[..i + 1])
                  && Release(calls[..i + 1]) == Release(calls[..i]) +
                     [ReadyCall(calls[i].callId, calls[i].itemId, calls[i].name.value, calls[i].args.value)])
  {
    assert calls[..i + 1][..i] == calls[..i];
    assert calls[..i + 1] == calls[..i] + [calls[i]];
  }

  class ProviderAdapter {
    const cfg: Config
    const windowSize: nat
    var window: seq<Seen>
    var ledger: Ledger

    function Value(): Adapter
      reads this
    {
      Adapter(window, ledger)
    }

    constructor (cfg: Config, windowSize: nat)
      ensures Value() == Adapter([], NewLedger()) && this.cfg == cfg && this.windowSize == windowSize
    {
      this.cfg, this.windowSize := cfg, windowSize;
      window, ledger := [], NewLedger();
    }

    method CallsOfResponse(rid: Id) returns (calls: seq<PendingCall>)
      ensures calls == CallsOf(ledger.pending, rid)
    {
      calls := [];
      var i := 0;
      while i < |ledger.pending|
        invariant 0 <= i <= |ledger.pending|
        invariant calls == CallsOf(ledger.pending[..i], rid)
      {
        assert ledger.pending[..i + 1][..i] == ledger.pending[..i];
        if ledger.pending[i].rid == rid {
          calls := calls + [ledger.pending[i]];
        }
        i := i + 1;
      }
      assert ledger.pending[..i] == ledger.pending;
    }

    /** Moves the calls of a response from the pending to the retired ledger, in their order. */
    method RetirePendingCalls(rid: Id) returns (calls: seq<PendingCall>)
      modifies this`ledger
      ensures calls == CallsOf(old(ledger).pending, rid)
      ensures ledger == Retire(cfg, old(ledger), rid)
    {
      hide CallsOf, Others, RetiredWith, SumArgs;
      var pending := ledger.pending;
      var kept, retired, bytes := [], ledger.retired, ledger.pendingBytes;
      calls := [];
      NoCalls(cfg, pending, rid, ledger.retired);
      var i := 0;
      while i < |pending|
        invariant 0 <= i <= |pending| && ledger == old(ledger)
        invariant calls == CallsOf(pending[..i], rid) && kept == Others(pending[..i], rid)
        invariant retired == RetiredWith(ledger.retired, calls)
        invariant bytes == ledger.pendingBytes - SumArgs(cfg, calls)
      {
        var call := pending[i];
        OneMorePending(pending, i, rid);
        OneMoreRetired(cfg, calls, call, ledger.retired);
        if call.rid == rid {
          bytes := bytes - ArgsBytes(cfg, call.args);
          retired := retired[call.callId := rid];
          calls := calls + [call];
        } else {
          kept := kept + [call];
        }
        i := i + 1;
      }
      assert pending[..i] == pending;
      if bytes < 0 { bytes := 0; }
      ledger := ledger.(pending := kept, retired := retired, pendingBytes := bytes);
    }

    /** The pass over the items of a terminal response. */
    method ScanTerminalOutput(output: seq<Item>, rid: Id) returns (scan: Scan)
      modifies this`ledger
      ensures scan == ScanItems(cfg, Scan(old(ledger), {}, map[], false, []), output, rid) && ledger == scan.ledger
    {
      scan := Scan(ledger, {}, map[], false, []);
      ghost var start := scan;
      var i := 0;
      while i < |output|
        invariant 0 <= i <= |output|
        invariant scan == ScanItems(cfg, start, output[..i], rid) && ledger == scan.ledger
      {
        assert output[..i + 1][..i] == output[..i];
        scan := ScanItem(cfg, scan, output[i], rid);
        ledger := scan.ledger;
        i := i + 1;
      }
      assert output[..i] == output;
    }

    /** The pass over the pending calls of a completed response. */
    method JudgeCalls(calls: seq<PendingCall>, members: map<Id, Option<Id>>)
      returns (ready: seq<ReadyCall>, invalid: bool, errors: seq<Output>, missing: bool)
      ensures invalid == !AllReady(cfg, calls, members)
      ensures !invalid ==> ready == Release(calls)
      ensures errors == CallErrors(cfg, calls, members)
      ensures missing == exists i :: 0 <= i < |calls| && Judge(cfg, calls[i], members) == NotInOutput
    {
      hide AllReady, CallErrors;
      NoneJudged(cfg, calls, members);
      ready, invalid, errors, missing := [], false, [], false;
      var i := 0;
      while i < |calls|
        invariant 0 <= i <= |calls|
        invariant invalid == !AllReady(cfg, calls[..i], members)
        invariant !invalid ==> Named(calls[..i]) && ready == Release(calls[..i])
        invariant errors == CallErrors(cfg, calls[..i], members)
        invariant missing == exists k :: 0 <= k < i && Judge(cfg, calls[k], members) == NotInOutput
      {
        OneMoreJudged(cfg, calls, i, members);
        match Judge(cfg, calls[i], members) {
          case Unfinished => invalid := true;
          case NotInOutput => invalid, missing, errors := true, true, errors + [ProtocolError(true)];
          case BadArguments => invalid, errors := true, errors + [ProtocolError(false)];
          case ReadyToRun =>
            ready := ready + [ReadyCall(calls[i].callId, calls[i].itemId, calls[i].name.value, calls[i].args.value)];
        }
        i := i + 1;
      }
      assert calls[..i] == calls;
    }

    /** The end of a response: the loops above decide exactly what the value-level ledgers decide. */
    method EndOfResponse(w: Wire) returns (outputs: seq<Output>)
      requires w.ResponseDone?
      modifies this`ledger
      ensures Done(ledger, outputs) == EndResponse(cfg, old(ledger), w)
    {
      hide Retire, ScanItems, CallsOf, AllReady, CallErrors, Judge;
      if w.output.None? || |w.output.value| > MAX_OUTPUT_ITEMS || w.status != Completed {
        var fatal := w.output.None? || |w.output.value| > MAX_OUTPUT_ITEMS || w.status == Unknown;
        var dropped := RetirePendingCalls(w.rid);
        ledger := ledger.(poisoned := ledger.poisoned || fatal);
        outputs := (if fatal then [ProtocolError(true)] else []) + Dropped(w.rid, dropped) +
                   [ResponseEnded(w.rid, w.status, false)];
        assert fatal ==> EndResponse(cfg, old(ledger), w) == EndWithoutRelease(cfg, old(ledger), w, true);
        RetireSeal(cfg, old(ledger), w.rid);
      } else {
        var scan := ScanTerminalOutput(w.output.value, w.rid);
        var calls := CallsOfResponse(w.rid);
        var ready, invalid, errors, missing := JudgeCalls(calls, scan.members);
        var released := !scan.invalid && !invalid && ready != [];
        var poisoned := ledger.poisoned || missing;
        var dropped := RetirePendingCalls(w.rid);
        ledger := ledger.(poisoned := poisoned,
                          authorizations := if released then Authorized(ledger.authorizations, calls)
                                            else ledger.authorizations);
        outputs := scan.errors + errors + (if released then [Ready(w.rid, ready)] else Dropped(w.rid, dropped)) +
                   [ResponseEnded(w.rid, Completed, released)];
      }
    }

    /** Seals a response as cancelled and drops its calls; refused when the response already ended otherwise. */
    method SealCancelled(rid: Id) returns (ok: bool, outputs: seq<Output>)
      modifies this`ledger
      ensures (if ok then Done(ledger, outputs) else Thrown(ledger)) == CancelResponse(cfg, old(ledger), rid)
      ensures !ok ==> ledger == old(ledger)
    {
      hide Retire, CallsOf;
      if rid in ledger.terminals {
        return ledger.terminals[rid] == CancelledMark, [];
      }
      if |ledger.terminals| >= MAX_TRACKED_IDENTITIES {
        return false, [];
      }
      ledger := ledger.(terminals := ledger.terminals[rid := CancelledMark]);
      var dropped := RetirePendingCalls(rid);
      return true, Dropped(rid, dropped) + [ResponseInterrupted(rid), ResponseEnded(rid, Cancelled, false)];
    }

    /** Dispatches an admitted event; an event that throws leaves what it had written. */
    method Dispatch(w: Wire) returns (ok: bool, outputs: seq<Output>)
      modifies this`ledger
      ensures (if ok then Done(ledger, outputs) else Thrown(ledger)) == Handle(cfg, old(ledger), w)
    {
      hide Handle, CompleteResponse, CancelResponse, EndResponse;
      HandleEnds(cfg, ledger, w);
      if w.ResponseCancelled? {
        ok, outputs := SealCancelled(w.rid);
      } else if w.ResponseDone? && w.rid !in ledger.terminals && |ledger.terminals| < MAX_TRACKED_IDENTITIES {
        ledger := ledger.(terminals := ledger.terminals[w.rid := TerminalOf(w)]);
        outputs := EndOfResponse(w);
        ok := true;
      } else {
        var r := Handle(cfg, ledger, w);
        ledger := r.ledger;
        ok, outputs := r.Done?, if r.Done? then r.value else [];
      }
    }

    /** One event against the ledgers: anything thrown seals the adapter. */
    method ProcessEvent(w: Wire) returns (outputs: seq<Output>)
      modifies this`ledger
      ensures (ledger, outputs) == Process(cfg, old(ledger), w)
    {
      hide Admit, Handle;
      var admitted := Admit(ledger, w);
      ledger := admitted.ledger;
      if admitted.Thrown? {
        ledger := ledger.(poisoned := true);
        return [ProtocolError(true)];
      }
      if !admitted.value {
        return [];
      }
      var ok;
      ok, outputs := Dispatch(w);
      if !ok {
        ledger := ledger.(poisoned := true);
        outputs := [ProtocolError(true)];
      }
    }

    /** One frame: a frame already seen under its event id is ignored, and the window slides over any other. */
    method NormalizeFrame(eventId: Option<Id>, w: Wire) returns (outputs: seq<Output>)
      modifies this
      ensures (Value(), outputs) == Normalize(cfg, windowSize, old(Value()), eventId, w)
    {
      hide Process, Slid;
      if ledger.poisoned {
        return [ProtocolError(true)];
      }
      if w.Malformed? {
        ledger := ledger.(poisoned := true);
        return [ProtocolError(true)];
      }
      if eventId.Some? {
        var previous := Recorded(window, eventId.value);
        if previous == Some(w) {
          return [];
        }
        if previous.Some? {
          ledger := ledger.(poisoned := true);
          return [ProtocolError(true)];
        }
        window := Slid(windowSize, window, Seen(eventId.value, w));
      }
      outputs := ProcessEvent(w);
    }

    /** Any input takes the object along the run of the value-level adapter. */
    method Step(input: Input) returns (outputs: seq<Output>)
      modifies this
      ensures (Value(), outputs) == Next(cfg, windowSize, old(Value()), input)
    {
      hide Normalize, CancelResponse, Submitted;
      match input {
        case Frame(eventId, w) =>
          outputs := NormalizeFrame(eventId, w);
        case Interrupt(rid) =>
          if !ledger.sessionReady || ledger.poisoned || rid !in ledger.starts || rid in ledger.terminals {
            return [];
          }
          var ok;
          ok, outputs := SealCancelled(rid);
          if !ok {
            outputs := [];
          }
        case SubmitOutputs(ids) =>
          outputs := [];
          if ledger.sessionReady && !ledger.poisoned && ids != [] && |ids| <= MAX_CALLS_PER_RESPONSE && Distinct(ids) {
            var _ := ConsumeOutputAuthorizations(ids);
          }
      }
    }

    /** A batch of outputs is checked as a whole before any of it is marked submitted. */
    method ConsumeOutputAuthorizations(callIds: seq<Id>) returns (ok: bool)
      modifies this`ledger
      ensures ok == forall i :: 0 <= i < |callIds| ==> AwaitsOutput(old(ledger).authorizations, callIds[i])
      ensures ledger == if ok then old(ledger).(authorizations := Submitted(old(ledger).authorizations, callIds))
                        else old(ledger)
    {
      var authorizations := ledger.authorizations;
      var i := 0;
      while i < |callIds|
        invariant 0 <= i <= |callIds| && ledger == old(ledger)
        invariant forall k :: 0 <= k < i ==> AwaitsOutput(authorizations, callIds[k])
      {
        if !AwaitsOutput(authorizations, callIds[i]) {
          return false;
        }
        i := i + 1;
      }
      authorizations := MarkSubmitted(authorizations, callIds);
      ledger := ledger.(authorizations := authorizations);
      ok := true;
    }
  }

  predicate AwaitsOutput(authorizations: map<Id, bool>, callId: Id) {
    callId in authorizations && !authorizations[callId]
  }

  method MarkSubmitted(before: map<Id, bool>, callIds: seq<Id>) returns (authorizations: map<Id, bool>)
    ensures authorizations == Submitted(before, callIds)
  {
    authorizations := before;
    var i := 0;
    while i < |callIds|
      invariant 0 <= i <= |callIds|
      invariant authorizations == Submitted(before, callIds[..i])
    {
      assert callIds[..i + 1][..i] == callIds[..i];
      authorizations := authorizations[callIds[i] := true];
      i := i + 1;
    }
    assert callIds[..i] == callIds;
  }

  lemma RetireSeal(cfg: Config, s: Ledger, rid: Id)
    ensures Retire(cfg, s, rid).poisoned == s.poisoned
  {
  }

  lemma HandleEnds(cfg: Config, s: Ledger, w: Wire)
    ensures w.ResponseCancelled? ==> Handle(cfg, s, w) == CancelResponse(cfg, s, w.rid)
    ensures w.ResponseDone? && w.rid !in s.terminals && |s.terminals| < MAX_TRACKED_IDENTITIES ==>
              Handle(cfg, s, w) == EndResponse(cfg, s.(terminals := s.terminals[w.rid := TerminalOf(w)]), w)
  {
    hide CancelResponse, EndResponse;
  }
}
