/**
 What every run of the case database keeps, whatever the schedule: the case log agrees with the
 case status, refunds execute and complete at most once per case, an index of a command is
 applied at most once, and a rejected or terminated case stays closed.
 */
module ProjectionSafety {
  import opened Common
  import opened CaseMachine
  import opened Projection
  import opened ProjectionRuns

  /** Commands enqueued for one case. */
  function Commands(outbox: seq<OutboxEntry>, caseRef: string): nat {
    if outbox == [] then 0
    else Commands(outbox[..|outbox| - 1], caseRef) + if outbox[|outbox| - 1].caseRef == caseRef then 1 else 0
  }

  lemma CommandsAppend(outbox: seq<OutboxEntry>, entry: OutboxEntry, caseRef: string)
    ensures Commands(outbox + [entry], caseRef) == Commands(outbox, caseRef) + if entry.caseRef == caseRef then 1 else 0
  {
    assert (outbox + [entry])[..|outbox|] == outbox;
  }

  predicate CaseOk(db: Db, caseRef: string) {
    caseRef in db.cases ==>
      && RowOk(db.cases[caseRef])
      && (!db.cases[caseRef].fulfilment ==> Commands(db.outbox, caseRef) == 1 + Read(db.cases[caseRef].log).resumptions)
  }

  ghost predicate CasesOk(db: Db) {
    && (forall caseRef :: CaseOk(db, caseRef))
    && (forall caseRef :: caseRef !in db.cases ==> Commands(db.outbox, caseRef) == 0)
  }

  /** The event was recorded as processed with exactly this content. */
  predicate Recorded(db: Db, e: Event) {
    e.eventId in db.processed && db.processed[e.eventId] == ProcessedRow(e.caseRef, e.commandId, e.index, e)
  }

  predicate RowRecorded(db: Db, id: string)
    requires id in db.processed
  {
    var e := db.processed[id].digest;
    && e.eventId == id
    && Recorded(db, e)
    && e.caseRef in db.cases
    && e.commandId in db.cursors
    && 1 <= e.index <= db.cursors[e.commandId].last
  }

  ghost predicate ProcessedOk(db: Db) {
    && (forall id :: id in db.processed ==> RowRecorded(db, id))
    && (forall a: string, b: string | a in db.processed && b in db.processed ::
          db.processed[a].commandId == db.processed[b].commandId && db.processed[a].index == db.processed[b].index ==> a == b)
  }

  ghost predicate CursorsOk(db: Db) {
    forall c :: c in db.cursors ==>
      && db.cursors[c].caseRef in db.cases
      && (db.cursors[c].terminatedBy.Some? ==> Terminal(db.cases[db.cursors[c].caseRef].status))
  }

  ghost predicate RejectedOk(db: Db) {
    forall m :: m in db.rejected && db.rejected[m].caseKnown ==>
      && db.rejected[m].caseRef.Some?
      && db.rejected[m].caseRef.value in db.cases
      && Terminal(db.cases[db.rejected[m].caseRef.value].status)
  }

  ghost predicate DbOk(db: Db) {
    CasesOk(db) && ProcessedOk(db) && CursorsOk(db) && RejectedOk(db)
  }

  /** What every later database keeps of an earlier one. */
  ghost predicate Grows(db: Db, later: Db) {
    && (forall c :: c in db.cases ==> c in later.cases && Follows(db.cases[c], later.cases[c]))
    && (forall id :: id in db.processed ==> id in later.processed && later.processed[id] == db.processed[id])
    && (forall c :: c in db.cursors ==>
          c in later.cursors && db.cursors[c].last <= later.cursors[c].last && db.cursors[c].caseRef == later.cursors[c].caseRef)
  }

  // ------------------------------------------------------------------ one transaction at a time

  /** The case invariant reads the rows and the outbox only. */
  lemma SameCases(db: Db, later: Db)
    requires CasesOk(db) && later.cases == db.cases && later.outbox == db.outbox
    ensures CasesOk(later)
  {
    forall c ensures CaseOk(later, c) { assert CaseOk(db, c); }
  }

  lemma SameProcessed(db: Db, later: Db)
    requires ProcessedOk(db) && later.cases == db.cases && later.processed == db.processed
    requires forall c :: c in db.cursors ==> c in later.cursors && later.cursors[c].last == db.cursors[c].last
    ensures ProcessedOk(later)
  {
    forall id | id in later.processed ensures RowRecorded(later, id) { assert RowRecorded(db, id); }
  }

  /** Replacing one row by a later version of it, and enqueueing one command when the case returned to Observing. */
  lemma ReplaceKeepsDb(db: Db, caseRef: string, row: CaseRow, outbox: seq<OutboxEntry>)
    requires DbOk(db) && caseRef in db.cases
    requires RowOk(row) && Follows(db.cases[caseRef], row)
    requires outbox == db.outbox || (exists id :: outbox == db.outbox + [OutboxEntry(id, caseRef)])
    requires !row.fulfilment ==>
      Read(row.log).resumptions == Read(db.cases[caseRef].log).resumptions + (if outbox == db.outbox then 0 else 1)
    ensures var later := db.(cases := db.cases[caseRef := row], outbox := outbox);
            DbOk(later) && Grows(db, later)
  {
    var later := db.(cases := db.cases[caseRef := row], outbox := outbox);
    assert CaseOk(db, caseRef);
    forall c ensures Commands(outbox, c) == Commands(db.outbox, c) + if outbox != db.outbox && c == caseRef then 1 else 0 {
      if outbox != db.outbox {
        var id :| outbox == db.outbox + [OutboxEntry(id, caseRef)];
        CommandsAppend(db.outbox, OutboxEntry(id, caseRef), c);
      }
    }
    forall c ensures CaseOk(later, c) { assert CaseOk(db, c); }
    forall id | id in later.processed ensures RowRecorded(later, id) { assert RowRecorded(db, id); }
  }

  /** Recording an event at the expected index of its command. */
  lemma RecordKeepsDb(db: Db, e: Event)
    requires DbOk(db)
    requires e.caseRef in db.cases && e.eventId !in db.processed && e.index == ExpectedIndex(db, e.commandId)
    ensures DbOk(Record(db, e)) && Grows(db, Record(db, e)) && Recorded(Record(db, e), e)
  {
    var later := Record(db, e);
    SameCases(db, later);
    assert later.cursors[e.commandId].last == e.index;
    forall id | id in later.processed
      ensures RowRecorded(later, id)
      ensures id != e.eventId && later.processed[id].commandId == e.commandId ==> later.processed[id].index < e.index
    {
      if id != e.eventId { assert RowRecorded(db, id); }
    }
  }

  lemma BaseKeepsDb(db: Db, e: Event, row: CaseRow, confirmations: map<string, ConfirmationRow>)
    requires DbOk(db) && e.caseRef in db.cases && RowOk(row) && Follows(db.cases[e.caseRef], row)
    requires !row.fulfilment ==> Read(row.log).resumptions == Read(db.cases[e.caseRef].log).resumptions
    ensures var base := db.(cases := db.cases[e.caseRef := row], confirmations := confirmations); DbOk(base) && Grows(db, base)
  {
    var replaced := db.(cases := db.cases[e.caseRef := row]);
    var base := replaced.(confirmations := confirmations);
    ReplaceKeepsDb(db, e.caseRef, row, db.outbox);
    SameCases(replaced, base);
    SameProcessed(replaced, base);
  }

  lemma ApplyingKeepsDb(db: Db, e: Event, row: CaseRow, confirmations: map<string, ConfirmationRow>)
    requires DbOk(db) && e.caseRef in db.cases && RowOk(row) && Follows(db.cases[e.caseRef], row)
    requires !row.fulfilment ==> Read(row.log).resumptions == Read(db.cases[e.caseRef].log).resumptions
    ensures var base := db.(cases := db.cases[e.caseRef := row], confirmations := confirmations);
            && DbOk(base) && Grows(db, base)
            && (e.eventId !in db.processed && e.index == ExpectedIndex(db, e.commandId) ==>
                  DbOk(Record(base, e)) && Grows(db, Record(base, e)) && Recorded(Record(base, e), e))
  {
    BaseKeepsDb(db, e, row, confirmations);
    if e.eventId !in db.processed && e.index == ExpectedIndex(db, e.commandId) {
      var base := db.(cases := db.cases[e.caseRef := row], confirmations := confirmations);
      RecordKeepsDb(base, e);
    }
  }

  lemma {:induction false} ProjectKeepsDb(db: Db, e: Event, authorization: Authorization)
    requires DbOk(db)
    ensures var tx := ProjectTx(db, e, authorization);
            && DbOk(tx.db) && Grows(db, tx.db)
            && (tx.answer == Projected || tx.answer == Duplicate ==> Recorded(tx.db, e))
  {
    var tx := ProjectTx(db, e, authorization);
    if tx.answer == Projected || tx.answer == AwaitsRefund {
      var known := Known(db.confirmations, e);
      assert CaseOk(db, e.caseRef);
      ApplyKeepsRow(db.cases[e.caseRef], known, e, authorization);
      match ApplyEvent(db.cases[e.caseRef], known, e, authorization)
      case AwaitExecutor(row) => ApplyingKeepsDb(db, e, row, db.confirmations);
      case Complete(row, confirmation) => ApplyingKeepsDb(db, e, row, StoreConfirmation(db.confirmations, confirmation));
    }
  }

  /** What the first transaction establishes for a refund in flight. */
  predicate PendingOk(db: Db, e: Event) {
    && e.caseRef in db.cases
    && IsV1Refund(db.cases[e.caseRef], e)
    && (db.cases[e.caseRef].status == Executing || Terminal(db.cases[e.caseRef].status))
    && e.index >= 1
    && (e.commandId !in db.cursors ==> e.index == 1)
  }

  lemma {:induction false} CompleteKeepsDb(db: Db, e: Event, refund: RefundRecord)
    requires DbOk(db) && PendingOk(db, e)
    ensures DbOk(CompleteTx(db, e, refund).db) && Grows(db, CompleteTx(db, e, refund).db)
  {
    if CompleteTx(db, e, refund).answer == Completed {
      assert CaseOk(db, e.caseRef);
      RefundKeepsRow(db.cases[e.caseRef], refund);
      var row := RefundOutcome(db.cases[e.caseRef], refund).value;
      ReplaceKeepsDb(db, e.caseRef, row, db.outbox);
      RecordKeepsDb(db.(cases := db.cases[e.caseRef := row]), e);
    }
  }

  lemma NotingKeepsDb(db: Db, messageId: string, refs: References, known: bool)
    requires DbOk(db) && messageId !in db.rejected
    requires known ==> refs.caseRef.Some? && refs.caseRef.value in db.cases && Terminal(db.cases[refs.caseRef.value].status)
    ensures var noted := db.(rejected := db.rejected[messageId := RejectedRow(refs.caseRef, known)]); DbOk(noted) && Grows(db, noted)
  {
    var noted := db.(rejected := db.rejected[messageId := RejectedRow(refs.caseRef, known)]);
    SameCases(db, noted);
    SameProcessed(db, noted);
  }

  lemma {:induction false} EndingKeepsDb(db: Db, noted: Db, refs: References, ref: string)
    requires DbOk(db) && DbOk(noted) && Grows(db, noted) && noted == db.(rejected := noted.rejected)
    requires refs.caseRef.Some? && refs.caseRef.value in db.cases && Terminal(db.cases[refs.caseRef.value].status)
    ensures var ended := noted.(cursors := TerminateCursor(db.cursors, refs.commandId, refs.caseRef.value, ref)); DbOk(ended) && Grows(db, ended)
  {
    var ended := noted.(cursors := TerminateCursor(db.cursors, refs.commandId, refs.caseRef.value, ref));
    SameCases(db, ended);
    SameProcessed(db, ended);
  }

  /** Noting the rejected message and terminating the command's cursor, once the named case is terminal. */
  lemma TerminationKeepsDb(db: Db, messageId: string, refs: References, ref: string)
    requires DbOk(db) && messageId !in db.rejected
    ensures var known := refs.caseRef.Some? && refs.caseRef.value in db.cases;
            var noted := db.(rejected := db.rejected[messageId := RejectedRow(refs.caseRef, known)]);
            && (known ==> Terminal(db.cases[refs.caseRef.value].status) ==>
                  var ended := noted.(cursors := TerminateCursor(db.cursors, refs.commandId, refs.caseRef.value, ref));
                  DbOk(ended) && Grows(db, ended))
            && (!known ==> DbOk(noted) && Grows(db, noted))
  {
    var known := refs.caseRef.Some? && refs.caseRef.value in db.cases;
    if !known || Terminal(db.cases[refs.caseRef.value].status) {
      NotingKeepsDb(db, messageId, refs, known);
      if known { EndingKeepsDb(db, db.(rejected := db.rejected[messageId := RejectedRow(refs.caseRef, known)]), refs, ref); }
    }
  }

  lemma ClosingKeepsRow(row: CaseRow, ref: string)
    requires RowOk(row) && !Terminal(row.status)
    ensures var noted := Append(row, ErrorEntry(AgentEventRejected));
            && MoveTo(noted, Escalated).Some?
            && var closed := Append(MoveTo(noted, Escalated).value, Done(ref, Escalated));
               RowOk(closed) && Follows(row, closed) && closed.status == Escalated
               && Read(closed.log).resumptions == Read(row.log).resumptions
  {
    var noted := Append(row, ErrorEntry(AgentEventRejected));
    AppendKeepsRow(row, ErrorEntry(AgentEventRejected));
    EscalationKeepsRow(noted, ref);
  }

  /** A rejection always commits: Escalated is one allowed move away from every status that is not terminal. */
  lemma {:induction false} RejectKeepsDb(db: Db, messageId: string, refs: References)
    requires DbOk(db)
    ensures var tx := RejectTx(db, messageId, refs);
            && DbOk(tx.db) && Grows(db, tx.db)
            && tx.answer != RejectIllegal
            && (tx.answer != AlreadyRejected && refs.caseRef.Some? && refs.caseRef.value in db.cases ==>
                  Terminal(tx.db.cases[refs.caseRef.value].status))
  {
    if messageId !in db.rejected {
      var ref := TerminationRef(messageId, refs);
      if refs.caseRef.Some? && refs.caseRef.value in db.cases && !Terminal(db.cases[refs.caseRef.value].status) {
        var caseRef := refs.caseRef.value;
        assert CaseOk(db, caseRef);
        ClosingKeepsRow(db.cases[caseRef], ref);
        var closed := Append(MoveTo(Append(db.cases[caseRef], ErrorEntry(AgentEventRejected)), Escalated).value, Done(ref, Escalated));
        ReplaceKeepsDb(db, caseRef, closed, db.outbox);
        TerminationKeepsDb(db.(cases := db.cases[caseRef := closed]), messageId, refs, ref);
      } else {
        TerminationKeepsDb(db, messageId, refs, ref);
      }
    }
  }

  /** A case that returns to Observing gets exactly one resume command. */
  lemma {:induction false} ResumeKeepsDb(db: Db, caseRef: string, row: CaseRow, commandId: string)
    requires DbOk(db) && caseRef in db.cases && RowOk(row) && Follows(db.cases[caseRef], row)
    requires Read(row.log).resumptions == Read(db.cases[caseRef].log).resumptions
    ensures DbOk(ResumeTx(db, caseRef, row, commandId).db) && Grows(db, ResumeTx(db, caseRef, row, commandId).db)
  {
    if ResumeTx(db, caseRef, row, commandId).answer {
      ResumeKeepsRow(row);
      ReplaceKeepsDb(db, caseRef, MoveTo(row, Observing).value, db.outbox + [OutboxEntry(commandId, caseRef)]);
    }
  }

  lemma MessageKeepsDb(db: Db, caseRef: string, message: string, attachments: nat, bound: bool, commandId: string)
    requires DbOk(db)
    ensures var tx := MessageTx(db, caseRef, message, attachments, bound, commandId); DbOk(tx.db) && Grows(db, tx.db)
  {
    if caseRef in db.cases {
      assert CaseOk(db, caseRef);
      AppendKeepsRow(db.cases[caseRef], UserTurn(message));
      ResumeKeepsDb(db, caseRef, Append(db.cases[caseRef], UserTurn(message)), commandId);
    }
  }

  lemma ReviewKeepsDb(db: Db, caseRef: string, stored: bool, commandId: string)
    requires DbOk(db)
    ensures var tx := ReviewTx(db, caseRef, stored, commandId); DbOk(tx.db) && Grows(db, tx.db)
  {
    if caseRef in db.cases {
      assert CaseOk(db, caseRef);
      ResumeKeepsDb(db, caseRef, db.cases[caseRef], commandId);
    }
  }

  lemma ConfirmKeepsDb(db: Db, caseRef: string, requestRef: string, version: nat, accept: bool, key: string, commandId: string)
    requires DbOk(db)
    ensures var tx := ConfirmTx(db, caseRef, requestRef, version, accept, key, commandId); DbOk(tx.db) && Grows(db, tx.db)
  {
    var tx := ConfirmTx(db, caseRef, requestRef, version, accept, key, commandId);
    if tx.db != db {
      assert CaseOk(db, caseRef);
      ResumeKeepsDb(db, caseRef, db.cases[caseRef], commandId);
      var resumed := ResumeTx(db, caseRef, db.cases[caseRef], commandId).db;
      SameCases(resumed, tx.db);
      SameProcessed(resumed, tx.db);
    }
  }

  lemma NewRowOk(threadId: string, v2: bool, message: string)
    ensures RowOk(CaseRow(threadId, v2, Observing, [UserTurn(message)], false))
    ensures Read([UserTurn(message)]).resumptions == 0
  {
    var log := [UserTurn(message)];
    assert log[..0] == [];
  }

  lemma CreateKeepsDb(db: Db, caseRef: string, threadId: string, v2: bool, message: string, commandId: string, accepted: bool)
    requires DbOk(db)
    ensures var tx := CreateTx(db, caseRef, threadId, v2, message, commandId, accepted); DbOk(tx.db) && Grows(db, tx.db)
  {
    var tx := CreateTx(db, caseRef, threadId, v2, message, commandId, accepted);
    if tx.answer {
      NewRowOk(threadId, v2, message);
      forall c ensures Commands(tx.db.outbox, c) == Commands(db.outbox, c) + if c == caseRef then 1 else 0 {
        CommandsAppend(db.outbox, OutboxEntry(commandId, caseRef), c);
      }
      forall c ensures CaseOk(tx.db, c) { assert CaseOk(db, c); }
      forall id | id in tx.db.processed ensures RowRecorded(tx.db, id) { assert RowRecorded(db, id); }
    }
  }

  lemma {:induction false} FulfilKeepsDb(db: Db, caseRef: string, status: CaseStatus, entries: seq<LogEntry>)
    requires DbOk(db)
    ensures DbOk(FulfilDb(db, caseRef, status, entries)) && Grows(db, FulfilDb(db, caseRef, status, entries))
  {
    if FulfilDb(db, caseRef, status, entries) != db {
      assert CaseOk(db, caseRef);
      var row := db.cases[caseRef].(status := status, log := db.cases[caseRef].log + entries);
      ReplaceKeepsDb(db, caseRef, row, db.outbox);
      assert db.(cases := db.cases[caseRef := row], outbox := db.outbox) == FulfilDb(db, caseRef, status, entries);
    }
  }
}
