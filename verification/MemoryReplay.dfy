/**
 The write-once store behind memory jobs
 (apps/agent_service/src/return_agent_service/memory_replay.py): one row per job id holds the
 first model output and the first terminal event.  The SHA-256 input hash is modelled by the
 job's content, that is, by everything except `issuedAt`.
 */
module MemoryReplay {
  import opened Common

  datatype Job = Job(jobId: string, content: string, issuedAt: int)

  datatype Output = Candidate(candidate: string) | Skip(reason: string)

  datatype MemoryEvent =
    | CompletedEvent(jobId: string, at: int, promptVersion: string, result: Output, submissionRef: Option<string>)
    | FailedEvent(jobId: string, at: int, promptVersion: string, error: string)

  datatype Row = Row(inputHash: string, promptVersion: string, modelProfile: Option<string>,
                     result: Option<Output>, terminalEvent: Option<MemoryEvent>)

  type Rows = map<string, Row>

  datatype Field = Result(output: Output) | TerminalEvent(event: MemoryEvent)

  /** _decode: the stored row, unless it is missing or belongs to other input (MemoryReplayConflictError). */
  function Decode(rows: Rows, job: Job): Option<Row> {
    if job.jobId in rows && rows[job.jobId].inputHash == job.content then Some(rows[job.jobId]) else None
  }

  /** _load; a raised conflict rolls the insert back. */
  function LoadTx(rows: Rows, job: Job, promptVersion: string, modelProfile: Option<string>): (Option<Row>, Rows) {
    var inserted := if job.jobId in rows then rows else rows[job.jobId := Row(job.content, promptVersion, modelProfile, None, None)];
    var replay := Decode(inserted, job);
    if replay.None? then (None, rows)
    else if replay.value.result.None? && replay.value.terminalEvent.None?
            && (replay.value.promptVersion != promptVersion || replay.value.modelProfile != modelProfile)
    then (None, rows)
    else (replay, inserted)
  }

  function Write(row: Row, field: Field): Row {
    match field
    case Result(output) => if row.result.None? then row.(result := Some(output)) else row
    case TerminalEvent(event) => if row.terminalEvent.None? then row.(terminalEvent := Some(event)) else row
  }

  /** _save: the first successful writer wins, and every writer reads back the winner. */
  function SaveTx(rows: Rows, job: Job, field: Field): (Option<Row>, Rows) {
    if Decode(rows, job).None? then (None, rows)
    else
      var later := rows[job.jobId := Write(rows[job.jobId], field)];
      (Some(later[job.jobId]), later)
  }

  /** What is written in a row is never changed. */
  predicate Preserves(rows: Rows, later: Rows) {
    forall id :: id in rows ==>
      && id in later
      && later[id].inputHash == rows[id].inputHash
      && later[id].promptVersion == rows[id].promptVersion
      && later[id].modelProfile == rows[id].modelProfile
      && (rows[id].result.Some? ==> later[id].result == rows[id].result)
      && (rows[id].terminalEvent.Some? ==> later[id].terminalEvent == rows[id].terminalEvent)
  }

  /** Rows are write-once, and a save that answers returns a row whose field is written: by it, or by an earlier writer. */
  lemma {:induction false} SavedIsFinal(rows: Rows, job: Job, field: Field)
    ensures var (replay, later) := SaveTx(rows, job, field);
      && Preserves(rows, later)
      && (replay.Some? <==> Decode(rows, job).Some?)
      && (replay.Some? ==>
            && job.jobId in later && later[job.jobId] == replay.value
            && (field.Result? ==> replay.value.result == if rows[job.jobId].result.Some? then rows[job.jobId].result else Some(field.output))
            && (field.TerminalEvent? ==>
                  replay.value.terminalEvent == if rows[job.jobId].terminalEvent.Some? then rows[job.jobId].terminalEvent else Some(field.event)))
  {
    if Decode(rows, job).Some? {
      assert SaveTx(rows, job, field).1[job.jobId] == Write(rows[job.jobId], field);
    }
  }

  class ReplayStore {
    var rows: Rows

    constructor ()
      ensures rows == map[]
    {
      rows := map[];
    }

    method Load(job: Job, promptVersion: string, modelProfile: Option<string>) returns (replay: Option<Row>)
      modifies this
      ensures (replay, rows) == LoadTx(old(rows), job, promptVersion, modelProfile)
    {
      var before := rows;
      if job.jobId !in rows {
        rows := rows[job.jobId := Row(job.content, promptVersion, modelProfile, None, None)];
      }
      var row := rows[job.jobId];
      if row.inputHash != job.content {
        rows := before;
        return None;
      }
      if row.result.None? && row.terminalEvent.None? && row.promptVersion != promptVersion {
        rows := before;
        return None;
      }
      if row.result.None? && row.terminalEvent.None? && row.modelProfile != modelProfile {
        rows := before;
        return None;
      }
      return Some(row);
    }

    method Save(job: Job, field: Field) returns (replay: Option<Row>)
      modifies this
      ensures (replay, rows) == SaveTx(old(rows), job, field)
    {
      if job.jobId in rows && rows[job.jobId].inputHash == job.content {
        match field {
          case Result(output) =>
            if rows[job.jobId].result.None? {
              rows := rows[job.jobId := rows[job.jobId].(result := Some(output))];
            }
          case TerminalEvent(event) =>
            if rows[job.jobId].terminalEvent.None? {
              rows := rows[job.jobId := rows[job.jobId].(terminalEvent := Some(event))];
            }
        }
        assert rows == old(rows)[job.jobId := rows[job.jobId]];
        return Some(rows[job.jobId]);
      }
      return None;
    }
  }
}
