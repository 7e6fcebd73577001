/** The executions and events tables. Saves are assumed to succeed. */
module ExecutionStores {
  import opened Wrappers
  import opened LaunchSchema

  /** The indexed columns next to the payload. An upsert rewrites only `state`,
      `updatedAt` and `payload`. */
  datatype Row = Row(workloadId: string, nodeId: string, state: LaunchState,
                     createdAt: int, updatedAt: int, payload: Execution)

  /** The row of a record after it is saved. */
  function Saved(rows: map<string, Row>, e: Execution): Row {
    if e.executionId in rows then rows[e.executionId].(state := e.state, updatedAt := e.updatedAt, payload := e)
    else Row(e.spec.workloadId, e.spec.nodeId, e.state, e.createdAt, e.updatedAt, e)
  }

  /** The columns that filter and date a row follow each save; the others are those of the first. */
  lemma SavedColumns(rows: map<string, Row>, e: Execution, f: Execution)
    requires e.executionId == f.executionId && e.executionId !in rows
    ensures var once := Saved(rows, e);
            var twice := Saved(rows[e.executionId := once], f);
            && once.workloadId == e.spec.workloadId && once.nodeId == e.spec.nodeId && once.createdAt == e.createdAt
            && twice.workloadId == once.workloadId && twice.nodeId == once.nodeId && twice.createdAt == once.createdAt
            && twice.state == f.state && twice.updatedAt == f.updatedAt && twice.payload == f
  {
  }

  class ExecutionStore {
    var rows: map<string, Row>
    var events: seq<RuntimeEvent>
    /** Every record ever saved, in order. */
    ghost var saves: seq<Execution>

    /** Every row sits under its own id and its columns agree with its payload. */
    ghost predicate Valid()
      reads this
    {
      forall id | id in rows ::
        && rows[id].payload.executionId == id && rows[id].state == rows[id].payload.state
        && rows[id].updatedAt == rows[id].payload.updatedAt
    }

    /** The table as callers see it. */
    ghost function Contents(): map<string, Execution>
      reads this
    {
      map id | id in rows :: rows[id].payload
    }

    constructor ()
      ensures Valid() && Contents() == map[] && events == [] && saves == []
    {
      rows, events, saves := map[], [], [];
    }

    method SaveExecution(e: Execution)
      requires Valid()
      modifies this`rows, this`saves
      ensures Valid() && Contents() == old(Contents())[e.executionId := e]
      ensures rows == old(rows)[e.executionId := Saved(old(rows), e)]
      ensures saves == old(saves) + [e]
    {
      var id := e.executionId;
      if id in rows {
        rows := rows[id := rows[id].(state := e.state, updatedAt := e.updatedAt, payload := e)];
      } else {
        rows := rows[id := Row(e.spec.workloadId, e.spec.nodeId, e.state, e.createdAt, e.updatedAt, e)];
      }
      saves := saves + [e];
    }

    method GetExecution(id: string) returns (found: Option<Execution>)
      ensures found == if id in Contents() then Some(Contents()[id]) else None
    {
      found := if id in rows then Some(rows[id].payload) else None;
    }

    /** All records whose state column is not terminal, each once, in any order. */
    method ListRecoverableExecutions() returns (recs: seq<Execution>)
      requires Valid()
      ensures Lists(recs, Contents())
    {
      recs := [];
      var ids := rows.Keys;
      while ids != {}
        invariant ids <= rows.Keys
        invariant forall i | 0 <= i < |recs| :: recs[i].executionId in rows.Keys - ids
        invariant forall i | 0 <= i < |recs| ::
                    recs[i] == rows[recs[i].executionId].payload && !IsTerminal(recs[i].state)
        invariant forall i, j | 0 <= i < j < |recs| :: recs[i].executionId != recs[j].executionId
        invariant forall id | id in rows.Keys - ids && !IsTerminal(rows[id].payload.state) :: rows[id].payload in recs
        decreases ids
      {
        var id :| id in ids;
        ids := ids - {id};
        if !IsTerminal(rows[id].state) {
          recs := recs + [rows[id].payload];
        }
      }
    }

    method AppendEvent(ev: RuntimeEvent)
      modifies this`events
      ensures events == old(events) + [ev]
    {
      events := events + [ev];
    }
  }

  /** `recs` holds the non-terminal records of `table`, each exactly once. */
  ghost predicate Lists(recs: seq<Execution>, table: map<string, Execution>) {
    && (forall i | 0 <= i < |recs| ::
          recs[i].executionId in table && recs[i] == table[recs[i].executionId] && !IsTerminal(recs[i].state))
    && (forall i, j | 0 <= i < j < |recs| :: recs[i].executionId != recs[j].executionId)
    && (forall id | id in table && !IsTerminal(table[id].state) :: table[id] in recs && table[id].executionId == id)
  }

  /** Saves and events of one step go behind those of the steps before it. */
  lemma Append<T>(a: seq<T>, b: seq<T>, c: seq<T>)
    ensures a + b + c == a + (b + c)
  {
  }

  /** A second save of the same record replaces the first. */
  lemma Overwrite(table: map<string, Execution>, id: string, a: Execution, b: Execution)
    ensures table[id := a][id := b] == table[id := b]
  {
  }
}
