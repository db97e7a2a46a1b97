/**
 * The storage collaborator, `prisma.tarefa`, as an in-memory table that its
 * calls update in place. Each call can fail because the database cannot be
 * reached (the `outage` parameter), and `update` and `delete` fail with the
 * not-found code when the id is absent, as the storage layer does.
 */
module Store {
  import opened Wrappers
  import opened Schemas
  import opened Tasks

  /** Error code the storage layer raises when the record to update or delete does not exist. */
  const NotFoundCode: string := "P2025"
  /** Error code the storage layer raises when the database server cannot be reached. */
  const UnreachableCode: string := "P1001"

  class TaskStore {
    /** The rows of the table, keyed by id. */
    var rows: Table
    /** The id the next created row receives (an auto-incremented key). */
    var nextId: int

    /** Ids are positive and every stored id was handed out before `nextId`. */
    ghost predicate Valid()
      reads this
    {
      nextId >= 1 && forall id :: id in rows ==> 1 <= id < nextId
    }

    /** A client over whatever the table holds: its rows and the next id
        the auto-increment will issue. */
    constructor (init: Table, next: int)
      requires next >= 1 && forall id :: id in init ==> 1 <= id < next
      ensures Valid() && rows == init && nextId == next
    {
      rows := init;
      nextId := next;
    }

    /** `findMany({ where })`: every matching row exactly once, in no promised order. */
    method FindMany(filter: Option<bool>, outage: bool) returns (r: Result<seq<Task>, string>)
      requires Valid()
      ensures outage ==> r == Err(UnreachableCode)
      ensures !outage ==> r.Ok? && IsListing(r.value, Select(rows, filter))
    {
      if outage {
        return Err(UnreachableCode);
      }
      var want := Select(rows, filter);
      var ts: seq<Task> := [];
      var id := 1;
      while id < nextId
        invariant 1 <= id <= nextId
        invariant IsListing(ts, Below(want, id))
      {
        BelowStep(want, id);
        if id in want {
          ListingExtend(ts, Below(want, id), id, want[id]);
          ts := ts + [Record(id, want[id])];
        }
        id := id + 1;
      }
      BelowAll(want, id);
      return Ok(ts);
    }

    /** `create({ data: { titulo } })`: a new row under a fresh id, not yet done. */
    method Create(titulo: string, outage: bool) returns (r: Result<Task, string>)
      requires Valid()
      modifies this
      ensures Valid()
      ensures outage ==> r == Err(UnreachableCode) && rows == old(rows) && nextId == old(nextId)
      ensures !outage ==>
        && r == Ok(Task(old(nextId), titulo, false))
        && old(nextId) >= 1 && old(nextId) !in old(rows)
        && rows == old(rows)[old(nextId) := Row(titulo, false)]
        && nextId > old(nextId)
    {
      if outage {
        return Err(UnreachableCode);
      }
      var id := nextId;
      rows := rows[id := Row(titulo, false)];
      nextId := nextId + 1;
      return Ok(Task(id, titulo, false));
    }

    /** `update({ where: { id }, data })`: writes the supplied fields of one row. */
    method Update(id: int, patch: Patch, outage: bool) returns (r: Result<Task, string>)
      requires Valid()
      modifies this`rows
      ensures Valid()
      ensures outage ==> r == Err(UnreachableCode) && rows == old(rows)
      ensures !outage && id !in old(rows) ==> r == Err(NotFoundCode) && rows == old(rows)
      ensures !outage && id in old(rows) ==>
        && r == Ok(Record(id, ApplyPatch(old(rows)[id], patch)))
        && rows == old(rows)[id := ApplyPatch(old(rows)[id], patch)]
    {
      if outage {
        return Err(UnreachableCode);
      }
      if id !in rows {
        return Err(NotFoundCode);
      }
      var row := ApplyPatch(rows[id], patch);
      rows := rows[id := row];
      return Ok(Record(id, row));
    }

    /** `delete({ where: { id } })`: removes one row and returns it. */
    method Delete(id: int, outage: bool) returns (r: Result<Task, string>)
      requires Valid()
      modifies this`rows
      ensures Valid()
      ensures outage ==> r == Err(UnreachableCode) && rows == old(rows)
      ensures !outage && id !in old(rows) ==> r == Err(NotFoundCode) && rows == old(rows)
      ensures !outage && id in old(rows) ==>
        && r == Ok(Record(id, old(rows)[id]))
        && rows == old(rows) - {id}
    {
      if outage {
        return Err(UnreachableCode);
      }
      if id !in rows {
        return Err(NotFoundCode);
      }
      var gone := Record(id, rows[id]);
      rows := rows - {id};
      return Ok(gone);
    }

    /** `updateMany({ where: { concluida: from }, data: { concluida: to } })`:
        rewrites every matching row and reports how many it touched. */
    method UpdateMany(from: bool, to: bool, outage: bool) returns (r: Result<nat, string>)
      requires Valid()
      modifies this`rows
      ensures Valid()
      ensures outage ==> r == Err(UnreachableCode) && rows == old(rows)
      ensures !outage ==>
        && r == Ok(|IdsWithStatus(old(rows), from)|)
        && rows == SetStatusWhere(old(rows), from, to)
    {
      if outage {
        return Err(UnreachableCode);
      }
      ghost var before := rows;
      var count: nat := 0;
      var id := 1;
      while id < nextId
        invariant 1 <= id <= nextId
        invariant rows == SetStatusBelow(before, from, to, id)
        invariant count == |IdsWithStatus(Below(before, id), from)|
      {
        StatusCountStep(before, id, from);
        SetStatusStep(before, from, to, id);
        if id in rows && rows[id].concluida == from {
          rows := rows[id := Row(rows[id].titulo, to)];
          count := count + 1;
        }
        id := id + 1;
      }
      BelowAll(before, id);
      SetStatusAll(before, from, to, id);
      return Ok(count);
    }
  }
}
