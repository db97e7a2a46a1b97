/**
 * The task table as a value: the rows of `tarefa` keyed by id, the record
 * shape the API returns, and the pure functions that say what each storage
 * call does to the table. Lemmas about them state the promises of the
 * task API that span more than one call.
 */
module Tasks {
  import opened Wrappers
  import opened Schemas

  /** The stored columns of one task, besides its id. */
  datatype Row = Row(titulo: string, concluida: bool)

  /** A task record as the API returns it. */
  datatype Task = Task(id: int, titulo: string, concluida: bool)

  type Table = map<int, Row>

  function Record(id: int, row: Row): Task
  {
    Task(id, row.titulo, row.concluida)
  }

  /** What a successful validation guarantees of every stored title. */
  ghost predicate AllTitled(m: Table)
  {
    forall id :: id in m ==> |m[id].titulo| >= 1
  }

  /** A `where` clause on `concluida`: `None` selects every row. */
  predicate Matches(row: Row, filter: Option<bool>)
  {
    filter.None? || row.concluida == filter.value
  }

  /** The rows a `findMany` with this filter returns. */
  function Select(m: Table, filter: Option<bool>): (r: Table)
    ensures forall id :: id in r <==> id in m && Matches(m[id], filter)
    ensures forall id :: id in r ==> r[id] == m[id]
  {
    map id | id in m && Matches(m[id], filter) :: m[id]
  }

  /** The rows whose id is below `bound`: the part of a scan in id order done so far. */
  function Below(m: Table, bound: int): (r: Table)
    ensures forall id :: id in r <==> id in m && id < bound
    ensures forall id :: id in r ==> r[id] == m[id]
  {
    map id | id in m && id < bound :: m[id]
  }

  /** One more step of a scan in id order adds at most the row under `bound`. */
  lemma BelowStep(m: Table, bound: int)
    ensures bound in m ==> Below(m, bound + 1) == Below(m, bound)[bound := m[bound]]
    ensures bound !in m ==> Below(m, bound + 1) == Below(m, bound)
  {
  }

  /** One more step of a scan in id order counts the row under `bound` when its status is `c`. */
  lemma StatusCountStep(m: Table, bound: int, c: bool)
    ensures bound in m && m[bound].concluida == c ==>
      |IdsWithStatus(Below(m, bound + 1), c)| == |IdsWithStatus(Below(m, bound), c)| + 1
    ensures !(bound in m && m[bound].concluida == c) ==>
      IdsWithStatus(Below(m, bound + 1), c) == IdsWithStatus(Below(m, bound), c)
  {
    BelowStep(m, bound);
    if bound in m && m[bound].concluida == c {
      assert IdsWithStatus(Below(m, bound + 1), c) == IdsWithStatus(Below(m, bound), c) + {bound};
    } else {
      assert IdsWithStatus(Below(m, bound + 1), c) == IdsWithStatus(Below(m, bound), c);
    }
  }

  /** The table part-way through `SetStatusWhere` done in id order: rows below `bound` rewritten. */
  ghost function SetStatusBelow(m: Table, from: bool, to: bool, bound: int): Table
  {
    map id | id in m :: if id < bound && m[id].concluida == from then Row(m[id].titulo, to) else m[id]
  }

  /** One more step of the in-order rewrite touches only the row under `bound`. */
  lemma SetStatusStep(m: Table, from: bool, to: bool, bound: int)
    ensures bound in m && m[bound].concluida == from ==>
      SetStatusBelow(m, from, to, bound + 1) == SetStatusBelow(m, from, to, bound)[bound := Row(m[bound].titulo, to)]
    ensures !(bound in m && m[bound].concluida == from) ==>
      SetStatusBelow(m, from, to, bound + 1) == SetStatusBelow(m, from, to, bound)
  {
  }

  /** The in-order rewrite that passed every id is the whole bulk update. */
  lemma SetStatusAll(m: Table, from: bool, to: bool, bound: int)
    requires forall id :: id in m ==> id < bound
    ensures SetStatusBelow(m, from, to, bound) == SetStatusWhere(m, from, to)
  {
  }

  /** A scan that passed every id has seen the whole table. */
  lemma BelowAll(m: Table, bound: int)
    requires forall id :: id in m ==> id < bound
    ensures Below(m, bound) == m
  {
  }

  /** `ts` lists exactly the rows of `m`: every element is a row of `m`,
      no id is listed twice and no row is missed. The order is free. */
  ghost predicate IsListing(ts: seq<Task>, m: Table)
  {
    && (forall k :: 0 <= k < |ts| ==> ts[k].id in m && ts[k] == Record(ts[k].id, m[ts[k].id]))
    && (forall j, k :: 0 <= j < k < |ts| ==> ts[j].id != ts[k].id)
    && (forall id :: id in m ==> exists k :: 0 <= k < |ts| && ts[k].id == id)
  }

  /** The data of an `update`: only the supplied fields are written. */
  function ApplyPatch(row: Row, p: Patch): (r: Row)
    ensures p.titulo.None? ==> r.titulo == row.titulo
    ensures p.titulo.Some? ==> r.titulo == p.titulo.value
    ensures p.concluida.None? ==> r.concluida == row.concluida
    ensures p.concluida.Some? ==> r.concluida == p.concluida.value
  {
    Row(if p.titulo.Some? then p.titulo.value else row.titulo,
        if p.concluida.Some? then p.concluida.value else row.concluida)
  }

  /** The ids whose `concluida` equals `c`. */
  function IdsWithStatus(m: Table, c: bool): (s: set<int>)
    ensures forall id :: id in s <==> id in m && m[id].concluida == c
  {
    set id | id in m && m[id].concluida == c
  }

  /** The table after `updateMany({ where: { concluida: from }, data: { concluida: to } })`. */
  function SetStatusWhere(m: Table, from: bool, to: bool): (r: Table)
    ensures r.Keys == m.Keys
    ensures forall id :: id in m ==> r[id].titulo == m[id].titulo
    ensures forall id :: id in m && m[id].concluida == from ==> r[id].concluida == to
    ensures forall id :: id in m && m[id].concluida != from ==> r[id] == m[id]
  {
    map id | id in m :: if m[id].concluida == from then Row(m[id].titulo, to) else m[id]
  }

  /** A listing has one element per row, so its length is the table's size. */
  lemma {:induction false} ListingLength(ts: seq<Task>, m: Table)
    requires IsListing(ts, m)
    ensures |ts| == |m|
  {
    if ts == [] {
      assert forall id :: id !in m;
      assert m == map[];
    } else {
      var n := |ts| - 1;
      var last := ts[n];
      var m' := m - {last.id};
      var ts' := ts[..n];
      forall id | id in m'
        ensures exists k :: 0 <= k < |ts'| && ts'[k].id == id
      {
        var k :| 0 <= k < |ts| && ts[k].id == id;
        assert k != n;
        assert ts'[k].id == id;
      }
      assert IsListing(ts', m');
      ListingLength(ts', m');
      assert m'.Keys == m.Keys - {last.id};
    }
  }

  /** Appending a row that is not yet listed extends a listing of the table by that row. */
  lemma {:induction false} ListingExtend(ts: seq<Task>, m: Table, id: int, row: Row)
    requires IsListing(ts, m)
    requires id !in m
    ensures IsListing(ts + [Record(id, row)], m[id := row])
  {
    var ts' := ts + [Record(id, row)];
    forall x | x == id || x in m
      ensures exists k :: 0 <= k < |ts'| && ts'[k].id == x
    {
      if x == id {
        assert ts'[|ts|].id == x;
      } else {
        var k :| 0 <= k < |ts| && ts[k].id == x;
        assert ts'[k].id == x;
      }
    }
  }

  /** A listing contains each stored task exactly once, with its stored fields. */
  lemma ListingHoldsOnce(ts: seq<Task>, m: Table, id: int)
    requires IsListing(ts, m)
    requires id in m
    ensures exists k ::
              && 0 <= k < |ts| && ts[k] == Record(id, m[id])
              && (forall j :: 0 <= j < |ts| && ts[j].id == id ==> j == k)
  {
  }

  /** Every task is either pending or done: the two counts add up to the table's size. */
  lemma StatusPartition(m: Table)
    ensures |IdsWithStatus(m, false)| + |IdsWithStatus(m, true)| == |m|
  {
    var pending, done := IdsWithStatus(m, false), IdsWithStatus(m, true);
    assert pending !! done;
    assert pending + done == m.Keys;
  }

  /** Completing all pending tasks leaves every task done, none pending,
      and every id and title as it was. */
  lemma CompleteAllFinishes(m: Table)
    ensures SetStatusWhere(m, false, true).Keys == m.Keys
    ensures IdsWithStatus(SetStatusWhere(m, false, true), true) == m.Keys
    ensures IdsWithStatus(SetStatusWhere(m, false, true), false) == {}
    ensures forall id :: id in m ==> SetStatusWhere(m, false, true)[id].titulo == m[id].titulo
  {
  }

  /** Completing all pending tasks twice gives the same table as once. */
  lemma CompleteAllIdempotent(m: Table)
    ensures SetStatusWhere(SetStatusWhere(m, false, true), false, true) == SetStatusWhere(m, false, true)
  {
  }

  /** The ids whose row differs between two tables over the same keys. */
  function ChangedIds(m: Table, m': Table): (s: set<int>)
    requires m.Keys == m'.Keys
    ensures forall id :: id in s <==> id in m && m'[id] != m[id]
  {
    set id | id in m && m'[id] != m[id]
  }

  /** With N pending and M done tasks, the number the bulk update counts
      (the old pending ids) is N = size - M; it is exactly the number of
      rows the update changes; and afterwards all N + M tasks are done. */
  lemma CompleteAllCount(m: Table)
    ensures |IdsWithStatus(m, false)| == |m| - |IdsWithStatus(m, true)|
    ensures |IdsWithStatus(m, false)| == |ChangedIds(m, SetStatusWhere(m, false, true))|
    ensures |IdsWithStatus(SetStatusWhere(m, false, true), true)| == |m|
  {
    StatusPartition(m);
    CompleteAllFinishes(m);
    assert ChangedIds(m, SetStatusWhere(m, false, true)) == IdsWithStatus(m, false);
  }

  /** The two status filters split the table: each row is selected by exactly one. */
  lemma StatusFiltersPartition(m: Table)
    ensures Select(m, Some(true)).Keys == IdsWithStatus(m, true)
    ensures Select(m, Some(false)).Keys == IdsWithStatus(m, false)
    ensures Select(m, Some(true)).Keys !! Select(m, Some(false)).Keys
    ensures Select(m, Some(true)).Keys + Select(m, Some(false)).Keys == m.Keys
    ensures Select(m, None) == m
  {
  }

  /** Sending the same patch twice changes nothing the second time (PUT is idempotent). */
  lemma PatchIdempotent(row: Row, p: Patch)
    ensures ApplyPatch(ApplyPatch(row, p), p) == ApplyPatch(row, p)
  {
  }

  /** A patch with a validated title, or none, keeps titles non-empty. */
  lemma PatchKeepsTitled(m: Table, id: int, p: Patch)
    requires AllTitled(m) && id in m
    requires p.titulo.Some? ==> |p.titulo.value| >= 1
    ensures AllTitled(m[id := ApplyPatch(m[id], p)])
  {
  }
}
