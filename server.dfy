/**
 * The six routes of the task API under `/tarefas`. Each handler is one
 * atomic step: it validates its input, calls the storage collaborator, and
 * turns the outcome or the caught failure into exactly one response.
 */
module Server {
  import opened Wrappers
  import opened Schemas
  import opened Tasks
  import opened Store

  /** The JSON body of a response. */
  datatype Payload =
    | TaskJson(task: Task)
    | TaskListJson(tasks: seq<Task>)
    | CompletedJson(count: nat)
    | ValidationErrorJson(issues: seq<Issue>)
    | MessageJson(message: string)
    | NoContent

  datatype Response = Response(status: int, payload: Payload)

  /** What a handler's `catch` receives: a schema failure or a storage error code. */
  datatype Failure = SchemaFailure(issues: seq<Issue>) | StorageFailure(code: string)

  const NotFoundMessage: string := "Tarefa n\U{e3}o encontrada."
  const BadFilterMessage: string := "Use 'concluida' ou 'pendente'."
  const ListFailedMessage: string := "Erro ao listar tarefas."
  const CreateFailedMessage: string := "Erro ao criar tarefa."
  const UpdateFailedMessage: string := "Erro interno do servidor."
  const DeleteFailedMessage: string := "Erro ao deletar tarefa."
  const FilterFailedMessage: string := "Erro ao filtrar tarefas."
  const CompleteFailedMessage: string := "Erro ao concluir todas as tarefas."

  /** A schema failure becomes 400 with its issues; a storage failure
      becomes 500 with the route's fixed message. */
  function CreateCatch(e: Failure): (r: Response)
    ensures e.SchemaFailure? <==> r.status == 400
    ensures e.SchemaFailure? ==> r.payload == ValidationErrorJson(e.issues)
    ensures e.StorageFailure? ==> r == Response(500, MessageJson(CreateFailedMessage))
  {
    match e
    case SchemaFailure(issues) => Response(400, ValidationErrorJson(issues))
    case StorageFailure(_) => Response(500, MessageJson(CreateFailedMessage))
  }

  /** Schema failure gives 400, the storage not-found code gives 404,
      and every other storage error gives the same opaque 500. */
  function UpdateCatch(e: Failure): (r: Response)
    ensures r.status == 400 <==> e.SchemaFailure?
    ensures r.status == 404 <==> e == StorageFailure(NotFoundCode)
    ensures r.status == 500 <==> e.StorageFailure? && e.code != NotFoundCode
    ensures e.SchemaFailure? ==> r.payload == ValidationErrorJson(e.issues)
    ensures r.status == 404 ==> r.payload == MessageJson(NotFoundMessage)
    ensures r.status == 500 ==> r.payload == MessageJson(UpdateFailedMessage)
  {
    match e
    case SchemaFailure(issues) => Response(400, ValidationErrorJson(issues))
    case StorageFailure(code) =>
      if code == NotFoundCode then Response(404, MessageJson(NotFoundMessage))
      else Response(500, MessageJson(UpdateFailedMessage))
  }

  /** The delete route has no schema: only the not-found code gives 404,
      anything else (including a caught value without that code) gives 500. */
  function DeleteCatch(e: Failure): (r: Response)
    ensures r.status == 404 <==> e == StorageFailure(NotFoundCode)
    ensures r.status == 404 ==> r.payload == MessageJson(NotFoundMessage)
    ensures r.status != 404 ==> r == Response(500, MessageJson(DeleteFailedMessage))
  {
    if e == StorageFailure(NotFoundCode) then Response(404, MessageJson(NotFoundMessage))
    else Response(500, MessageJson(DeleteFailedMessage))
  }

  /** A 500 response carries nothing of the error that caused it. */
  lemma InternalErrorsAreOpaque(c1: string, c2: string)
    requires c1 != NotFoundCode && c2 != NotFoundCode
    ensures UpdateCatch(StorageFailure(c1)) == UpdateCatch(StorageFailure(c2))
    ensures DeleteCatch(StorageFailure(c1)) == DeleteCatch(StorageFailure(c2))
    ensures CreateCatch(StorageFailure(c1)) == CreateCatch(StorageFailure(c2))
  {
  }

  /** GET /tarefas: every stored task, each exactly once. */
  method ListTasks(db: TaskStore, outage: bool) returns (res: Response)
    requires db.Valid()
    ensures outage ==> res == Response(500, MessageJson(ListFailedMessage))
    ensures !outage ==>
      && res.status == 200 && res.payload.TaskListJson?
      && IsListing(res.payload.tasks, db.rows)
  {
    var found := db.FindMany(None, outage);
    if found.Err? {
      return Response(500, MessageJson(ListFailedMessage));
    }
    assert Select(db.rows, None) == db.rows;
    return Response(200, TaskListJson(found.value));
  }

  /** POST /tarefas: validate, then store a new pending task under a fresh id. */
  method CreateTask(db: TaskStore, body: Body, outage: bool) returns (res: Response)
    requires db.Valid()
    modifies db
    ensures db.Valid() && db.nextId >= old(db.nextId)
    ensures AllTitled(old(db.rows)) ==> AllTitled(db.rows)
    ensures ParseCreateTask(body).Err? ==>
      && res == Response(400, ValidationErrorJson(ParseCreateTask(body).error))
      && db.rows == old(db.rows) && db.nextId == old(db.nextId)
    ensures ParseCreateTask(body).Ok? && outage ==>
      && res == Response(500, MessageJson(CreateFailedMessage))
      && db.rows == old(db.rows) && db.nextId == old(db.nextId)
    ensures ParseCreateTask(body).Ok? && !outage ==>
      var titulo, id := ParseCreateTask(body).value, old(db.nextId);
      && res == Response(201, TaskJson(Task(id, titulo, false)))
      && id >= 1 && id !in old(db.rows)
      && db.rows == old(db.rows)[id := Row(titulo, false)]
  {
    var parsed := ParseCreateTask(body);
    if parsed.Err? {
      return CreateCatch(SchemaFailure(parsed.error));
    }
    var created := db.Create(parsed.value, outage);
    if created.Err? {
      return CreateCatch(StorageFailure(created.error));
    }
    return Response(201, TaskJson(created.value));
  }

  /** PUT /tarefas/:id: validate first, then write only the supplied fields. */
  method UpdateTask(db: TaskStore, id: int, body: Body, outage: bool) returns (res: Response)
    requires db.Valid()
    modifies db`rows
    ensures db.Valid()
    ensures AllTitled(old(db.rows)) ==> AllTitled(db.rows)
    ensures ParseUpdateTask(body).Err? ==>
      res == Response(400, ValidationErrorJson(ParseUpdateTask(body).error)) && db.rows == old(db.rows)
    ensures ParseUpdateTask(body).Ok? && outage ==>
      res == Response(500, MessageJson(UpdateFailedMessage)) && db.rows == old(db.rows)
    ensures ParseUpdateTask(body).Ok? && !outage && id !in old(db.rows) ==>
      res == Response(404, MessageJson(NotFoundMessage)) && db.rows == old(db.rows)
    ensures ParseUpdateTask(body).Ok? && !outage && id in old(db.rows) ==>
      var row := ApplyPatch(old(db.rows)[id], ParseUpdateTask(body).value);
      && res == Response(200, TaskJson(Record(id, row)))
      && db.rows == old(db.rows)[id := row]
  {
    var parsed := ParseUpdateTask(body);
    if parsed.Err? {
      return UpdateCatch(SchemaFailure(parsed.error));
    }
    ghost var before := db.rows;
    var updated := db.Update(id, parsed.value, outage);
    if updated.Err? {
      return UpdateCatch(StorageFailure(updated.error));
    }
    if AllTitled(before) {
      PatchKeepsTitled(before, id, parsed.value);
    }
    return Response(200, TaskJson(updated.value));
  }

  /** DELETE /tarefas/:id: remove the task and answer 204 with no body. */
  method DeleteTask(db: TaskStore, id: int, outage: bool) returns (res: Response)
    requires db.Valid()
    modifies db`rows
    ensures db.Valid()
    ensures AllTitled(old(db.rows)) ==> AllTitled(db.rows)
    ensures outage ==> res == Response(500, MessageJson(DeleteFailedMessage)) && db.rows == old(db.rows)
    ensures !outage && id !in old(db.rows) ==>
      res == Response(404, MessageJson(NotFoundMessage)) && db.rows == old(db.rows)
    ensures !outage && id in old(db.rows) ==>
      res == Response(204, NoContent) && db.rows == old(db.rows) - {id}
  {
    var deleted := db.Delete(id, outage);
    if deleted.Err? {
      return DeleteCatch(StorageFailure(deleted.error));
    }
    return Response(204, NoContent);
  }

  /** GET /tarefas/filtro/:status: the literal is checked before storage is
      asked; the answer is exactly the tasks with that status. */
  method FilterTasks(db: TaskStore, status: string, outage: bool) returns (res: Response)
    requires db.Valid()
    ensures ParseStatusFilter(status).None? ==> res == Response(400, MessageJson(BadFilterMessage))
    ensures ParseStatusFilter(status).Some? && outage ==> res == Response(500, MessageJson(FilterFailedMessage))
    ensures ParseStatusFilter(status).Some? && !outage ==>
      && res.status == 200 && res.payload.TaskListJson?
      && IsListing(res.payload.tasks, Select(db.rows, ParseStatusFilter(status)))
  {
    var concluida := ParseStatusFilter(status);
    if concluida.None? {
      return Response(400, MessageJson(BadFilterMessage));
    }
    var found := db.FindMany(concluida, outage);
    if found.Err? {
      return Response(500, MessageJson(FilterFailedMessage));
    }
    return Response(200, TaskListJson(found.value));
  }

  /** PATCH /tarefas/concluir-todas: mark every pending task done and report
      how many there were. */
  method CompleteAll(db: TaskStore, outage: bool) returns (res: Response)
    requires db.Valid()
    modifies db`rows
    ensures db.Valid()
    ensures AllTitled(old(db.rows)) ==> AllTitled(db.rows)
    ensures outage ==> res == Response(500, MessageJson(CompleteFailedMessage)) && db.rows == old(db.rows)
    ensures !outage ==>
      && res == Response(200, CompletedJson(|IdsWithStatus(old(db.rows), false)|))
      && db.rows == SetStatusWhere(old(db.rows), false, true)
  {
    var result := db.UpdateMany(false, true, outage);
    if result.Err? {
      return Response(500, MessageJson(CompleteFailedMessage));
    }
    return Response(200, CompletedJson(result.value));
  }

  /** A client: create a task, then list; the new task is listed once, as created. */
  method CreateThenList(db: TaskStore, titulo: string) returns (created: Response, listed: Response)
    requires db.Valid()
    requires |titulo| >= 1
    modifies db
    ensures created.status == 201 && created.payload.TaskJson?
    ensures created.payload.task.titulo == titulo && !created.payload.task.concluida
    ensures listed.status == 200 && listed.payload.TaskListJson?
    ensures var ts, t := listed.payload.tasks, created.payload.task;
      exists k ::
        && 0 <= k < |ts| && ts[k] == t
        && (forall j :: 0 <= j < |ts| && ts[j].id == t.id ==> j == k)
  {
    created := CreateTask(db, Object(Str(titulo), Absent), false);
    listed := ListTasks(db, false);
    ListingHoldsOnce(listed.payload.tasks, db.rows, created.payload.task.id);
  }

  /** A client: deleting the same id twice succeeds once and then reports not found. */
  method DeleteTwice(db: TaskStore, id: int) returns (first: Response, second: Response)
    requires db.Valid()
    requires id in db.rows
    modifies db`rows
    ensures first == Response(204, NoContent)
    ensures second == Response(404, MessageJson(NotFoundMessage))
    ensures db.rows == old(db.rows) - {id}
  {
    first := DeleteTask(db, id, false);
    second := DeleteTask(db, id, false);
  }

  /** A client: an immediate second bulk completion finds nothing left to do. */
  method CompleteAllTwice(db: TaskStore) returns (first: Response, second: Response)
    requires db.Valid()
    modifies db`rows
    ensures first == Response(200, CompletedJson(|IdsWithStatus(old(db.rows), false)|))
    ensures second == Response(200, CompletedJson(0))
    ensures IdsWithStatus(db.rows, true) == old(db.rows).Keys
  {
    first := CompleteAll(db, false);
    CompleteAllFinishes(old(db.rows));
    second := CompleteAll(db, false);
    CompleteAllIdempotent(old(db.rows));
  }

  /** A client: `{concluida: true}` marks a task done and keeps its title. */
  method MarkDone(db: TaskStore, id: int) returns (res: Response)
    requires db.Valid()
    requires id in db.rows
    modifies db`rows
    ensures res.status == 200 && res.payload == TaskJson(Task(id, old(db.rows)[id].titulo, true))
    ensures db.rows == old(db.rows)[id := Row(old(db.rows)[id].titulo, true)]
  {
    res := UpdateTask(db, id, Object(Absent, Bool(true)), false);
  }

  /** A client: an invalid patch is refused with 400 even for an id that does not exist. */
  method InvalidPatchBeforeLookup(db: TaskStore, id: int) returns (res: Response)
    requires db.Valid()
    requires id !in db.rows
    modifies db`rows
    ensures res.status == 400 && res.payload.ValidationErrorJson? && |res.payload.issues| > 0
    ensures db.rows == old(db.rows)
  {
    res := UpdateTask(db, id, Object(Absent, Absent), false);
  }
}
