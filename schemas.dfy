/**
 * The request-body schemas of the task API (`CreateTaskSchema` and
 * `UpdateTaskSchema`, written with Zod) and the status literal of the
 * filter route. Everything here is a pure decision: no storage is touched.
 */
module Schemas {
  import opened Wrappers

  /** The JSON value found under one key of a request body. `OtherJson`
      stands for a number, `null`, an array or a nested object. */
  datatype Field = Absent | Str(s: string) | Bool(b: bool) | OtherJson

  /** A parsed request body. Keys other than `titulo` and `concluida` are
      stripped by `z.object` and play no part, so they are not kept. */
  datatype Body = Object(titulo: Field, concluida: Field) | NotObject

  /** Where a validation issue points: the body itself or one of its keys. */
  datatype IssuePath = RootPath | TituloPath | ConcluidaPath

  /** The Zod issue codes these schemas can produce. */
  datatype IssueCode = InvalidType | TooSmall | Custom

  /** One failed constraint; the human-readable message is not modelled. */
  datatype Issue = Issue(path: IssuePath, code: IssueCode)

  /** The typed value `UpdateTaskSchema` produces: each field present or not. */
  datatype Patch = Patch(titulo: Option<string>, concluida: Option<bool>)

  /** Issues of `z.string().min(1)` on the `titulo` key: a missing or
      non-string value is a type error, a string of length 0 is too small. */
  function TituloIssues(f: Field): (r: seq<Issue>)
    ensures r == [] <==> f.Str? && |f.s| >= 1
    ensures f.Str? && |f.s| == 0 ==> r == [Issue(TituloPath, TooSmall)]
    ensures !f.Str? ==> r == [Issue(TituloPath, InvalidType)]
  {
    match f
    case Str(s) => if |s| >= 1 then [] else [Issue(TituloPath, TooSmall)]
    case _ => [Issue(TituloPath, InvalidType)]
  }

  /** Issues of `z.string().min(1).optional()`: as above, but absence is fine. */
  function OptionalTituloIssues(f: Field): (r: seq<Issue>)
    ensures r == [] <==> f.Absent? || (f.Str? && |f.s| >= 1)
    ensures f.Str? && |f.s| == 0 ==> r == [Issue(TituloPath, TooSmall)]
    ensures !f.Absent? && !f.Str? ==> r == [Issue(TituloPath, InvalidType)]
  {
    if f.Absent? then [] else TituloIssues(f)
  }

  /** Issues of `z.boolean().optional()` on the `concluida` key. */
  function OptionalConcluidaIssues(f: Field): (r: seq<Issue>)
    ensures r == [] <==> f.Absent? || f.Bool?
    ensures r != [] ==> r == [Issue(ConcluidaPath, InvalidType)]
  {
    match f
    case Absent => []
    case Bool(_) => []
    case _ => [Issue(ConcluidaPath, InvalidType)]
  }

  /** `CreateTaskSchema.parse`: succeeds exactly on an object whose `titulo`
      is a string of length at least 1 (length only: whitespace counts). */
  function ParseCreateTask(body: Body): (r: Result<string, seq<Issue>>)
    ensures r.Ok? <==> body.Object? && body.titulo.Str? && |body.titulo.s| >= 1
    ensures r.Ok? ==> r.value == body.titulo.s
    ensures r.Err? ==> |r.error| > 0
    ensures r.Err? && body.Object? ==> forall i :: i in r.error ==> i.path == TituloPath
  {
    match body
    case NotObject => Err([Issue(RootPath, InvalidType)])
    case Object(titulo, _) =>
      var issues := TituloIssues(titulo);
      if issues == [] then Ok(titulo.s) else Err(issues)
  }

  /** `UpdateTaskSchema.parse`: both keys optional and type-checked, and the
      refinement demands that at least one of them be present. */
  function ParseUpdateTask(body: Body): (r: Result<Patch, seq<Issue>>)
    ensures r.Ok? <==>
      && body.Object?
      && (body.titulo.Absent? || (body.titulo.Str? && |body.titulo.s| >= 1))
      && (body.concluida.Absent? || body.concluida.Bool?)
      && !(body.titulo.Absent? && body.concluida.Absent?)
    ensures r.Ok? ==>
      && (r.value.titulo.Some? <==> body.titulo.Str?)
      && (r.value.titulo.Some? ==> r.value.titulo.value == body.titulo.s && |r.value.titulo.value| >= 1)
      && (r.value.concluida.Some? <==> body.concluida.Bool?)
      && (r.value.concluida.Some? ==> r.value.concluida.value == body.concluida.b)
      && (r.value.titulo.Some? || r.value.concluida.Some?)
    ensures r.Err? ==> |r.error| > 0
    ensures r.Err? && body.Object? && body.titulo.Absent? && body.concluida.Absent? ==>
      r.error == [Issue(RootPath, Custom)]
  {
    match body
    case NotObject => Err([Issue(RootPath, InvalidType)])
    case Object(titulo, concluida) =>
      var issues := OptionalTituloIssues(titulo) + OptionalConcluidaIssues(concluida);
      if issues != [] then Err(issues)
      else if titulo.Absent? && concluida.Absent? then Err([Issue(RootPath, Custom)])
      else Ok(Patch(if titulo.Str? then Some(titulo.s) else None,
                    if concluida.Bool? then Some(concluida.b) else None))
  }

  const DoneLiteral: string := "concluida"
  const PendingLiteral: string := "pendente"

  /** The `:status` segment of the filter route: "concluida" selects done
      tasks, "pendente" pending ones, and nothing else is accepted. */
  function ParseStatusFilter(status: string): (r: Option<bool>)
    ensures r == Some(true) <==> status == DoneLiteral
    ensures r == Some(false) <==> status == PendingLiteral
    ensures r == None <==> status != DoneLiteral && status != PendingLiteral
  {
    if status == DoneLiteral then Some(true)
    else if status == PendingLiteral then Some(false)
    else None
  }

  /** The create schema checks length only: a title of blanks is accepted. */
  lemma BlankTituloAccepted()
    ensures ParseCreateTask(Object(Str(" "), Absent)) == Ok(" ")
    ensures ParseUpdateTask(Object(Str(" "), Absent)) == Ok(Patch(Some(" "), None))
  {
  }

  /** A body the create schema accepts also passes the update schema,
      as a patch that only renames. */
  lemma CreateBodyIsRenamePatch(body: Body)
    requires ParseCreateTask(body).Ok?
    requires body.Object? && body.concluida.Absent?
    ensures ParseUpdateTask(body) == Ok(Patch(Some(ParseCreateTask(body).value), None))
  {
  }
}
