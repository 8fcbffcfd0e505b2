/** The global error handler: it turns any error that reaches Express into an HTTP
    status and a JSON body, with database codes, token errors, validation errors and
    upload limits taking over from the error's own status in a fixed order. */
module ErrorHandler {
  import opened Base
  import opened Text

  /** The application's own error: a message, a status and the operational flag. */
  datatype AppError = AppError(message: string, statusCode: int, isOperational: bool)

  /** One entry of a validation error: the path to the field and its message. */
  datatype JoiDetail = JoiDetail(path: seq<string>, message: string)

  /** The fields of a thrown error that the handler reads. An absent `statusCode` is 0
      and an absent `code` is "" (both falsy). */
  datatype Err = Err(message: string, statusCode: int, code: string, name: string,
                     isJoi: bool, details: seq<JoiDetail>)

  datatype FieldError = FieldError(field: string, message: string)

  datatype Body = Body(success: bool, error: string, details: Option<seq<FieldError>>,
                       originalError: Option<string>)

  datatype Response = Response(status: int, body: Body)

  /** What the source's `new AppError(message, statusCode)` throws, seen by the handler. */
  function Thrown(e: AppError): (err: Err)
    ensures err.statusCode == e.statusCode && err.message == e.message
    ensures err.code == "" && !err.isJoi && err.name == "Error"
  {
    Err(e.message, e.statusCode, "", "Error", false, [])
  }

  /** The status and message the database-code switch chooses. */
  function CodeError(code: string): (e: AppError)
    requires code != ""
    ensures e.statusCode in {409, 400, 503, 500}
    ensures e.statusCode == 409 <==> code == "ER_DUP_ENTRY"
    ensures e.statusCode == 400 <==> code in {"ER_NO_REFERENCED_ROW", "ER_ROW_IS_REFERENCED"}
    ensures e.statusCode == 503 <==> code == "ECONNREFUSED"
  {
    match code
    case "ER_DUP_ENTRY" => AppError("Registo duplicado", 409, true)
    case "ER_NO_REFERENCED_ROW" => AppError("Violação de integridade referencial", 400, true)
    case "ER_ROW_IS_REFERENCED" => AppError("Violação de integridade referencial", 400, true)
    case "ECONNREFUSED" => AppError("Serviço de base de dados indisponível", 503, true)
    case _ => AppError("Erro na base de dados", 500, true)
  }

  function FieldErrors(ds: seq<JoiDetail>): (fs: seq<FieldError>)
    ensures |fs| == |ds|
    ensures forall i :: 0 <= i < |ds| ==> fs[i] == FieldError(Join(ds[i].path, "."), ds[i].message)
  {
    seq(|ds|, i requires 0 <= i < |ds| => FieldError(Join(ds[i].path, "."), ds[i].message))
  }

  /** The error as the handler's chain of reassignments leaves it: status, message and
      the optional validation details. */
  datatype Shaped = Shaped(statusCode: int, message: string, details: Option<seq<FieldError>>)

  function Reshape(err: Err): Shaped
  {
    var copied := Shaped(if err.statusCode != 0 then err.statusCode else 500, err.message, None);
    var afterCode := if err.code != "" then FromApp(CodeError(err.code)) else copied;
    var afterInvalid := if err.name == "JsonWebTokenError" then FromApp(AppError("Token inválido", 401, true)) else afterCode;
    var afterExpired := if err.name == "TokenExpiredError" then FromApp(AppError("Token expirado", 401, true)) else afterInvalid;
    var afterJoi := if err.isJoi then Shaped(400, "Dados de entrada inválidos", Some(FieldErrors(err.details))) else afterExpired;
    var afterSize := if err.code == "LIMIT_FILE_SIZE" then FromApp(AppError("Ficheiro muito grande", 413, true)) else afterJoi;
    if err.code == "LIMIT_FILE_COUNT" then FromApp(AppError("Número máximo de ficheiros excedido", 413, true)) else afterSize
  }

  function FromApp(e: AppError): Shaped
  {
    Shaped(e.statusCode, e.message, None)
  }

  /** The mapping as a priority list: upload limits first, then validation errors, then
      token errors, then database codes, then the error's own status (500 if none). */
  function PriorityStatus(err: Err): (s: int)
  {
    if err.code in {"LIMIT_FILE_SIZE", "LIMIT_FILE_COUNT"} then 413
    else if err.isJoi then 400
    else if err.name in {"JsonWebTokenError", "TokenExpiredError"} then 401
    else if err.code != "" then CodeError(err.code).statusCode
    else if err.statusCode != 0 then err.statusCode
    else 500
  }

  /** `errorHandler`: `development` is whether NODE_ENV is "development". */
  function HandleError(err: Err, development: bool): (r: Response)
    ensures r.status == PriorityStatus(err)
    ensures r.status != 0
    ensures !r.body.success
    ensures r.body.details.Some? <==> err.isJoi && err.code !in {"LIMIT_FILE_SIZE", "LIMIT_FILE_COUNT"}
    ensures r.body.details.Some? ==> r.body.details.value == FieldErrors(err.details)
    ensures r.body.originalError.Some? <==> development
    ensures development ==> r.body.originalError.value == err.message
    ensures (err.code == "" && !err.isJoi && err.name !in {"JsonWebTokenError", "TokenExpiredError"})
      ==> r.body.error == err.message
  {
    var e := Reshape(err);
    Response(if e.statusCode != 0 then e.statusCode else 500,
             Body(false, e.message, e.details, if development then Some(err.message) else None))
  }

  /** `notFoundHandler`: forwards an application error with status 404. */
  function NotFoundHandler(verb: string, path: string): (e: AppError)
    ensures e.statusCode == 404 && e.isOperational
  {
    AppError("Rota não encontrada: " + verb + " " + path, 404, true)
  }

  /** An unknown route is answered with 404 and the route named in the message. */
  lemma NotFoundAnswered(verb: string, path: string, development: bool)
    ensures HandleError(Thrown(NotFoundHandler(verb, path)), development).status == NotFound
    ensures HandleError(Thrown(NotFoundHandler(verb, path)), development).body.error
      == "Rota não encontrada: " + verb + " " + path
  {
  }

  /** An upload limit ends at 413 even though the code switch first chose 500. */
  lemma UploadLimitOverridesCode(err: Err, development: bool)
    requires err.code == "LIMIT_FILE_SIZE"
    ensures CodeError(err.code).statusCode == ServerError
    ensures HandleError(err, development).status == PayloadTooLarge
  {
  }
}
