/**
 * ApiErrorHandler.handle of the JavaScript client: turns a failed HTTP call
 * into the message and the alert type shown to the user.
 */
module ApiErrorHandler {
  import opened Wrappers
  import opened Text

  /** The Bootstrap alert class of the notification. */
  datatype Tipo = Danger | Warning | Info

  /** The `{ message, type }` object handle returns. */
  datatype Aviso = Aviso(message: string, tipo: Tipo)

  /**
   * The error Axios rejects with: a server response with its status and the
   * `message` of its body when there is one; a request that got no response;
   * or an error raised before sending, with its own `message`.
   */
  datatype ApiError =
    | ConRespuesta(status: int, mensajeServidor: Option<string>)
    | SinRespuesta
    | Otro(mensaje: Option<string>)

  /** `m || fallback`: an absent or empty string gives the fallback. */
  function OrElse(m: Option<string>, fallback: string): (r: string)
    ensures m.Some? && m.value != [] ==> r == m.value
    ensures m.None? || m.value == [] ==> r == fallback
  {
    match m
    case Some(s) => if s != [] then s else fallback
    case None => fallback
  }

  /** handle: the status decides the type; 400, 500 and unlisted statuses prefer the server's message. */
  function Handle(error: ApiError): (a: Aviso)
    ensures a.message != []
  {
    match error
    case ConRespuesta(status, data) =>
      if status == 400 then Aviso(OrElse(data, "Datos inválidos"), Warning)
      else if status == 401 then Aviso("No autorizado. Por favor inicia sesión nuevamente.", Warning)
      else if status == 403 then Aviso("No tienes permisos para realizar esta acción.", Warning)
      else if status == 404 then Aviso("Recurso no encontrado.", Info)
      else if status == 500 then Aviso(OrElse(data, "Error interno del servidor."), Danger)
      else Aviso(OrElse(data, "Error " + IntToString(status)), Danger)
    case SinRespuesta => Aviso("Error de conexión. Verifica tu conexión a internet.", Danger)
    case Otro(m) => Aviso(OrElse(m, "Error inesperado"), Danger)
  }

  /**
   * The type depends on the status alone: warning for 400, 401 and 403, info
   * for 404, danger for every other status and for every error without a
   * response.
   */
  lemma HandleTipo(error: ApiError)
    ensures Handle(error).tipo == Warning <==> error.ConRespuesta? && error.status in {400, 401, 403}
    ensures Handle(error).tipo == Info <==> error.ConRespuesta? && error.status == 404
  {
  }

  /** 401, 403 and 404 give fixed messages, whatever the response body says. */
  lemma HandleIgnoresBody(status: int, d1: Option<string>, d2: Option<string>)
    requires status in {401, 403, 404}
    ensures Handle(ConRespuesta(status, d1)) == Handle(ConRespuesta(status, d2))
    ensures status == 404 ==> Handle(ConRespuesta(status, d1)) == Aviso("Recurso no encontrado.", Info)
  {
  }

  /** Any other status shows the server's message when the body carries a non-empty one. */
  lemma HandlePrefersServerMessage(status: int, m: string)
    requires status !in {401, 403, 404} && m != []
    ensures Handle(ConRespuesta(status, Some(m))).message == m
  {
  }

  /** Without a server message, a status outside the listed ones is shown as "Error <status>". */
  lemma HandleFallbackStatus(status: int)
    requires status !in {400, 401, 403, 404, 500}
    ensures Handle(ConRespuesta(status, None)) == Aviso("Error " + IntToString(status), Danger)
    ensures Handle(ConRespuesta(status, Some(""))) == Handle(ConRespuesta(status, None))
  {
  }
}
