/**
 * The authentication controller of the API: credential validation with its
 * first-use bootstrap, the login flow that issues a token, and the password
 * change.
 *
 * The user table is a map from NombreUsuario (a unique column) to the two
 * fields the controller reads and writes. Each endpoint is specified by a
 * pure function from the old table to the new table and the response; the
 * class `AutenticacionController` performs the same steps on its `usuarios`
 * field and is proved against those functions.
 *
 * What cannot be seen from the controller enters as a parameter: the salt
 * BCrypt would draw, whether SaveChangesAsync succeeds (`Persistencia`), and
 * whether GenerarToken produces a token or throws (`Emision`).
 */
module Autenticacion {
  import opened Wrappers
  import opened Text
  import opened PasswordHelper

  // ---------------------------------------------------------------------------
  // Data
  // ---------------------------------------------------------------------------

  /** The columns of a user row that the controller uses; None is a NULL Contrasena. */
  datatype Usuario = Usuario(activo: bool, contrasena: Option<string>)

  /** The user table, keyed by NombreUsuario. */
  type Usuarios = map<string, Usuario>

  /** The Data member of a response. */
  datatype Datos =
    | SinDatos
    | ConToken(token: string, usuario: string)
    | Errores(mensajes: seq<string>)

  datatype ModelResponse = ModelResponse(isSuccess: bool, message: string, data: Datos)

  /** The outcome of SaveChangesAsync: the write is stored, or it throws with a message. */
  datatype Persistencia = Guardado | FallaAlGuardar(mensaje: string)

  /** The outcome of GenerarToken: a signed token, or an exception message. */
  type Emision = Result<string, string>

  /** The table after a request, and the response sent. */
  datatype Efecto = Efecto(usuarios: Usuarios, respuesta: ModelResponse)

  datatype LoginRequest = LoginRequest(usuario: string, password: string)

  datatype CambiarContrasenaRequest = CambiarContrasenaRequest(
    usuario: string, contrasenaActual: string, contrasenaNueva: string)

  // ---------------------------------------------------------------------------
  // Lookup and request validation
  // ---------------------------------------------------------------------------

  /** The lookup `NombreUsuario == usuario && Activo` finds a row. */
  predicate Encontrado(db: Usuarios, usuario: string) {
    usuario in db && db[usuario].activo
  }

  /** string.IsNullOrEmpty on the stored hash: the user has never logged in. */
  predicate SinContrasena(u: Usuario) {
    u.contrasena.None? || u.contrasena.value == []
  }

  /** The stored hash with NULL read as "". */
  function Almacenada(u: Usuario): (h: string)
    ensures h == [] <==> SinContrasena(u)
  {
    match u.contrasena
    case None => ""
    case Some(h) => h
  }

  /** The errors ModelState collects for a login request, field by field in declaration order. */
  function ErroresLogin(r: LoginRequest): seq<string> {
    (if IsNetBlank(r.usuario) then ["El usuario es requerido"] else [])
    + (if IsNetBlank(r.password) then ["La contraseña es requerida"] else [])
    + (if |r.password| < 4 then ["La contraseña debe tener al menos 4 caracteres"] else [])
  }

  /** The errors ModelState collects for a password change request. */
  function ErroresCambio(r: CambiarContrasenaRequest): seq<string> {
    (if IsNetBlank(r.usuario) then ["El usuario es requerido"] else [])
    + (if IsNetBlank(r.contrasenaActual) then ["La contraseña actual es requerida"] else [])
    + (if IsNetBlank(r.contrasenaNueva) then ["La nueva contraseña es requerida"] else [])
  }

  /** A login request passes ModelState exactly when both fields are non-blank and the password has 4 characters. */
  lemma ErroresLoginEmptyIff(r: LoginRequest)
    ensures ErroresLogin(r) == [] <==> !IsNetBlank(r.usuario) && !IsNetBlank(r.password) && |r.password| >= 4
  {
  }

  /** A password change request passes ModelState exactly when no field is blank. */
  lemma ErroresCambioEmptyIff(r: CambiarContrasenaRequest)
    ensures ErroresCambio(r) == []
      <==> !IsNetBlank(r.usuario) && !IsNetBlank(r.contrasenaActual) && !IsNetBlank(r.contrasenaNueva)
  {
  }

  const DatosInvalidos: string := "Datos de entrada inválidos"
  const ErrorInterno: string := "Error interno del servidor: "

  /** A response with no data. */
  function Respuesta(ok: bool, message: string): ModelResponse {
    ModelResponse(ok, message, SinDatos)
  }

  /** The response carrying the outcome of a credential check. */
  function Veredicto(ok: bool): ModelResponse {
    Respuesta(ok, if ok then "Credenciales válidas" else "Credenciales inválidas")
  }

  /** Only the named user's hash may change: the same users, each as active as before. */
  predicate MismasCuentas(antes: Usuarios, despues: Usuarios) {
    antes.Keys == despues.Keys && forall n | n in antes :: despues[n].activo == antes[n].activo
  }

  // ---------------------------------------------------------------------------
  // ValidarCredenciales
  // ---------------------------------------------------------------------------

  /**
   * ValidarCredenciales as a value. An unknown or inactive user is rejected. A
   * user without a stored hash is accepted with any password of at least 4
   * characters, whose hash is then stored; a user with a hash is accepted
   * exactly when the password verifies against it. Any exception (the save
   * failing) becomes "Error al validar credenciales" and nothing is stored.
   */
  function Credenciales(s: HashScheme, db: Usuarios, usuario: string, password: string,
                        salt: nat, guardado: Persistencia): (e: Efecto)
    ensures MismasCuentas(db, e.usuarios)
    ensures forall n | n in db && n != usuario :: e.usuarios[n] == db[n]
    ensures e.respuesta.data == SinDatos
  {
    if !Encontrado(db, usuario) then
      Efecto(db, Respuesta(false, "Usuario no encontrado o inactivo"))
    else if SinContrasena(db[usuario]) then
      var esValida := password != [] && |password| >= 4;
      if !esValida then Efecto(db, Veredicto(false))
      else
        match CifrarContrasena(s, password, salt)
        case Failure(_) => Efecto(db, Respuesta(false, "Error al validar credenciales"))
        case Success(h) =>
          if guardado.FallaAlGuardar? then Efecto(db, Respuesta(false, "Error al validar credenciales"))
          else Efecto(db[usuario := db[usuario].(contrasena := Some(h))], Veredicto(true))
    else
      Efecto(db, Veredicto(VerificarContrasena(s, password, Almacenada(db[usuario]))))
  }

  /** An unknown or inactive user is rejected with a fixed message and nothing is written. */
  lemma CredencialesUnknown(s: HashScheme, db: Usuarios, usuario: string, password: string,
                            salt: nat, guardado: Persistencia)
    requires !Encontrado(db, usuario)
    ensures Credenciales(s, db, usuario, password, salt, guardado)
      == Efecto(db, ModelResponse(false, "Usuario no encontrado o inactivo", SinDatos))
  {
  }

  /**
   * First use: a user without a hash is accepted exactly when the password has
   * at least 4 characters (and the save goes through); on acceptance the stored
   * hash verifies against that password, and on rejection nothing changes.
   */
  lemma CredencialesBootstrap(s: HashScheme, db: Usuarios, usuario: string, password: string,
                              salt: nat, guardado: Persistencia)
    requires Sound(s) && Encontrado(db, usuario) && SinContrasena(db[usuario])
    ensures var e := Credenciales(s, db, usuario, password, salt, guardado);
      && (e.respuesta.isSuccess <==> |password| >= 4 && guardado == Guardado)
      && (e.respuesta.isSuccess ==>
            e.respuesta.message == "Credenciales válidas"
            && !SinContrasena(e.usuarios[usuario])
            && VerificarContrasena(s, password, Almacenada(e.usuarios[usuario])))
      && (!e.respuesta.isSuccess ==> e.usuarios == db)
  {
  }

  /**
   * Once a hash is stored, acceptance is decided by VerificarContrasena alone
   * (no length rule) and the table is not written.
   */
  lemma CredencialesHashed(s: HashScheme, db: Usuarios, usuario: string, password: string,
                           salt: nat, guardado: Persistencia)
    requires Encontrado(db, usuario) && !SinContrasena(db[usuario])
    ensures var e := Credenciales(s, db, usuario, password, salt, guardado);
      && e.usuarios == db
      && (e.respuesta.isSuccess <==> VerificarContrasena(s, password, db[usuario].contrasena.value))
  {
  }

  /**
   * The hash is stored at most once: after a successful bootstrap, further
   * checks with any password, salt and save outcome write nothing.
   */
  lemma CredencialesBootstrapOnce(s: HashScheme, db: Usuarios, usuario: string, password: string,
                                  salt: nat, guardado: Persistencia,
                                  otra: string, salt2: nat, guardado2: Persistencia)
    requires Sound(s) && Encontrado(db, usuario)
    requires Credenciales(s, db, usuario, password, salt, guardado).respuesta.isSuccess
    ensures var db1 := Credenciales(s, db, usuario, password, salt, guardado).usuarios;
      Credenciales(s, db1, usuario, otra, salt2, guardado2).usuarios == db1
  {
    var db1 := Credenciales(s, db, usuario, password, salt, guardado).usuarios;
    if SinContrasena(db[usuario]) {
      CredencialesBootstrap(s, db, usuario, password, salt, guardado);
    }
    CredencialesHashed(s, db1, usuario, otra, salt2, guardado2);
  }

  // ---------------------------------------------------------------------------
  // GetToken
  // ---------------------------------------------------------------------------

  /**
   * The login endpoint as a value: invalid input gives the ModelState errors;
   * otherwise the credentials are checked, and only a successful check issues a
   * token. A failed check is returned unchanged; a token that cannot be issued
   * becomes an internal error (any hash stored on the way stays stored).
   */
  function InicioDeSesion(s: HashScheme, db: Usuarios, r: LoginRequest, salt: nat,
                          guardado: Persistencia, emision: Emision): (e: Efecto)
    ensures MismasCuentas(db, e.usuarios)
    ensures forall n | n in db && n != r.usuario :: e.usuarios[n] == db[n]
    ensures e.usuarios == db || e.usuarios == Credenciales(s, db, r.usuario, r.password, salt, guardado).usuarios
    ensures e.respuesta.data.ConToken? ==> e.respuesta.isSuccess && e.respuesta.data.usuario == r.usuario
  {
    var errores := ErroresLogin(r);
    if errores != [] then Efecto(db, ModelResponse(false, DatosInvalidos, Errores(errores)))
    else
      var c := Credenciales(s, db, r.usuario, r.password, salt, guardado);
      if !c.respuesta.isSuccess then c
      else
        match emision
        case Success(token) =>
          Efecto(c.usuarios, ModelResponse(true, "Token generado exitosamente", ConToken(token, r.usuario)))
        case Failure(m) => Efecto(c.usuarios, Respuesta(false, ErrorInterno + m))
  }

  /**
   * A token is issued exactly when the input is valid, the credentials check
   * succeeds and GenerarToken does not throw; a failed check is passed through.
   */
  lemma InicioDeSesionToken(s: HashScheme, db: Usuarios, r: LoginRequest, salt: nat,
                            guardado: Persistencia, emision: Emision)
    ensures var e := InicioDeSesion(s, db, r, salt, guardado, emision);
      var c := Credenciales(s, db, r.usuario, r.password, salt, guardado);
      && (e.respuesta.data.ConToken? <==> ErroresLogin(r) == [] && c.respuesta.isSuccess && emision.Success?)
      && (e.respuesta.isSuccess <==> e.respuesta.data.ConToken?)
      && (ErroresLogin(r) == [] && !c.respuesta.isSuccess ==> e == c)
  {
  }

  /** Invalid input is answered with the ModelState errors before the table is consulted. */
  lemma InicioDeSesionInvalido(s: HashScheme, db: Usuarios, r: LoginRequest, salt: nat,
                               guardado: Persistencia, emision: Emision)
    requires ErroresLogin(r) != []
    ensures InicioDeSesion(s, db, r, salt, guardado, emision)
      == Efecto(db, ModelResponse(false, "Datos de entrada inválidos", Errores(ErroresLogin(r))))
  {
  }

  // ---------------------------------------------------------------------------
  // CambiarContrasena
  // ---------------------------------------------------------------------------

  /**
   * The password change as a value: invalid input, an unknown or inactive
   * user, a current password that does not verify, and a weak new password
   * are rejected in that order; otherwise the user's hash is replaced by the
   * hash of the new password, unless an exception intervenes.
   */
  function CambioDeContrasena(s: HashScheme, db: Usuarios, r: CambiarContrasenaRequest, salt: nat,
                              guardado: Persistencia): (e: Efecto)
    ensures MismasCuentas(db, e.usuarios)
    ensures forall n | n in db && n != r.usuario :: e.usuarios[n] == db[n]
    ensures e.respuesta.isSuccess ==> e.respuesta.data == SinDatos
  {
    var errores := ErroresCambio(r);
    if errores != [] then Efecto(db, ModelResponse(false, DatosInvalidos, Errores(errores)))
    else if !Encontrado(db, r.usuario) then Efecto(db, Respuesta(false, "Usuario no encontrado"))
    else if !VerificarContrasena(s, r.contrasenaActual, Almacenada(db[r.usuario])) then
      Efecto(db, Respuesta(false, "Contraseña actual incorrecta"))
    else
      var validacion := Fortaleza(r.contrasenaNueva);
      if !validacion.esValida then
        Efecto(db, Respuesta(false, "La nueva contraseña no cumple los requisitos: " + validacion.mensaje))
      else
        match CifrarContrasena(s, r.contrasenaNueva, salt)
        case Failure(ex) => Efecto(db, Respuesta(false, ErrorInterno + ex.message))
        case Success(h) =>
          match guardado
          case FallaAlGuardar(m) => Efecto(db, Respuesta(false, ErrorInterno + m))
          case Guardado =>
            Efecto(db[r.usuario := db[r.usuario].(contrasena := Some(h))],
                   Respuesta(true, "Contraseña actualizada exitosamente"))
  }

  /** An unknown or inactive user cannot change a password, and nothing is written. */
  lemma CambioUnknown(s: HashScheme, db: Usuarios, r: CambiarContrasenaRequest, salt: nat,
                      guardado: Persistencia)
    requires ErroresCambio(r) == [] && !Encontrado(db, r.usuario)
    ensures CambioDeContrasena(s, db, r, salt, guardado)
      == Efecto(db, ModelResponse(false, "Usuario no encontrado", SinDatos))
  {
  }

  /**
   * A current password that does not verify is rejected and nothing is
   * written; in particular a user who never logged in (no stored hash) can
   * never change the password.
   */
  lemma CambioWrongCurrent(s: HashScheme, db: Usuarios, r: CambiarContrasenaRequest, salt: nat,
                           guardado: Persistencia)
    requires ErroresCambio(r) == [] && Encontrado(db, r.usuario)
    requires !VerificarContrasena(s, r.contrasenaActual, Almacenada(db[r.usuario])) || SinContrasena(db[r.usuario])
    ensures CambioDeContrasena(s, db, r, salt, guardado)
      == Efecto(db, ModelResponse(false, "Contraseña actual incorrecta", SinDatos))
  {
  }

  /** A weak new password is rejected with the strength message as a suffix, and nothing is written. */
  lemma CambioWeak(s: HashScheme, db: Usuarios, r: CambiarContrasenaRequest, salt: nat,
                   guardado: Persistencia)
    requires ErroresCambio(r) == [] && Encontrado(db, r.usuario)
    requires VerificarContrasena(s, r.contrasenaActual, Almacenada(db[r.usuario]))
    requires !Fortaleza(r.contrasenaNueva).esValida
    ensures var e := CambioDeContrasena(s, db, r, salt, guardado);
      && e.usuarios == db && !e.respuesta.isSuccess
      && e.respuesta.message == "La nueva contraseña no cumple los requisitos: " + Fortaleza(r.contrasenaNueva).mensaje
  {
  }

  /**
   * The change succeeds exactly when the input is valid, the user is found,
   * the current password verifies, the new one is strong and the save goes
   * through. Then only that user's hash changes, and it verifies against the
   * new password.
   */
  lemma CambioSuccess(s: HashScheme, db: Usuarios, r: CambiarContrasenaRequest, salt: nat,
                      guardado: Persistencia)
    requires Sound(s)
    ensures var e := CambioDeContrasena(s, db, r, salt, guardado);
      && (e.respuesta.isSuccess <==>
            ErroresCambio(r) == [] && Encontrado(db, r.usuario)
            && VerificarContrasena(s, r.contrasenaActual, Almacenada(db[r.usuario]))
            && Fortaleza(r.contrasenaNueva).esValida && guardado == Guardado)
      && (e.respuesta.isSuccess ==>
            e.respuesta.message == "Contraseña actualizada exitosamente"
            && VerificarContrasena(s, r.contrasenaNueva, Almacenada(e.usuarios[r.usuario])))
      && (!e.respuesta.isSuccess ==> e.usuarios == db)
  {
    if ErroresCambio(r) == [] && Encontrado(db, r.usuario)
       && VerificarContrasena(s, r.contrasenaActual, Almacenada(db[r.usuario]))
       && Fortaleza(r.contrasenaNueva).esValida
    {
      FortalezaEmpty();
      assert r.contrasenaNueva != [];
    }
  }

  // ---------------------------------------------------------------------------
  // Sequences of requests
  // ---------------------------------------------------------------------------

  /** A request to either endpoint, with the outcomes of what the controller cannot see. */
  datatype Peticion =
    | Login(login: LoginRequest, salt: nat, guardado: Persistencia, emision: Emision)
    | Cambio(cambio: CambiarContrasenaRequest, salt: nat, guardado: Persistencia)

  /** The effect of one request. */
  function Atender(s: HashScheme, db: Usuarios, p: Peticion): Efecto {
    match p
    case Login(r, salt, guardado, emision) => InicioDeSesion(s, db, r, salt, guardado, emision)
    case Cambio(r, salt, guardado) => CambioDeContrasena(s, db, r, salt, guardado)
  }

  /** The table after serving the requests one after another. */
  function Ejecutar(s: HashScheme, db: Usuarios, ps: seq<Peticion>): Usuarios
    decreases |ps|
  {
    if ps == [] then db else Ejecutar(s, Atender(s, db, ps[0]).usuarios, ps[1..])
  }

  /** A user with a hash still has one (possibly another): every write stores a real hash. */
  predicate ConservaHashes(antes: Usuarios, despues: Usuarios)
    requires antes.Keys <= despues.Keys
  {
    forall n | n in antes && !SinContrasena(antes[n]) :: !SinContrasena(despues[n])
  }

  /** One request keeps the accounts and never erases a hash. */
  lemma AtenderPreserves(s: HashScheme, db: Usuarios, p: Peticion)
    requires Sound(s)
    ensures MismasCuentas(db, Atender(s, db, p).usuarios)
    ensures ConservaHashes(db, Atender(s, db, p).usuarios)
  {
    var e := Atender(s, db, p);
    forall n | n in db && !SinContrasena(db[n]) ensures !SinContrasena(e.usuarios[n]) {
      if e.usuarios[n] != db[n] {
        match p
        case Login(r, salt, guardado, emision) =>
          CredencialesBootstrap(s, db, r.usuario, r.password, salt, guardado);
        case Cambio(r, salt, guardado) =>
          CambioSuccess(s, db, r, salt, guardado);
      }
    }
  }

  /**
   * Whatever requests are served, no user appears or disappears, no user is
   * activated or deactivated, and no stored hash is ever erased.
   */
  lemma {:induction false} EjecutarPreserves(s: HashScheme, db: Usuarios, ps: seq<Peticion>)
    requires Sound(s)
    ensures MismasCuentas(db, Ejecutar(s, db, ps))
    ensures ConservaHashes(db, Ejecutar(s, db, ps))
    decreases |ps|
  {
    if ps != [] {
      var db1 := Atender(s, db, ps[0]).usuarios;
      AtenderPreserves(s, db, ps[0]);
      EjecutarPreserves(s, db1, ps[1..]);
    }
  }

  // ---------------------------------------------------------------------------
  // The controller
  // ---------------------------------------------------------------------------

  /** The controller over its user table; the hashing library is fixed at construction. */
  class AutenticacionController {
    const esquema: HashScheme
    var usuarios: Usuarios

    constructor(esquema: HashScheme, usuarios: Usuarios)
      ensures this.esquema == esquema && this.usuarios == usuarios
    {
      this.esquema := esquema;
      this.usuarios := usuarios;
    }

    /** ValidarCredenciales: looks the user up, bootstraps or verifies the hash. */
    method ValidarCredenciales(usuario: string, password: string, salt: nat, guardado: Persistencia)
      returns (r: ModelResponse)
      modifies this
      ensures Efecto(usuarios, r) == Credenciales(esquema, old(usuarios), usuario, password, salt, guardado)
    {
      if !(usuario in usuarios && usuarios[usuario].activo) {
        return ModelResponse(false, "Usuario no encontrado o inactivo", SinDatos);
      }
      var usuarioDb := usuarios[usuario];
      if usuarioDb.contrasena.None? || usuarioDb.contrasena.value == [] {
        var esValida := password != [] && |password| >= 4;
        if esValida {
          var cifrada := CifrarContrasena(esquema, password, salt).value;
          if guardado.FallaAlGuardar? {
            return ModelResponse(false, "Error al validar credenciales", SinDatos);
          }
          usuarios := usuarios[usuario := usuarioDb.(contrasena := Some(cifrada))];
        }
        return ModelResponse(esValida, if esValida then "Credenciales válidas" else "Credenciales inválidas", SinDatos);
      }
      var passwordValida := VerificarContrasena(esquema, password, usuarioDb.contrasena.value);
      r := ModelResponse(passwordValida, if passwordValida then "Credenciales válidas" else "Credenciales inválidas", SinDatos);
    }

    /** GetToken: validates the input and the credentials, then issues the token. */
    method GetToken(request: LoginRequest, salt: nat, guardado: Persistencia, emision: Emision)
      returns (r: ModelResponse)
      modifies this
      ensures Efecto(usuarios, r) == InicioDeSesion(esquema, old(usuarios), request, salt, guardado, emision)
    {
      var errores := ErroresLogin(request);
      if errores != [] {
        return ModelResponse(false, "Datos de entrada inválidos", Errores(errores));
      }
      var resultadoValidacion := ValidarCredenciales(request.usuario, request.password, salt, guardado);
      if resultadoValidacion.isSuccess {
        if emision.Failure? {
          return ModelResponse(false, "Error interno del servidor: " + emision.error, SinDatos);
        }
        r := ModelResponse(true, "Token generado exitosamente", ConToken(emision.value, request.usuario));
      } else {
        r := resultadoValidacion;
      }
    }

    /** CambiarContrasena: the checks in order, then the new hash is stored. */
    method CambiarContrasena(request: CambiarContrasenaRequest, salt: nat, guardado: Persistencia)
      returns (r: ModelResponse)
      modifies this
      ensures Efecto(usuarios, r) == CambioDeContrasena(esquema, old(usuarios), request, salt, guardado)
    {
      var errores := ErroresCambio(request);
      if errores != [] {
        return ModelResponse(false, "Datos de entrada inválidos", Errores(errores));
      }
      if !(request.usuario in usuarios && usuarios[request.usuario].activo) {
        return ModelResponse(false, "Usuario no encontrado", SinDatos);
      }
      var usuario := usuarios[request.usuario];
      if !VerificarContrasena(esquema, request.contrasenaActual, Almacenada(usuario)) {
        return ModelResponse(false, "Contraseña actual incorrecta", SinDatos);
      }
      var validacion := ValidarFortalezaContrasena(request.contrasenaNueva);
      if !validacion.esValida {
        return ModelResponse(false, "La nueva contraseña no cumple los requisitos: " + validacion.mensaje, SinDatos);
      }
      FortalezaEmpty();
      var cifrada := CifrarContrasena(esquema, request.contrasenaNueva, salt).value;
      if guardado.FallaAlGuardar? {
        return ModelResponse(false, "Error interno del servidor: " + guardado.mensaje, SinDatos);
      }
      usuarios := usuarios[request.usuario := usuario.(contrasena := Some(cifrada))];
      r := ModelResponse(true, "Contraseña actualizada exitosamente", SinDatos);
    }
  }
}
