/**
 * The form checks of the two Vue components of the JavaScript client: the
 * login form and the change-password dialog. Each component keeps its form
 * fields, an `errors` object (field name to message) and an `errorMessage`;
 * `validateForm` rebuilds `errors` and says whether the form may be sent,
 * and `clearErrors` blanks both.
 *
 * The checks run in the browser before the request; the server applies its
 * own ModelState rules, which do not quite agree (see the lemmas at the end).
 */
module VueComponents {
  import opened Text
  import Autenticacion

  // ---------------------------------------------------------------------------
  // LoginComponent
  // ---------------------------------------------------------------------------

  /** The errors LoginComponent.validateForm records for the given field values. */
  function ErroresLogin(usuario: string, password: string): map<string, string> {
    var e: map<string, string> := map[];
    var e := if IsJsBlank(usuario) then e["usuario" := "El usuario es requerido"] else e;
    if IsJsBlank(password) then e["password" := "La contraseña es requerida"]
    else if |password| < 4 then e["password" := "La contraseña debe tener al menos 4 caracteres"]
    else e
  }

  /**
   * The login form is accepted exactly when the user name and the password
   * keep a character after trimming (are not IsJsBlank, see TrimEmptyIff) and
   * the untrimmed password has at least 4 characters; an error is recorded
   * for exactly the fields that fail.
   */
  lemma ErroresLoginIff(usuario: string, password: string)
    ensures ErroresLogin(usuario, password) == map[]
      <==> !IsJsBlank(usuario) && !IsJsBlank(password) && |password| >= 4
    ensures "usuario" in ErroresLogin(usuario, password) <==> IsJsBlank(usuario)
    ensures "password" in ErroresLogin(usuario, password) <==> IsJsBlank(password) || |password| < 4
    ensures ErroresLogin(usuario, password).Keys <= {"usuario", "password"}
  {
    var e := ErroresLogin(usuario, password);
    if IsJsBlank(usuario) {
      assert "usuario" in e;
    }
    if IsJsBlank(password) || |password| < 4 {
      assert "password" in e;
    }
  }

  /** A blank password is reported as missing, not as too short. */
  lemma BlankPasswordIsRequired(usuario: string, password: string)
    requires IsJsBlank(password)
    ensures ErroresLogin(usuario, password)["password"] == "La contraseña es requerida"
  {
  }

  class LoginComponent {
    var usuario: string
    var password: string
    var errors: map<string, string>
    var errorMessage: string
    var isLoading: bool
    var showPassword: bool

    /** The component's initial data. */
    constructor()
      ensures usuario == "" && password == "" && errors == map[] && errorMessage == ""
      ensures !isLoading && !showPassword
    {
      usuario := "";
      password := "";
      errors := map[];
      errorMessage := "";
      isLoading := false;
      showPassword := false;
    }

    /** validateForm: resets `errors`, then records a message per failing field. */
    method ValidateForm() returns (isValid: bool)
      modifies this`errors
      ensures errors == ErroresLogin(usuario, password)
      ensures isValid <==> errors == map[]
    {
      // `!x.trim()`, which TrimEmptyIff shows to be IsJsBlank(x)
      var usuarioVacio, passwordVacio := IsJsBlank(usuario), IsJsBlank(password);
      errors := map[];
      isValid := true;
      if usuarioVacio {
        errors := errors["usuario" := "El usuario es requerido"];
        isValid := false;
      }
      if passwordVacio {
        errors := errors["password" := "La contraseña es requerida"];
        isValid := false;
      } else if |password| < 4 {
        errors := errors["password" := "La contraseña debe tener al menos 4 caracteres"];
        isValid := false;
      }
      assert !isValid ==> "usuario" in errors || "password" in errors;
    }

    /** clearErrors: empties `errors` and `errorMessage` and touches nothing else. */
    method ClearErrors()
      modifies this`errors, this`errorMessage
      ensures errors == map[] && errorMessage == ""
    {
      errors := map[];
      errorMessage := "";
    }
  }

  // ---------------------------------------------------------------------------
  // ChangePasswordModal
  // ---------------------------------------------------------------------------

  /** The errors ChangePasswordModal.validateForm records; nothing is trimmed. */
  function ErroresCambio(contrasenaActual: string, contrasenaNueva: string, confirmPassword: string)
    : map<string, string>
  {
    var e: map<string, string> := map[];
    var e := if contrasenaActual == [] then e["contrasenaActual" := "La contraseña actual es requerida"] else e;
    var e := if contrasenaNueva == [] then e["contrasenaNueva" := "La nueva contraseña es requerida"] else e;
    if contrasenaNueva != confirmPassword then e["confirmPassword" := "Las contraseñas no coinciden"] else e
  }

  /**
   * The dialog is accepted exactly when both passwords are non-empty and the
   * confirmation equals the new one; every failing check is recorded, not
   * only the first.
   */
  lemma ErroresCambioIff(actual: string, nueva: string, confirmacion: string)
    ensures ErroresCambio(actual, nueva, confirmacion) == map[]
      <==> actual != [] && nueva != [] && nueva == confirmacion
    ensures "contrasenaActual" in ErroresCambio(actual, nueva, confirmacion) <==> actual == []
    ensures "contrasenaNueva" in ErroresCambio(actual, nueva, confirmacion) <==> nueva == []
    ensures "confirmPassword" in ErroresCambio(actual, nueva, confirmacion) <==> nueva != confirmacion
    ensures ErroresCambio(actual, nueva, confirmacion).Keys <= {"contrasenaActual", "contrasenaNueva", "confirmPassword"}
  {
    var e := ErroresCambio(actual, nueva, confirmacion);
    if actual == [] { assert "contrasenaActual" in e; }
    if nueva == [] { assert "contrasenaNueva" in e; }
    if nueva != confirmacion { assert "confirmPassword" in e; }
  }

  class ChangePasswordModal {
    var usuario: string
    var contrasenaActual: string
    var contrasenaNueva: string
    var confirmPassword: string
    var errors: map<string, string>
    var errorMessage: string
    var isLoading: bool

    /** The component's initial data. */
    constructor()
      ensures usuario == "" && contrasenaActual == "" && contrasenaNueva == "" && confirmPassword == ""
      ensures errors == map[] && errorMessage == "" && !isLoading
    {
      usuario := "";
      contrasenaActual := "";
      contrasenaNueva := "";
      confirmPassword := "";
      errors := map[];
      errorMessage := "";
      isLoading := false;
    }

    /** validateForm: resets `errors`, then records every failing check. */
    method ValidateForm() returns (isValid: bool)
      modifies this`errors
      ensures errors == ErroresCambio(contrasenaActual, contrasenaNueva, confirmPassword)
      ensures isValid <==> errors == map[]
    {
      errors := map[];
      isValid := true;
      if contrasenaActual == [] {
        errors := errors["contrasenaActual" := "La contraseña actual es requerida"];
        isValid := false;
      }
      if contrasenaNueva == [] {
        errors := errors["contrasenaNueva" := "La nueva contraseña es requerida"];
        isValid := false;
      }
      if contrasenaNueva != confirmPassword {
        errors := errors["confirmPassword" := "Las contraseñas no coinciden"];
        isValid := false;
      }
      assert !isValid ==> "contrasenaActual" in errors || "contrasenaNueva" in errors || "confirmPassword" in errors;
    }

    /** clearErrors: empties `errors` and `errorMessage` and touches nothing else. */
    method ClearErrors()
      modifies this`errors, this`errorMessage
      ensures errors == map[] && errorMessage == ""
    {
      errors := map[];
      errorMessage := "";
    }
  }

  // ---------------------------------------------------------------------------
  // Agreement with the server's input checks
  // ---------------------------------------------------------------------------

  /**
   * A login form the client accepts also passes the server's ModelState,
   * provided neither field contains U+0085 (white space to .NET but not to
   * JavaScript).
   */
  lemma LoginFormPassesServer(usuario: string, password: string)
    requires ErroresLogin(usuario, password) == map[]
    requires forall i | 0 <= i < |usuario| :: usuario[i] != '\U{85}'
    requires forall i | 0 <= i < |password| :: password[i] != '\U{85}'
    ensures Autenticacion.ErroresLogin(Autenticacion.LoginRequest(usuario, password)) == []
  {
    ErroresLoginIff(usuario, password);
    NoBlankForServer(usuario);
    NoBlankForServer(password);
  }

  /** A string with a character JavaScript does not trim, other than U+0085, is not blank to .NET. */
  lemma NoBlankForServer(s: string)
    requires !IsJsBlank(s)
    requires forall i | 0 <= i < |s| :: s[i] != '\U{85}'
    ensures !IsNetBlank(s)
  {
    var i :| 0 <= i < |s| && !IsJsWhiteSpace(s[i]);
    assert !IsNetWhiteSpace(s[i]);
  }

  /** Without that proviso it fails: a user name U+0085 passes the form and is refused by the server. */
  lemma NelUserNameDisagrees()
    ensures ErroresLogin("\U{85}", "abcd") == map[]
    ensures Autenticacion.ErroresLogin(Autenticacion.LoginRequest("\U{85}", "abcd")) != []
  {
    var u, p := "\U{85}", "abcd";
    assert !IsJsWhiteSpace(u[0]) && !IsJsWhiteSpace(p[0]);
    ErroresLoginIff(u, p);
    assert IsNetBlank(u) by { assert IsNetWhiteSpace(u[0]); }
  }

  /**
   * Nor does the converse hold: a user name U+FEFF is trimmed away by
   * JavaScript, so the form refuses it, while .NET does not count it as white
   * space and the server accepts it.
   */
  lemma BomUserNameDisagrees()
    ensures ErroresLogin("\U{FEFF}", "abcd") != map[]
    ensures Autenticacion.ErroresLogin(Autenticacion.LoginRequest("\U{FEFF}", "abcd")) == []
  {
    var u, p := "\U{FEFF}", "abcd";
    assert IsJsWhiteSpace(u[0]) && !IsNetWhiteSpace(u[0]);
    assert !IsNetWhiteSpace(p[0]);
    ErroresLoginIff(u, p);
  }

  /**
   * The dialog does not trim: passwords of spaces pass it, and the server
   * then refuses them as missing.
   */
  lemma BlankChangePasswordPassesForm()
    ensures ErroresCambio(" ", " ", " ") == map[]
    ensures Autenticacion.ErroresCambio(Autenticacion.CambiarContrasenaRequest("ana", " ", " ")) != []
  {
    assert IsNetBlank(" ");
  }
}
