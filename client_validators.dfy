/**
 * The form validators of the web client. The TypeScript client and the plain
 * JavaScript client carry the same six validators; each returns no message
 * (null) when the value is acceptable, or the message to show.
 *
 * The client's password rule differs from the server's strength check: it
 * stops at the first failing rule, its letters and digits are ASCII only, and
 * "special" means one of a fixed list of ASCII characters.
 */
module ClientValidators {
  import opened Wrappers
  import opened Text
  import PasswordHelper

  /** The field name used when the caller gives none. */
  const Campo: string := "Campo"

  // ---------------------------------------------------------------------------
  // required, minLength, maxLength, confirmPassword
  // ---------------------------------------------------------------------------

  /** required: the value must keep some character after trimming. */
  function Required(value: string, fieldName: string := Campo): (r: Option<string>)
    ensures r.None? <==> !IsJsBlank(value)
    ensures r.Some? ==> r.value == fieldName + " es requerido"
  {
    TrimEmptyIff(value);
    if value != [] && Trim(value) != [] then None else Some(fieldName + " es requerido")
  }

  /** minLength: an empty value fails whatever the bound. */
  function MinLength(value: string, min: int, fieldName: string := Campo): (r: Option<string>)
    ensures r.None? <==> value != [] && |value| >= min
    ensures r.Some? ==> r.value == fieldName + " debe tener al menos " + IntToString(min) + " caracteres"
  {
    if value != [] && |value| >= min then None
    else Some(fieldName + " debe tener al menos " + IntToString(min) + " caracteres")
  }

  /** maxLength: an empty value fails whatever the bound. */
  function MaxLength(value: string, max: int, fieldName: string := Campo): (r: Option<string>)
    ensures r.None? <==> value != [] && |value| <= max
    ensures r.Some? ==> r.value == fieldName + " debe tener máximo " + IntToString(max) + " caracteres"
  {
    if value != [] && |value| <= max then None
    else Some(fieldName + " debe tener máximo " + IntToString(max) + " caracteres")
  }

  /** confirmPassword: the two entries must be the same string. */
  function ConfirmPassword(password: string, confirmPassword: string): (r: Option<string>)
    ensures r.None? <==> password == confirmPassword
    ensures r.Some? ==> r.value == "Las contraseñas no coinciden"
  {
    if password == confirmPassword then None else Some("Las contraseñas no coinciden")
  }

  /** The empty string passes neither bound check, even a bound of 0. */
  lemma LengthBoundsRejectEmpty(min: int, max: int, fieldName: string)
    ensures MinLength("", min, fieldName).Some? && MaxLength("", max, fieldName).Some?
  {
  }

  // ---------------------------------------------------------------------------
  // email
  // ---------------------------------------------------------------------------

  /** A run of the class [^\s@]: no white space and no '@'. */
  predicate Segmento(x: string) {
    forall k | 0 <= k < |x| :: !IsJsWhiteSpace(x[k]) && x[k] != '@'
  }

  /**
   * The regular expression ^[^\s@]+@[^\s@]+\.[^\s@]+$ matches: the value splits
   * at an '@' (index i) and a later '.' (index j) into three non-empty runs.
   */
  predicate CoincideEmail(v: string) {
    exists i, j | 0 < i && i + 1 < j && j + 1 < |v| ::
      v[i] == '@' && v[j] == '.' && Segmento(v[..i]) && Segmento(v[i + 1..j]) && Segmento(v[j + 1..])
  }

  /** email: an empty value passes; otherwise the value must match the pattern. */
  function Email(value: string): (r: Option<string>)
    ensures r.None? <==> value == [] || CoincideEmail(value)
    ensures r.Some? ==> r.value == "Formato de email inválido"
  {
    if value == [] || CoincideEmail(value) then None else Some("Formato de email inválido")
  }

  /**
   * The shape the pattern describes: no white space, exactly one '@', with
   * something before it, and a '.' after it that is neither right after the
   * '@' nor the last character.
   */
  predicate FormaEmail(v: string) {
    (forall k | 0 <= k < |v| :: !IsJsWhiteSpace(v[k]))
    && exists i | 0 < i < |v| ::
         && v[i] == '@'
         && (forall k | 0 <= k < |v| && k != i :: v[k] != '@')
         && exists j | i + 1 < j < |v| - 1 :: v[j] == '.'
  }

  /** A slice is a run of [^\s@] when each of its characters is. */
  lemma SegmentoDeRango(v: string, lo: int, hi: int)
    requires 0 <= lo <= hi <= |v|
    requires forall k | lo <= k < hi :: !IsJsWhiteSpace(v[k]) && v[k] != '@'
    ensures Segmento(v[lo..hi])
  {
    forall k | lo <= k < hi ensures v[lo..hi][k - lo] == v[k] {}
  }

  /** Each character of a slice that is a run of [^\s@] is neither white space nor '@'. */
  lemma EnSegmento(v: string, lo: int, hi: int, k: int)
    requires 0 <= lo <= k < hi <= |v| && Segmento(v[lo..hi])
    ensures !IsJsWhiteSpace(v[k]) && v[k] != '@'
  {
    assert v[k] == v[lo..hi][k - lo];
  }

  /** The pattern matches exactly the values of that shape. */
  lemma CoincideEmailIff(v: string)
    ensures CoincideEmail(v) <==> FormaEmail(v)
  {
    if CoincideEmail(v) {
      CoincideEmailForma(v);
    }
    if FormaEmail(v) {
      FormaCoincideEmail(v);
    }
  }

  /** A match has the shape: the '@' it splits at is the only one. */
  lemma CoincideEmailForma(v: string)
    requires CoincideEmail(v)
    ensures FormaEmail(v)
  {
    var i, j :| 0 < i && i + 1 < j && j + 1 < |v| &&
      v[i] == '@' && v[j] == '.' && Segmento(v[..i]) && Segmento(v[i + 1..j]) && Segmento(v[j + 1..]);
    assert v[..i] == v[0..i] && v[j + 1..] == v[j + 1..|v|];
    forall k | 0 <= k < |v| ensures !IsJsWhiteSpace(v[k]) && (k != i ==> v[k] != '@') {
      if k < i {
        EnSegmento(v, 0, i, k);
      } else if i < k < j {
        EnSegmento(v, i + 1, j, k);
      } else if j < k {
        EnSegmento(v, j + 1, |v|, k);
      }
    }
  }

  /** A value of that shape matches, splitting at its '@' and a '.' after it. */
  lemma FormaCoincideEmail(v: string)
    requires FormaEmail(v)
    ensures CoincideEmail(v)
  {
    var i :| 0 < i < |v| && v[i] == '@' && (forall k | 0 <= k < |v| && k != i :: v[k] != '@')
             && exists j | i + 1 < j < |v| - 1 :: v[j] == '.';
    var j :| i + 1 < j < |v| - 1 && v[j] == '.';
    SegmentoDeRango(v, 0, i);
    SegmentoDeRango(v, i + 1, j);
    SegmentoDeRango(v, j + 1, |v|);
    assert v[..i] == v[0..i] && v[j + 1..] == v[j + 1..|v|];
  }

  /** "usuario@escuela.mx" passes; "usuario@escuela" (no dot after the '@') does not. */
  lemma EmailExamples()
    ensures Email("usuario@escuela.mx").None?
    ensures Email("usuario@escuela").Some?
  {
    var good := "usuario@escuela.mx";
    assert good[7] == '@' && good[15] == '.';
    assert Segmento(good[..7]) && Segmento(good[8..15]) && Segmento(good[16..]);
    var bad := "usuario@escuela";
    CoincideEmailIff(bad);
    assert forall j | 8 < j < |bad| - 1 :: bad[j] != '.';
  }

  // ---------------------------------------------------------------------------
  // password
  // ---------------------------------------------------------------------------

  /** The characters /[!@#$%^&*(),.?":{}|<>]/ accepts as special. */
  const EspecialesCliente: string := "!@#$%^&*(),.?\":{}|<>"

  predicate TieneMayusculaAscii(v: string) { exists i | 0 <= i < |v| :: 'A' <= v[i] <= 'Z' }
  predicate TieneMinusculaAscii(v: string) { exists i | 0 <= i < |v| :: 'a' <= v[i] <= 'z' }
  predicate TieneDigito(v: string) { exists i | 0 <= i < |v| :: '0' <= v[i] <= '9' }
  predicate TieneEspecialCliente(v: string) { exists i | 0 <= i < |v| :: v[i] in EspecialesCliente }

  /** The client's password rules, in the order they are tried. */
  datatype ReglaCliente = Requerida | Longitud | Mayuscula | Minuscula | Digito | Especial

  const ReglasCliente: seq<ReglaCliente> := [Requerida, Longitud, Mayuscula, Minuscula, Digito, Especial]

  predicate CumpleCliente(r: ReglaCliente, v: string) {
    match r
    case Requerida => v != []
    case Longitud => |v| >= 8
    case Mayuscula => TieneMayusculaAscii(v)
    case Minuscula => TieneMinusculaAscii(v)
    case Digito => TieneDigito(v)
    case Especial => TieneEspecialCliente(v)
  }

  function MensajeCliente(r: ReglaCliente): string {
    match r
    case Requerida => "Contraseña es requerida"
    case Longitud => "Debe tener al menos 8 caracteres"
    case Mayuscula => "Debe contener al menos una mayúscula"
    case Minuscula => "Debe contener al menos una minúscula"
    case Digito => "Debe contener al menos un número"
    case Especial => "Debe contener al menos un carácter especial"
  }

  /**
   * password: the message of the first rule that fails, in the source's order;
   * no message exactly when every rule holds.
   */
  function Password(value: string): (r: Option<string>)
    ensures r.None? <==> forall k | 0 <= k < |ReglasCliente| :: CumpleCliente(ReglasCliente[k], value)
  {
    ReglasClienteTodas(value);
    if value == [] then Some("Contraseña es requerida")
    else if |value| < 8 then Some("Debe tener al menos 8 caracteres")
    else if !TieneMayusculaAscii(value) then Some("Debe contener al menos una mayúscula")
    else if !TieneMinusculaAscii(value) then Some("Debe contener al menos una minúscula")
    else if !TieneDigito(value) then Some("Debe contener al menos un número")
    else if !TieneEspecialCliente(value) then Some("Debe contener al menos un carácter especial")
    else None
  }

  /** All six rules hold exactly when each of the tests holds. */
  lemma ReglasClienteTodas(v: string)
    ensures (forall k | 0 <= k < |ReglasCliente| :: CumpleCliente(ReglasCliente[k], v))
      <==> v != [] && |v| >= 8 && TieneMayusculaAscii(v) && TieneMinusculaAscii(v)
           && TieneDigito(v) && TieneEspecialCliente(v)
  {
    if v != [] && |v| >= 8 && TieneMayusculaAscii(v) && TieneMinusculaAscii(v) && TieneDigito(v)
       && TieneEspecialCliente(v)
    {
      forall k | 0 <= k < |ReglasCliente| ensures CumpleCliente(ReglasCliente[k], v) {
        assert ReglasCliente[k] in {Requerida, Longitud, Mayuscula, Minuscula, Digito, Especial};
      }
    } else {
      if v == [] { assert !CumpleCliente(ReglasCliente[0], v); }
      else if |v| < 8 { assert !CumpleCliente(ReglasCliente[1], v); }
      else if !TieneMayusculaAscii(v) { assert !CumpleCliente(ReglasCliente[2], v); }
      else if !TieneMinusculaAscii(v) { assert !CumpleCliente(ReglasCliente[3], v); }
      else if !TieneDigito(v) { assert !CumpleCliente(ReglasCliente[4], v); }
      else { assert !CumpleCliente(ReglasCliente[5], v); }
    }
  }

  /**
   * Only the first failing rule is reported: when rule k fails and every rule
   * before it holds, the message is rule k's, whatever the later rules say.
   */
  lemma PasswordReportsFirst(v: string, k: nat)
    requires k < |ReglasCliente| && !CumpleCliente(ReglasCliente[k], v)
    requires forall m | 0 <= m < k :: CumpleCliente(ReglasCliente[m], v)
    ensures Password(v) == Some(MensajeCliente(ReglasCliente[k]))
  {
    if k > 0 { assert CumpleCliente(ReglasCliente[0], v); }
    if k > 1 { assert CumpleCliente(ReglasCliente[1], v); }
    if k > 2 { assert CumpleCliente(ReglasCliente[2], v); }
    if k > 3 { assert CumpleCliente(ReglasCliente[3], v); }
    if k > 4 { assert CumpleCliente(ReglasCliente[4], v); }
  }

  /** No character of the client's special list is a letter or a digit. */
  lemma EspecialNoAlfanumerico(c: char)
    requires c in EspecialesCliente
    ensures !IsLetterOrDigit(c)
  {
    var k :| 0 <= k < |EspecialesCliente| && EspecialesCliente[k] == c;
  }

  /** Every password the client accepts also passes the server's strength check. */
  lemma ClientAcceptedIsStrong(v: string)
    requires Password(v).None?
    ensures PasswordHelper.Fortaleza(v).esValida
  {
    var a :| 0 <= a < |v| && 'A' <= v[a] <= 'Z';
    var b :| 0 <= b < |v| && 'a' <= v[b] <= 'z';
    var c :| 0 <= c < |v| && '0' <= v[c] <= '9';
    var d :| 0 <= d < |v| && v[d] in EspecialesCliente;
    assert IsUpper(v[a]) && IsLower(v[b]) && IsDigit(v[c]);
    EspecialNoAlfanumerico(v[d]);
    PasswordHelper.FortalezaValidIff(v);
  }

  /** A letter or digit is never on the client's special list. */
  lemma AlfanumericoNoEspecial(c: char)
    requires IsLetterOrDigit(c)
    ensures c !in EspecialesCliente
  {
    if c in EspecialesCliente {
      EspecialNoAlfanumerico(c);
    }
  }

  /** "Abcdefg1-" passes the server's strength check: '-' is neither a letter nor a digit. */
  lemma ServerAcceptsHyphen()
    ensures PasswordHelper.Fortaleza("Abcdefg1-").esValida
  {
    var v := "Abcdefg1-";
    assert IsUpper(v[0]) && IsLower(v[1]) && IsDigit(v[7]) && !IsLetterOrDigit(v[8]);
    PasswordHelper.FortalezaValidIff(v);
  }

  /**
   * The converse of ClientAcceptedIsStrong fails: the client rejects
   * "Abcdefg1-", which the server accepts, because '-' is not on its list.
   */
  lemma ClientRejectsHyphen()
    ensures Password("Abcdefg1-") == Some(MensajeCliente(Especial))
  {
    var v := "Abcdefg1-";
    assert TieneMayusculaAscii(v) by { assert 'A' <= v[0] <= 'Z'; }
    assert TieneMinusculaAscii(v) by { assert 'a' <= v[1] <= 'z'; }
    assert TieneDigito(v) by { assert '0' <= v[7] <= '9'; }
    SinEspecialCliente(v);
  }

  /** "Abcdefg1-" holds no character of the client's special list. */
  lemma SinEspecialCliente(v: string)
    requires v == "Abcdefg1-"
    ensures !TieneEspecialCliente(v)
  {
    forall i | 0 <= i < |v| ensures v[i] !in EspecialesCliente {
      if i < 8 {
        assert IsLetterOrDigit(v[i]);
        AlfanumericoNoEspecial(v[i]);
      } else {
        assert v[i] == '-';
      }
    }
  }
}
