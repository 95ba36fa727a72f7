/**
 * Password utilities of the API: hashing behind guard clauses, the strength
 * check, and the random password generator.
 *
 * The hashing library (BCrypt) is not modelled: it enters as a `HashScheme`
 * parameter, and `Sound` is the one property the rest of the model relies on
 * (a hash of a non-empty password is non-empty and verifies against it).
 */
module PasswordHelper {
  import opened Wrappers
  import opened Text

  // ---------------------------------------------------------------------------
  // Hashing
  // ---------------------------------------------------------------------------

  /**
   * The hashing library: `hash(password, salt, workFactor)` is HashPassword with
   * the salt it would draw at random, and `compare(password, hash)` is Verify,
   * giving None when the library throws (a malformed stored hash, say).
   */
  datatype HashScheme = HashScheme(
    hash: (string, nat, int) -> string,
    compare: (string, string) -> Option<bool>)

  /** The work factors the library accepts. */
  predicate WorkFactorValido(workFactor: int) {
    MinWorkFactor <= workFactor <= MaxWorkFactor
  }

  const MinWorkFactor: int := 4
  const MaxWorkFactor: int := 31

  /**
   * What the code relies on from the library: for an accepted work factor,
   * hashes of non-empty passwords are non-empty and verify.
   */
  ghost predicate Sound(s: HashScheme) {
    forall p: string, salt: nat, workFactor: int | WorkFactorValido(workFactor) ::
      p != [] ==> s.hash(p, salt, workFactor) != [] && s.compare(p, s.hash(p, salt, workFactor)) == Some(true)
  }

  /** The exception thrown for an invalid argument, with its message and parameter name. */
  datatype ArgumentException = ArgumentException(message: string, paramName: string)

  const DefaultWorkFactor: int := 12
  const EmptyPasswordMessage: string := "La contraseña no puede estar vacía"

  /** CifrarContrasena: an empty password throws; otherwise the library's hash is returned. */
  function CifrarContrasena(s: HashScheme, password: string, salt: nat, workFactor: int := DefaultWorkFactor)
    : (r: Result<string, ArgumentException>)
    ensures r.Failure? <==> password == []
    ensures r.Failure? ==> r.error == ArgumentException(EmptyPasswordMessage, "password")
    ensures Sound(s) && WorkFactorValido(workFactor) && r.Success? ==>
              r.value != [] && VerificarContrasena(s, password, r.value)
  {
    if password == [] then Failure(ArgumentException(EmptyPasswordMessage, "password"))
    else Success(s.hash(password, salt, workFactor))
  }

  /**
   * VerificarContrasena: false on an empty password or stored hash, and false
   * when the library throws; never raises.
   */
  function VerificarContrasena(s: HashScheme, password: string, hashedPassword: string): (b: bool)
    ensures b <==> password != [] && hashedPassword != [] && s.compare(password, hashedPassword) == Some(true)
  {
    if password == [] then false
    else if hashedPassword == [] then false
    else
      match s.compare(password, hashedPassword)
      case Some(ok) => ok
      case None => false
  }

  /** Hashing then verifying succeeds for every non-empty password and every salt. */
  lemma HashRoundTrip(s: HashScheme, password: string, salt: nat)
    requires Sound(s) && password != []
    ensures CifrarContrasena(s, password, salt).Success?
    ensures VerificarContrasena(s, password, CifrarContrasena(s, password, salt).value)
  {
  }

  // ---------------------------------------------------------------------------
  // Strength check
  // ---------------------------------------------------------------------------

  /** ResultadoValidacion: the verdict and its message. */
  datatype ResultadoValidacion = ResultadoValidacion(esValida: bool, mensaje: string)

  const SuccessMessage: string := "La contraseña cumple con los criterios de seguridad"

  /** The rules of the strength check, in the order they are reported. */
  datatype Regla = LongitudMinima | Mayuscula | Minuscula | Numero | Especial

  const Reglas: seq<Regla> := [LongitudMinima, Mayuscula, Minuscula, Numero, Especial]

  predicate TieneMayuscula(p: string) { exists i | 0 <= i < |p| :: IsUpper(p[i]) }
  predicate TieneMinuscula(p: string) { exists i | 0 <= i < |p| :: IsLower(p[i]) }
  predicate TieneNumero(p: string) { exists i | 0 <= i < |p| :: IsDigit(p[i]) }
  predicate TieneEspecial(p: string) { exists i | 0 <= i < |p| :: !IsLetterOrDigit(p[i]) }

  predicate Cumple(r: Regla, p: string) {
    match r
    case LongitudMinima => |p| >= 8
    case Mayuscula => TieneMayuscula(p)
    case Minuscula => TieneMinuscula(p)
    case Numero => TieneNumero(p)
    case Especial => TieneEspecial(p)
  }

  function Mensaje(r: Regla): string {
    match r
    case LongitudMinima => "Debe tener al menos 8 caracteres"
    case Mayuscula => "Debe contener al menos una letra mayúscula"
    case Minuscula => "Debe contener al menos una letra minúscula"
    case Numero => "Debe contener al menos un número"
    case Especial => "Debe contener al menos un carácter especial"
  }

  /** The messages of the rules in `rs` that `p` violates, in the order of `rs`. */
  function Incumplidas(rs: seq<Regla>, p: string): seq<string> {
    if rs == [] then []
    else (if Cumple(rs[0], p) then [] else [Mensaje(rs[0])]) + Incumplidas(rs[1..], p)
  }

  /** The strength check as a value: the specification of ValidarFortalezaContrasena. */
  function Fortaleza(p: string): ResultadoValidacion {
    if p == [] then ResultadoValidacion(false, EmptyPasswordMessage)
    else
      var errores := Incumplidas(Reglas, p);
      if errores == [] then ResultadoValidacion(true, SuccessMessage)
      else ResultadoValidacion(false, Join(", ", errores))
  }

  /** No message is collected exactly when every rule holds. */
  lemma {:induction false} IncumplidasEmptyIff(rs: seq<Regla>, p: string)
    ensures Incumplidas(rs, p) == [] <==> forall k | 0 <= k < |rs| :: Cumple(rs[k], p)
  {
    if rs != [] {
      IncumplidasEmptyIff(rs[1..], p);
      assert forall k | 1 <= k < |rs| :: rs[k] == rs[1..][k - 1];
    }
  }

  /** Every violated rule has its message among the collected ones. */
  lemma {:induction false} IncumplidasHasEach(rs: seq<Regla>, p: string, k: nat)
    requires k < |rs| && !Cumple(rs[k], p)
    ensures Mensaje(rs[k]) in Incumplidas(rs, p)
  {
    if k > 0 {
      IncumplidasHasEach(rs[1..], p, k - 1);
    }
  }

  /**
   * A non-empty password is accepted exactly when it has at least 8 characters,
   * an upper-case letter, a lower-case letter, a digit and a character that is
   * neither a letter nor a digit.
   */
  lemma FortalezaValidIff(p: string)
    requires p != []
    ensures Fortaleza(p).esValida <==>
      |p| >= 8 && TieneMayuscula(p) && TieneMinuscula(p) && TieneNumero(p) && TieneEspecial(p)
  {
    IncumplidasEmptyIff(Reglas, p);
    if |p| >= 8 && TieneMayuscula(p) && TieneMinuscula(p) && TieneNumero(p) && TieneEspecial(p) {
      forall k | 0 <= k < |Reglas| ensures Cumple(Reglas[k], p) {
        assert Reglas[k] in {LongitudMinima, Mayuscula, Minuscula, Numero, Especial};
      }
    }
    if Fortaleza(p).esValida {
      assert Cumple(Reglas[0], p) && Cumple(Reglas[1], p) && Cumple(Reglas[2], p);
      assert Cumple(Reglas[3], p) && Cumple(Reglas[4], p);
    }
  }

  /** An empty password is rejected with the fixed message. */
  lemma FortalezaEmpty()
    ensures Fortaleza("") == ResultadoValidacion(false, EmptyPasswordMessage)
  {
  }

  /** A rejected non-empty password's message names every violated rule, not just the first. */
  lemma FortalezaListsEach(p: string, r: Regla)
    requires p != [] && !Cumple(r, p)
    ensures !Fortaleza(p).esValida
    ensures Contains(Fortaleza(p).mensaje, Mensaje(r))
  {
    var k := match r
      case LongitudMinima => 0 case Mayuscula => 1 case Minuscula => 2 case Numero => 3 case Especial => 4;
    assert Reglas[k] == r;
    IncumplidasHasEach(Reglas, p, k);
    var errores := Incumplidas(Reglas, p);
    var j :| 0 <= j < |errores| && errores[j] == Mensaje(r);
    JoinContainsEach(", ", errores, j);
  }

  /** "Ab1!aaaa" passes the strength check. */
  lemma FortalezaAcceptsExample()
    ensures Fortaleza("Ab1!aaaa").esValida
  {
    var good := "Ab1!aaaa";
    assert IsUpper(good[0]) && IsLower(good[1]) && IsDigit(good[2]) && !IsLetterOrDigit(good[3]);
    FortalezaValidIff(good);
  }

  /**
   * A short password of lower-case letters only ("abc", say) fails with the
   * length, upper-case, digit and special messages, in that order.
   */
  lemma FortalezaRejectsShortLowercase(p: string)
    requires 0 < |p| < 8 && forall i | 0 <= i < |p| :: 'a' <= p[i] <= 'z'
    ensures Fortaleza(p) == ResultadoValidacion(false,
      Mensaje(LongitudMinima) + ", " + Mensaje(Mayuscula) + ", " + Mensaje(Numero) + ", " + Mensaje(Especial))
  {
    var e := [Mensaje(LongitudMinima), Mensaje(Mayuscula), Mensaje(Numero), Mensaje(Especial)];
    ShortLowercaseViolations(p);
    JoinFour(e);
    FortalezaOfCollected(p, e);
  }

  /** A short all-lowercase password breaks every rule except Minuscula. */
  lemma ShortLowercaseViolations(p: string)
    requires 0 < |p| < 8 && forall i | 0 <= i < |p| :: 'a' <= p[i] <= 'z'
    ensures Incumplidas(Reglas, p) == [Mensaje(LongitudMinima), Mensaje(Mayuscula), Mensaje(Numero), Mensaje(Especial)]
  {
    ShortLowercaseCumple(p);
    IncumplidasReglas(p);
    assert Paso(Minuscula, p) == [];
  }

  /** Which rules a short all-lowercase password satisfies. */
  lemma ShortLowercaseCumple(p: string)
    requires 0 < |p| < 8 && forall i | 0 <= i < |p| :: 'a' <= p[i] <= 'z'
    ensures !Cumple(LongitudMinima, p) && !Cumple(Mayuscula, p) && Cumple(Minuscula, p)
    ensures !Cumple(Numero, p) && !Cumple(Especial, p)
  {
    assert IsLower(p[0]);
  }

  /** The messages collected for one rule. */
  function Paso(r: Regla, p: string): seq<string> {
    if Cumple(r, p) then [] else [Mensaje(r)]
  }

  /** The collected messages are the five rules' contributions in order. */
  lemma IncumplidasReglas(p: string)
    ensures Incumplidas(Reglas, p)
      == Paso(LongitudMinima, p) + Paso(Mayuscula, p) + Paso(Minuscula, p) + Paso(Numero, p) + Paso(Especial, p)
  {
    IncumplidasCinco(Reglas, p);
  }

  /** Five rules contribute in order. */
  lemma IncumplidasCinco(rs: seq<Regla>, p: string)
    requires |rs| == 5
    ensures Incumplidas(rs, p) == Paso(rs[0], p) + Paso(rs[1], p) + Paso(rs[2], p) + Paso(rs[3], p) + Paso(rs[4], p)
  {
    var r1, r2, r3, r4 := rs[1..], rs[2..], rs[3..], rs[4..];
    assert r1[1..] == r2 && r2[1..] == r3 && r3[1..] == r4;
    IncumplidasUna(r4, p);
    IncumplidasCons(r3, p);
    IncumplidasCons(r2, p);
    IncumplidasCons(r1, p);
    IncumplidasCons(rs, p);
  }

  /** A single rule contributes its own message or nothing. */
  lemma IncumplidasUna(rs: seq<Regla>, p: string)
    requires |rs| == 1
    ensures Incumplidas(rs, p) == Paso(rs[0], p)
  {
    assert rs[1..] == [];
  }

  /** The first rule's contribution comes first. */
  lemma IncumplidasCons(rs: seq<Regla>, p: string)
    requires rs != []
    ensures Incumplidas(rs, p) == Paso(rs[0], p) + Incumplidas(rs[1..], p)
  {
  }

  /** Joining four parts writes the separator between each neighbouring pair. */
  lemma JoinFour(e: seq<string>)
    requires |e| == 4
    ensures Join(", ", e) == e[0] + ", " + e[1] + ", " + e[2] + ", " + e[3]
  {
    assert Join(", ", e[2..]) == e[2] + ", " + e[3];
    assert Join(", ", e[1..]) == e[1] + ", " + Join(", ", e[2..]);
  }

  /** The verdict once the messages of all violated rules are collected. */
  lemma FortalezaOfCollected(p: string, errores: seq<string>)
    requires p != [] && errores == Incumplidas(Reglas, p)
    ensures Fortaleza(p) == if errores == [] then ResultadoValidacion(true, SuccessMessage)
                            else ResultadoValidacion(false, Join(", ", errores))
  {
  }

  /**
   * ValidarFortalezaContrasena: the violated rules are appended one by one, in
   * a fixed order and without stopping at the first.
   */
  method ValidarFortalezaContrasena(password: string) returns (r: ResultadoValidacion)
    ensures r == Fortaleza(password)
  {
    if password == [] {
      return ResultadoValidacion(false, EmptyPasswordMessage);
    }
    var errores: seq<string> := [];
    if |password| < 8 {
      errores := errores + [Mensaje(LongitudMinima)];
    }
    assert errores == Paso(LongitudMinima, password);
    if !TieneMayuscula(password) {
      errores := errores + [Mensaje(Mayuscula)];
    }
    assert errores == Paso(LongitudMinima, password) + Paso(Mayuscula, password);
    if !TieneMinuscula(password) {
      errores := errores + [Mensaje(Minuscula)];
    }
    assert errores == Paso(LongitudMinima, password) + Paso(Mayuscula, password) + Paso(Minuscula, password);
    if !TieneNumero(password) {
      errores := errores + [Mensaje(Numero)];
    }
    assert errores == Paso(LongitudMinima, password) + Paso(Mayuscula, password) + Paso(Minuscula, password)
                      + Paso(Numero, password);
    if !TieneEspecial(password) {
      errores := errores + [Mensaje(Especial)];
    }
    IncumplidasReglas(password);
    FortalezaOfCollected(password, errores);
    var esValida := errores == [];
    var mensaje := if esValida then SuccessMessage else Join(", ", errores);
    r := ResultadoValidacion(esValida, mensaje);
  }

  // ---------------------------------------------------------------------------
  // Random password generator
  // ---------------------------------------------------------------------------

  // The three range alphabets are written as comprehensions, which keeps the
  // generator's proof small; AlphabetLiterals shows they are the source's strings.
  const Mayusculas: string := seq(26, k requires 0 <= k < 26 => ('A' as int + k) as char)
  const Minusculas: string := seq(26, k requires 0 <= k < 26 => ('a' as int + k) as char)
  const Numeros: string := seq(10, k requires 0 <= k < 10 => ('0' as int + k) as char)
  const Especiales: string := "!@#$%^&*()-_=+[]{}|;:,.<>?"
  const TodosCaracteres: string := Mayusculas + Minusculas + Numeros + Especiales

  /**
   * The random source: `next(k, n)` is the result of the k-th call Next(n),
   * counting calls from 0. Every draw lies in [0, n).
   */
  ghost predicate EnRango(next: (nat, nat) -> nat) {
    forall k: nat, n: nat :: 0 < n ==> next(k, n) < n
  }

  /** The character written at position k before shuffling: one of each class, then the union. */
  function CharRelleno(k: nat, next: (nat, nat) -> nat): char
    requires EnRango(next)
  {
    if k == 0 then Mayusculas[next(0, |Mayusculas|)]
    else if k == 1 then Minusculas[next(1, |Minusculas|)]
    else if k == 2 then Numeros[next(2, |Numeros|)]
    else if k == 3 then Especiales[next(3, |Especiales|)]
    else TodosCaracteres[next(k, |TodosCaracteres|)]
  }

  /** The buffer before shuffling. */
  function Relleno(longitud: nat, next: (nat, nat) -> nat): (b: seq<char>)
    requires EnRango(next)
    ensures |b| == longitud
  {
    seq(longitud, k requires 0 <= k < longitud => CharRelleno(k, next))
  }

  /** The alphabets spelled out. */
  lemma AlphabetLiterals()
    ensures Mayusculas == "ABCDEFGHIJKLMNOPQRSTUVWXYZ"
    ensures Minusculas == "abcdefghijklmnopqrstuvwxyz"
    ensures Numeros == "0123456789"
    ensures |TodosCaracteres| == 88
  {
  }

  /** Every alphabet character is in the union; each class alphabet has its class. */
  lemma AlphabetFacts()
    ensures forall k | 0 <= k < |Mayusculas| :: IsUpper(Mayusculas[k]) && Mayusculas[k] in TodosCaracteres
    ensures forall k | 0 <= k < |Minusculas| :: IsLower(Minusculas[k]) && Minusculas[k] in TodosCaracteres
    ensures forall k | 0 <= k < |Numeros| :: IsDigit(Numeros[k]) && Numeros[k] in TodosCaracteres
    ensures forall k | 0 <= k < |Especiales| :: !IsLetterOrDigit(Especiales[k]) && Especiales[k] in TodosCaracteres
  {
    InUnion();
    EspecialesNoAlfanumericos();
  }

  /** Each alphabet is a slice of the union. */
  lemma InUnion()
    ensures forall k | 0 <= k < |Mayusculas| :: Mayusculas[k] in TodosCaracteres
    ensures forall k | 0 <= k < |Minusculas| :: Minusculas[k] in TodosCaracteres
    ensures forall k | 0 <= k < |Numeros| :: Numeros[k] in TodosCaracteres
    ensures forall k | 0 <= k < |Especiales| :: Especiales[k] in TodosCaracteres
  {
    var m, n, d := |Mayusculas|, |Minusculas|, |Numeros|;
    forall k | 0 <= k < |Mayusculas| ensures Mayusculas[k] in TodosCaracteres {
      assert TodosCaracteres[k] == Mayusculas[k];
    }
    forall k | 0 <= k < |Minusculas| ensures Minusculas[k] in TodosCaracteres {
      assert TodosCaracteres[m + k] == Minusculas[k];
    }
    forall k | 0 <= k < |Numeros| ensures Numeros[k] in TodosCaracteres {
      assert TodosCaracteres[m + n + k] == Numeros[k];
    }
    forall k | 0 <= k < |Especiales| ensures Especiales[k] in TodosCaracteres {
      assert TodosCaracteres[m + n + d + k] == Especiales[k];
    }
  }

  /** The special characters are neither letters nor digits. */
  lemma EspecialesNoAlfanumericos()
    ensures forall k | 0 <= k < |Especiales| :: !IsLetterOrDigit(Especiales[k])
  {
  }

  /** The unshuffled buffer has one character of each class and only characters of the union. */
  lemma RellenoFacts(longitud: nat, next: (nat, nat) -> nat)
    requires EnRango(next) && longitud >= 4
    ensures IsUpper(Relleno(longitud, next)[0]) && IsLower(Relleno(longitud, next)[1])
    ensures IsDigit(Relleno(longitud, next)[2]) && !IsLetterOrDigit(Relleno(longitud, next)[3])
    ensures forall c | c in Relleno(longitud, next) :: c in TodosCaracteres
  {
    AlphabetFacts();
  }

  /**
   * Any rearrangement of a buffer that has a character of each class and at
   * least 8 characters passes the strength check.
   */
  lemma {:induction false} PermutationKeepsStrength(b: seq<char>, r: seq<char>)
    requires multiset(r) == multiset(b) && |b| >= 8
    requires IsUpper(b[0]) && IsLower(b[1]) && IsDigit(b[2]) && !IsLetterOrDigit(b[3])
    ensures Fortaleza(r).esValida
  {
    assert |r| == |multiset(r)| == |multiset(b)| == |b|;
    assert b[0] in multiset(r) && b[1] in multiset(r) && b[2] in multiset(r) && b[3] in multiset(r);
    var i0 :| 0 <= i0 < |r| && r[i0] == b[0];
    var i1 :| 0 <= i1 < |r| && r[i1] == b[1];
    var i2 :| 0 <= i2 < |r| && r[i2] == b[2];
    var i3 :| 0 <= i3 < |r| && r[i3] == b[3];
    FortalezaValidIff(r);
  }

  /** Exchanging two positions of a buffer keeps its multiset of characters. */
  lemma SwapKeepsMultiset(before: seq<char>, after: seq<char>, i: nat, j: nat)
    requires i < |before| && j < |before|
    requires after == before[i := before[j]][j := before[i]]
    ensures multiset(after) == multiset(before)
  {
  }

  /** What a shuffle of the filled buffer guarantees. */
  lemma ShuffledFacts(longitud: nat, next: (nat, nat) -> nat, s: seq<char>)
    requires EnRango(next) && longitud >= 8
    requires multiset(s) == multiset(Relleno(longitud, next))
    ensures |s| == longitud
    ensures forall i | 0 <= i < |s| :: s[i] in TodosCaracteres
    ensures Fortaleza(s).esValida
  {
    var b := Relleno(longitud, next);
    RellenoFacts(longitud, next);
    PermutationKeepsStrength(b, s);
    forall k | 0 <= k < |s| ensures s[k] in TodosCaracteres {
      assert s[k] in multiset(b);
    }
  }

  /**
   * The shuffle as a value: from position i on, each position k is exchanged
   * with the position drawn by call `draw0 + k` of the random source.
   */
  function Barajado(b: seq<char>, next: (nat, nat) -> nat, draw0: nat, i: nat): (r: seq<char>)
    requires EnRango(next)
    ensures |r| == |b|
    decreases |b| - i
  {
    if i >= |b| then b
    else
      var j := next(draw0 + i, |b|);
      Barajado(b[i := b[j]][j := b[i]], next, draw0, i + 1)
  }

  /** The shuffle only exchanges positions, so it keeps the multiset of characters. */
  lemma {:induction false} BarajadoPermuta(b: seq<char>, next: (nat, nat) -> nat, draw0: nat, i: nat)
    requires EnRango(next)
    ensures multiset(Barajado(b, next, draw0, i)) == multiset(b)
    decreases |b| - i
  {
    if i < |b| {
      var j := next(draw0 + i, |b|);
      var c := b[i := b[j]][j := b[i]];
      SwapKeepsMultiset(b, c, i, j);
      BarajadoPermuta(c, next, draw0, i + 1);
    }
  }

  /** One step of the shuffle: exchange position i with its draw, then go on from i + 1. */
  lemma BarajadoPaso(b: seq<char>, c: seq<char>, next: (nat, nat) -> nat, draw0: nat, i: nat)
    requires EnRango(next) && i < |b|
    requires c == b[i := b[next(draw0 + i, |b|)]][next(draw0 + i, |b|) := b[i]]
    ensures Barajado(b, next, draw0, i) == Barajado(c, next, draw0, i + 1)
  {
  }

  /** Past the last position the shuffle leaves the sequence as it is. */
  lemma BarajadoFin(b: seq<char>, next: (nat, nat) -> nat, draw0: nat, i: nat)
    requires EnRango(next) && i >= |b|
    ensures Barajado(b, next, draw0, i) == b
  {
  }

  /**
   * The shuffle loop of GenerarContrasenaAleatoria: position i is exchanged with
   * the position drawn by call `draw0 + i` of the random source.
   */
  method Mezclar(password: array<char>, next: (nat, nat) -> nat, draw0: nat)
    requires EnRango(next)
    modifies password
    ensures password[..] == Barajado(old(password[..]), next, draw0, 0)
    ensures multiset(password[..]) == multiset(old(password[..]))
  {
    var longitud := password.Length;
    ghost var objetivo := Barajado(password[..], next, draw0, 0);
    var i := 0;
    while i < longitud
      invariant 0 <= i <= longitud
      invariant Barajado(password[..], next, draw0, i) == objetivo
    {
      var randomIndex := next(draw0 + i, longitud);
      ghost var before := password[..];
      password[i], password[randomIndex] := password[randomIndex], password[i];
      BarajadoPaso(before, password[..], next, draw0, i);
      i := i + 1;
    }
    BarajadoFin(password[..], next, draw0, i);
    BarajadoPermuta(old(password[..]), next, draw0, 0);
  }

  /**
   * The filling steps of GenerarContrasenaAleatoria: a fresh buffer holding one
   * character of each class, then characters drawn from the union.
   */
  method Llenar(longitud: nat, next: (nat, nat) -> nat) returns (password: array<char>)
    requires EnRango(next) && longitud >= 8
    ensures fresh(password) && password[..] == Relleno(longitud, next)
  {
    password := new char[longitud];

    // one character of each class
    password[0] := Mayusculas[next(0, |Mayusculas|)];
    password[1] := Minusculas[next(1, |Minusculas|)];
    password[2] := Numeros[next(2, |Numeros|)];
    password[3] := Especiales[next(3, |Especiales|)];

    // the rest from the union of the alphabets
    var i := 4;
    while i < longitud
      invariant 4 <= i <= longitud
      invariant password[..i] == Relleno(longitud, next)[..i]
    {
      password[i] := TodosCaracteres[next(i, |TodosCaracteres|)];
      i := i + 1;
    }
    assert password[..] == password[..longitud];
  }

  /**
   * GenerarContrasenaAleatoria: lengths below 8 throw; otherwise a password of
   * exactly `longitud` characters from the four alphabets, a permutation of the
   * buffer filled with one character per class and the rest from the union, and
   * so one that passes the strength check.
   */
  method GenerarContrasenaAleatoria(next: (nat, nat) -> nat, longitud: int := 12)
    returns (r: Result<string, ArgumentException>)
    requires EnRango(next)
    ensures r.Failure? <==> longitud < 8
    ensures r.Failure? ==> r.error == ArgumentException("La longitud mínima debe ser 8 caracteres", "longitud")
    ensures r.Success? ==> |r.value| == longitud
    ensures r.Success? ==> forall i | 0 <= i < |r.value| :: r.value[i] in TodosCaracteres
    ensures r.Success? ==> r.value == Barajado(Relleno(longitud, next), next, longitud, 0)
    ensures r.Success? ==> multiset(r.value) == multiset(Relleno(longitud, next))
    ensures r.Success? ==> Fortaleza(r.value).esValida
  {
    if longitud < 8 {
      return Failure(ArgumentException("La longitud mínima debe ser 8 caracteres", "longitud"));
    }
    var password := Llenar(longitud, next);
    Mezclar(password, next, longitud);
    var s := password[..];
    ShuffledFacts(longitud, next, s);
    r := Success(s);
  }
}
