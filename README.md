# ProyectoEscolar authentication core, modelled in Dafny

This project models the password and session logic of the ProyectoEscolar school
management system, on both its server side (ASP.NET Core) and its web client side.

- **PasswordHelper** (`password_helper.dfy`) covers four operations:
  - BCrypt hashing behind guard clauses (`CifrarContrasena`, `VerificarContrasena`).
  - The server's password strength check (`ValidarFortalezaContrasena`). The method
    collects the message of every violated rule, in a fixed order.
  - The random password generator (`GenerarContrasenaAleatoria`). It fills a
    `char` array with one character of each class and the rest drawn from the
    union of the alphabets, then shuffles the array in place.
  - The strength check is specified by the function `Fortaleza`; the method is
    proved equal to it. The generator is proved to return exactly the filled
    buffer after the source's sequence of swaps (the function `Barajado`). That
    is a permutation of the buffer, so it always passes the strength check.
- **Autenticacion** (`autenticacion.dfy`) is the authentication controller:
  - `ValidarCredenciales`, including the first-use bootstrap that stores the
    hash of a password of at least 4 characters.
  - The login endpoint `GetToken`.
  - The password change endpoint `CambiarContrasena`.
  - The controller is a class over its user table (`usuarios`, keyed by
    `NombreUsuario`). Each method is proved equal to a pure function from the
    old table to the new table and the response.
  - Lemmas state each rejection path and each acceptance condition. They also
    show that a hash is stored at most once by the bootstrap, and that any
    sequence of requests keeps every account and its `Activo` flag, and never
    erases a stored hash (a password change replaces it with another).
- **ClientValidators** (`client_validators.dfy`) holds the six form validators
  that the TypeScript client (`api.ts`) and the plain JavaScript client
  (`api-service.js`) share word for word:
  - `required`, `minLength`, `maxLength`, `email`, `password`, `confirmPassword`.
  - The e-mail regular expression is given a declarative characterisation.
  - Every password the client accepts also passes the server's check. The
    converse fails, shown by a concrete password containing `-`.
- **ApiErrorHandler** (`api_error_handler.dfy`) maps a failed HTTP call to a
  message and a Bootstrap alert type.
- **TokenService** (`token_service.dfy`) is the session store over
  `localStorage`. It is shared word for word by the two clients.
- **VueComponents** (`vue_components.dfy`) covers `validateForm` and
  `clearErrors` of the login component and of the change-password dialog.
  - Lemmas compare these form checks with the server's ModelState rules.
  - Every login form the client accepts passes the server's ModelState,
    provided no field contains U+0085, which .NET treats as white space and
    JavaScript does not. The converse fails on U+FEFF, which JavaScript trims
    and .NET keeps: the client refuses a user name the server would accept.
  - The dialog does not trim, so passwords made of spaces pass it and the
    server then refuses them.
- **Text** (`text.dfy`) holds the shared helpers:
  - the .NET and JavaScript character classes;
  - `String.prototype.trim`;
  - `string.Join`;
  - the decimal rendering of numbers.
- **Wrappers** (`wrappers.dfy`) defines `Option` and `Result`.

Outcomes the code cannot see are parameters of the model:
- BCrypt is a `HashScheme` (a hash function taking the salt it would draw, and a
  verification that may throw). The predicate `Sound` states the one property
  the code relies on: for a work factor the library accepts (4 to 31), a hash of
  a non-empty password is non-empty and verifies against that password.
- `Random.Next` is a function `next(k, n)` giving the k-th draw below `n`.
- `SaveChangesAsync` succeeding or throwing is `Persistencia`.
- `GenerarToken` producing a token or throwing is `Emision`.

## Model

| member | source | states |
|---|---|---|
| PasswordHelper.CifrarContrasena | ProyectoEscolar.Utilidades/PasswordHelper.cs:17-24 | an empty password fails with ArgumentException("La contraseña no puede estar vacía", "password"), and no other input raises that exception; for a work factor the library accepts (4 to 31), a hash from a sound library is non-empty and verifies against the password |
| PasswordHelper.VerificarContrasena | ProyectoEscolar.Utilidades/PasswordHelper.cs:32-50 | true if and only if the password and the stored hash are both non-empty and the library confirms the match; a rejection or an exception from the library gives false |
| PasswordHelper.HashRoundTrip | ProyectoEscolar.Utilidades/PasswordHelper.cs:17-50 | for every non-empty password and salt, hashing with the default work factor 12 succeeds and the hash verifies against the password |
| PasswordHelper.ValidarFortalezaContrasena | ProyectoEscolar.Utilidades/PasswordHelper.cs:57-90 | the step-by-step check returns exactly the verdict and message of the strength specification Fortaleza |
| PasswordHelper.FortalezaEmpty | ProyectoEscolar.Utilidades/PasswordHelper.cs:59-60 | the empty password is rejected with "La contraseña no puede estar vacía" |
| PasswordHelper.FortalezaValidIff | ProyectoEscolar.Utilidades/PasswordHelper.cs:62-89 | a non-empty password is valid if and only if it has at least 8 characters, an upper-case letter, a lower-case letter, a digit and a character that is neither letter nor digit |
| PasswordHelper.IncumplidasEmptyIff | ProyectoEscolar.Utilidades/PasswordHelper.cs:62-84 | the list of collected errors is empty if and only if every rule holds |
| PasswordHelper.IncumplidasHasEach | ProyectoEscolar.Utilidades/PasswordHelper.cs:62-82 | every violated rule contributes its message to the collected errors |
| PasswordHelper.FortalezaListsEach | ProyectoEscolar.Utilidades/PasswordHelper.cs:62-87 | a rejected non-empty password's message contains the message of every rule it violates, not just the first |
| PasswordHelper.FortalezaAcceptsExample | ProyectoEscolar.Utilidades/PasswordHelper.cs:62-89 | "Ab1!aaaa" is accepted |
| PasswordHelper.FortalezaRejectsShortLowercase | ProyectoEscolar.Utilidades/PasswordHelper.cs:62-87 | a short all-lowercase password is rejected with the length, upper-case, digit and special messages joined by ", " in that order |
| PasswordHelper.AlphabetLiterals | ProyectoEscolar.Utilidades/PasswordHelper.cs:102-117 | the three range alphabets are the source's literals and the union has 88 characters |
| PasswordHelper.AlphabetFacts | ProyectoEscolar.Utilidades/PasswordHelper.cs:102-117 | each class alphabet holds only characters of its class, and all of them are in the union |
| PasswordHelper.RellenoFacts | ProyectoEscolar.Utilidades/PasswordHelper.cs:110-121 | the filled buffer has an upper-case letter, a lower-case letter, a digit and a special character at positions 0-3, and only characters of the union |
| PasswordHelper.Llenar | ProyectoEscolar.Utilidades/PasswordHelper.cs:108-121 | the fresh array holds one drawn character per class followed by characters drawn from the union |
| PasswordHelper.Mezclar | ProyectoEscolar.Utilidades/PasswordHelper.cs:123-128 | the in-place swap loop leaves exactly Barajado of the old contents, each position i exchanged in turn with the position of its draw, and so a permutation of the array |
| PasswordHelper.BarajadoPermuta | ProyectoEscolar.Utilidades/PasswordHelper.cs:123-128 | the sequence of swaps keeps the multiset of characters, whatever the draws |
| PasswordHelper.PermutationKeepsStrength | ProyectoEscolar.Utilidades/PasswordHelper.cs:110-128 | any permutation of a buffer of 8 or more characters holding one character of each class passes the strength check |
| PasswordHelper.ShuffledFacts | ProyectoEscolar.Utilidades/PasswordHelper.cs:108-130 | a shuffle of the filled buffer has the requested length, uses only the four alphabets and passes the strength check |
| PasswordHelper.GenerarContrasenaAleatoria | ProyectoEscolar.Utilidades/PasswordHelper.cs:97-131 | a length below 8 fails with ArgumentException("La longitud mínima debe ser 8 caracteres", "longitud") and only then; otherwise the password has exactly that length, only characters of the alphabets, is the filled buffer after the swap sequence (a permutation of it) and passes ValidarFortalezaContrasena |
| Autenticacion.Almacenada | ProyectoEscolar/Controllers/AutenticacionController.cs:162 | a NULL hash reads as "", and the stored hash is empty exactly when the user has none |
| Autenticacion.ErroresLoginEmptyIff | ProyectoEscolar/Controllers/AutenticacionController.cs:330-338 | a login request passes ModelState if and only if the user name and password are not null-or-white-space and the password has at least 4 characters |
| Autenticacion.ErroresCambioEmptyIff | ProyectoEscolar/Controllers/AutenticacionController.cs:340-350 | a change request passes ModelState if and only if none of its three fields is null-or-white-space |
| Autenticacion.Credenciales | ProyectoEscolar/Controllers/AutenticacionController.cs:211-278 | credential validation keeps the same accounts and Activo flags, leaves every other user's row unchanged and returns no data |
| Autenticacion.CredencialesUnknown | ProyectoEscolar/Controllers/AutenticacionController.cs:218-232 | an unknown or inactive user is rejected with "Usuario no encontrado o inactivo" and nothing is written |
| Autenticacion.CredencialesBootstrap | ProyectoEscolar/Controllers/AutenticacionController.cs:234-254 | a user without a hash is accepted if and only if the password has at least 4 characters and the save succeeds; then the stored hash verifies against the password; otherwise the table is unchanged |
| Autenticacion.CredencialesHashed | ProyectoEscolar/Controllers/AutenticacionController.cs:256-266 | a user with a hash is accepted if and only if the password verifies against it, and the table is not written |
| Autenticacion.CredencialesBootstrapOnce | ProyectoEscolar/Controllers/AutenticacionController.cs:234-266 | after a successful validation, later validations of that user write nothing, whatever the password |
| Autenticacion.InicioDeSesion | ProyectoEscolar/Controllers/AutenticacionController.cs:73-126 | login keeps the same accounts and Activo flags and leaves every other user's row unchanged; the table after login is either the old one or the one left by the credential check; a response carrying a token is a success for the requested user |
| Autenticacion.InicioDeSesionToken | ProyectoEscolar/Controllers/AutenticacionController.cs:91-114 | a token is issued if and only if the input is valid, the credentials are accepted and token generation does not throw; success means a token; a failed credential check is returned as is |
| Autenticacion.InicioDeSesionInvalido | ProyectoEscolar/Controllers/AutenticacionController.cs:80-89 | invalid login input gets "Datos de entrada inválidos" with the ModelState messages, and the table is untouched |
| Autenticacion.CambioDeContrasena | ProyectoEscolar/Controllers/AutenticacionController.cs:129-209 | a password change keeps the same accounts and Activo flags, leaves every other user's row unchanged, and a success carries no data |
| Autenticacion.CambioUnknown | ProyectoEscolar/Controllers/AutenticacionController.cs:146-159 | an unknown or inactive user gets "Usuario no encontrado" and nothing is written |
| Autenticacion.CambioWrongCurrent | ProyectoEscolar/Controllers/AutenticacionController.cs:161-171 | a current password that does not verify, or a user who never stored a hash, gets "Contraseña actual incorrecta" and nothing is written |
| Autenticacion.CambioWeak | ProyectoEscolar/Controllers/AutenticacionController.cs:173-184 | a weak new password is rejected with the strength message after "La nueva contraseña no cumple los requisitos: " and nothing is written |
| Autenticacion.CambioSuccess | ProyectoEscolar/Controllers/AutenticacionController.cs:173-197 | the change succeeds if and only if the input is valid, the user is found, the current password verifies, the new one is strong and the save succeeds; then the stored hash verifies against the new password; otherwise the table is unchanged |
| Autenticacion.AtenderPreserves | ProyectoEscolar/Controllers/AutenticacionController.cs:73-209 | one request to either endpoint keeps the accounts and Activo flags and never erases a stored hash |
| Autenticacion.EjecutarPreserves | ProyectoEscolar/Controllers/AutenticacionController.cs:73-209 | any sequence of requests keeps the accounts and Activo flags and never erases a stored hash |
| Autenticacion.AutenticacionController.constructor | ProyectoEscolar/Controllers/AutenticacionController.cs:22-27 | the controller starts over the given user table and hashing library |
| Autenticacion.AutenticacionController.ValidarCredenciales | ProyectoEscolar/Controllers/AutenticacionController.cs:211-278 | the response and the new table are those of Credenciales on the old table |
| Autenticacion.AutenticacionController.GetToken | ProyectoEscolar/Controllers/AutenticacionController.cs:72-126 | the response and the new table are those of InicioDeSesion on the old table |
| Autenticacion.AutenticacionController.CambiarContrasena | ProyectoEscolar/Controllers/AutenticacionController.cs:128-209 | the response and the new table are those of CambioDeContrasena on the old table |
| Text.TrimEmptyIff | ProyectoEscolar.Cliente/EscolarVue/src/services/api.ts:200 | `value.trim()` is empty if and only if every character is JavaScript white space |
| ClientValidators.Required | ProyectoEscolar.Cliente/EscolarVue/src/services/api.ts:199-201 | no message if and only if the value keeps a character after trimming; otherwise "<field> es requerido" |
| ClientValidators.MinLength | ProyectoEscolar.Cliente/EscolarVue/src/services/api.ts:203-205 | no message if and only if the value is non-empty and at least `min` long; otherwise the message with `min` written in decimal |
| ClientValidators.MaxLength | ProyectoEscolar.Cliente/EscolarVue/src/services/api.ts:207-209 | no message if and only if the value is non-empty and at most `max` long; otherwise the message with `max` written in decimal |
| ClientValidators.LengthBoundsRejectEmpty | ProyectoEscolar.Cliente/wwwroot/js/api-service.js:179-185 | the empty string fails minLength and maxLength whatever the bound |
| ClientValidators.ConfirmPassword | ProyectoEscolar.Cliente/EscolarVue/src/services/api.ts:226-228 | no message if and only if the two strings are equal |
| ClientValidators.Email | ProyectoEscolar.Cliente/EscolarVue/src/services/api.ts:211-214 | no message if and only if the value is empty or matches the e-mail pattern |
| ClientValidators.CoincideEmailIff | ProyectoEscolar.Cliente/wwwroot/js/api-service.js:188 | the pattern matches exactly the values without white space that have one '@' not in first position and, after it, a '.' that is neither right after the '@' nor last |
| ClientValidators.EmailExamples | ProyectoEscolar.Cliente/wwwroot/js/api-service.js:187-190 | "usuario@escuela.mx" passes and "usuario@escuela" fails |
| ClientValidators.Password | ProyectoEscolar.Cliente/EscolarVue/src/services/api.ts:216-224 | no message if and only if all six client rules hold: non-empty, 8 characters, an ASCII upper-case letter, an ASCII lower-case letter, an ASCII digit and one of the listed special characters |
| ClientValidators.PasswordReportsFirst | ProyectoEscolar.Cliente/wwwroot/js/api-service.js:192-200 | only the first failing rule is reported, whatever the later rules say |
| ClientValidators.EspecialNoAlfanumerico | ProyectoEscolar.Cliente/EscolarVue/src/services/api.ts:222 | no character of the client's special list is a letter or digit to .NET |
| ClientValidators.AlfanumericoNoEspecial | ProyectoEscolar.Cliente/wwwroot/js/api-service.js:198 | a letter or digit is never on the client's special list |
| ClientValidators.ClientAcceptedIsStrong | ProyectoEscolar.Cliente/EscolarVue/src/services/api.ts:216-224 | every password the client accepts passes the server's strength check |
| ClientValidators.ServerAcceptsHyphen | ProyectoEscolar.Utilidades/PasswordHelper.cs:80-82 | the server accepts "Abcdefg1-" since '-' is neither letter nor digit |
| ClientValidators.ClientRejectsHyphen | ProyectoEscolar.Cliente/wwwroot/js/api-service.js:198 | the client rejects "Abcdefg1-" for lacking a special character, so the client's rule is strictly stronger |
| ApiErrorHandler.OrElse | ProyectoEscolar.Cliente/wwwroot/js/api-service.js:99 | `m \|\| fallback`: a present non-empty message wins, an absent or empty one gives the fallback |
| ApiErrorHandler.Handle | ProyectoEscolar.Cliente/wwwroot/js/api-service.js:89-133 | the message shown is never empty |
| ApiErrorHandler.HandleTipo | ProyectoEscolar.Cliente/wwwroot/js/api-service.js:95-130 | the type is warning if and only if the status is 400, 401 or 403, info if and only if it is 404, and danger otherwise, including every error without a response |
| ApiErrorHandler.HandleIgnoresBody | ProyectoEscolar.Cliente/wwwroot/js/api-service.js:102-113 | 401, 403 and 404 give fixed notices whatever the response body says; 404 is "Recurso no encontrado." as info |
| ApiErrorHandler.HandlePrefersServerMessage | ProyectoEscolar.Cliente/wwwroot/js/api-service.js:98-121 | for any status but 401, 403 and 404, a non-empty server message is shown as is |
| ApiErrorHandler.HandleFallbackStatus | ProyectoEscolar.Cliente/wwwroot/js/api-service.js:118-120 | an unlisted status without a server message, or with an empty one, shows "Error <status>" as danger |
| TokenService.Item | ProyectoEscolar.Cliente/EscolarVue/src/services/api.ts:162-164 | getItem gives the stored string exactly when the key is present, and null otherwise |
| TokenService.SinSesion | ProyectoEscolar.Cliente/EscolarVue/src/services/api.ts:191-194 | logout's store has neither key, and every other key keeps its value |
| TokenService.SetThenGet | ProyectoEscolar.Cliente/EscolarVue/src/services/api.ts:162-168 | reading the token after storing it gives that token, and the user data are unaffected |
| TokenService.SetTokenAuthenticates | ProyectoEscolar.Cliente/EscolarVue/src/services/api.ts:166-189 | after setToken the session is authenticated if and only if the token is non-empty |
| TokenService.LogoutEndsSession | ProyectoEscolar.Cliente/wwwroot/js/api-service.js:163-170 | after logout the session is not authenticated and neither key can be read |
| TokenService.TokenService.constructor | ProyectoEscolar.Cliente/wwwroot/js/api-service.js:137 | the service wraps the given localStorage contents |
| TokenService.TokenService.GetToken | ProyectoEscolar.Cliente/wwwroot/js/api-service.js:138-140 | returns the stored token, or null when there is none |
| TokenService.TokenService.SetToken | ProyectoEscolar.Cliente/wwwroot/js/api-service.js:142-144 | only the token key is set |
| TokenService.TokenService.RemoveToken | ProyectoEscolar.Cliente/wwwroot/js/api-service.js:146-148 | only the token key is removed |
| TokenService.TokenService.GetUserData | ProyectoEscolar.Cliente/wwwroot/js/api-service.js:150-153 | returns the stored user data text when present and non-empty, and null otherwise |
| TokenService.TokenService.SetUserData | ProyectoEscolar.Cliente/wwwroot/js/api-service.js:155-157 | only the user data key is set |
| TokenService.TokenService.RemoveUserData | ProyectoEscolar.Cliente/wwwroot/js/api-service.js:159-161 | only the user data key is removed |
| TokenService.TokenService.IsAuthenticated | ProyectoEscolar.Cliente/wwwroot/js/api-service.js:163-165 | true if and only if a non-empty token is stored |
| TokenService.TokenService.Logout | ProyectoEscolar.Cliente/wwwroot/js/api-service.js:167-170 | both keys are removed and every other key is kept |
| VueComponents.ErroresLoginIff | ProyectoEscolar.Cliente/wwwroot/js/vue-components.js:174-192 | the login form is valid if and only if the user name and password are not blank after trimming and the password has 4 characters; an error is recorded for exactly the failing fields |
| VueComponents.BlankPasswordIsRequired | ProyectoEscolar.Cliente/wwwroot/js/vue-components.js:183-189 | a blank password is reported as required, not as too short |
| VueComponents.LoginComponent.constructor | ProyectoEscolar.Cliente/wwwroot/js/vue-components.js:119-130 | the login component's initial data: empty fields, no errors, not loading, password hidden |
| VueComponents.LoginComponent.ValidateForm | ProyectoEscolar.Cliente/wwwroot/js/vue-components.js:174-192 | `errors` becomes the login form's error map and the result is true if and only if that map is empty |
| VueComponents.LoginComponent.ClearErrors | ProyectoEscolar.Cliente/wwwroot/js/vue-components.js:194-197 | `errors` and `errorMessage` are emptied and nothing else changes |
| VueComponents.ErroresCambioIff | ProyectoEscolar.Cliente/wwwroot/js/vue-components.js:337-357 | the dialog is valid if and only if both passwords are non-empty and the confirmation equals the new one; an error is recorded for exactly the failing checks and under no other key |
| VueComponents.ChangePasswordModal.constructor | ProyectoEscolar.Cliente/wwwroot/js/vue-components.js:293-305 | the dialog's initial data: empty fields, no errors, not loading |
| VueComponents.ChangePasswordModal.ValidateForm | ProyectoEscolar.Cliente/wwwroot/js/vue-components.js:337-357 | `errors` becomes the dialog's error map and the result is true if and only if that map is empty |
| VueComponents.ChangePasswordModal.ClearErrors | ProyectoEscolar.Cliente/wwwroot/js/vue-components.js:359-362 | `errors` and `errorMessage` are emptied and nothing else changes |
| VueComponents.LoginFormPassesServer | ProyectoEscolar.Cliente/wwwroot/js/vue-components.js:174-192 | a login form the client accepts passes the server's ModelState whenever no field contains U+0085 |
| VueComponents.NelUserNameDisagrees | ProyectoEscolar.Cliente/wwwroot/js/vue-components.js:178-181 | the user name U+0085 passes the login form and is refused by the server's Required rule |
| VueComponents.BomUserNameDisagrees | ProyectoEscolar.Cliente/wwwroot/js/vue-components.js:178-181 | the user name U+FEFF is refused by the login form, which trims it away, yet passes the server's Required rule |
| VueComponents.BlankChangePasswordPassesForm | ProyectoEscolar.Cliente/wwwroot/js/vue-components.js:341-349 | passwords made of a space pass the dialog and are refused by the server's Required rule |

## Left out

- BCrypt itself (salt generation, the cost factor's effect, the hash format) is a parameter. Only `Sound` is assumed of it, and only where a lemma says so.
- PasswordHelper.CifrarContrasena: the library's ArgumentOutOfRangeException for a work factor outside 4..31 is not modelled; the hash function is total and `Sound` promises nothing for such work factors. Every caller uses the default of 12.
- `Random` is a parameter (`next`). Nothing is claimed about the distribution of generated passwords.
- C# `char.IsUpper`, `IsLower`, `IsDigit` and `IsLetterOrDigit` are exact on U+0000..U+00FF only. Every other code point is treated as neither a letter nor a digit.
- Strings are sequences of code points. C# and JavaScript lengths count UTF-16 units, so they differ for characters outside the Basic Multilingual Plane.
- null strings are not modelled, except a NULL stored hash. A missing request field binds to "" through the property initialisers, and `Required` rejects it in either case.
- [ApiController] on the controller answers invalid input with an automatic 400 before the action runs. The model follows the action's own ModelState branch.
- ModelState messages are taken in property declaration order, and all attribute errors of a property are kept (an empty password gets both its messages).
- The user table is a map keyed by NombreUsuario, which assumes the name is unique. The Sucursal and Rol includes are not modelled.
- Exceptions from the database query and from the token's configuration are left out. Only a failing save, CifrarContrasena's empty-password exception and a throwing GenerarToken are modelled.
- After a failed save the model keeps the old table. It does not model the tracked entity left modified in memory for the rest of the request.
- `ActualizarUltimoAcceso` (its only effect is an empty save whose failure is swallowed), `GenerarToken` (JWT claims and signing), logging, and the `TestLogs` endpoint are left out.
- JSON.stringify and JSON.parse in `setUserData` and `getUserData` are left out. The user data are kept as their JSON text, and a parse error is not modelled.
- Axios, HTTP, `async`/`await` and the Vue components' `login`, `changePassword`, `mounted` and template are left out.
- ClientValidators.MinLength: `min` and `max` are integers, whereas JavaScript numbers may be fractional or NaN.
- The two clients' validators and token services are identical text. Each is modelled once, and the table cites either file.
