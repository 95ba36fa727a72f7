/**
 * The token store of the web client (tokenService in the TypeScript client,
 * TokenService in the JavaScript one): the session token and the user data
 * kept under two keys of the browser's localStorage.
 *
 * localStorage is a map from keys to strings shared with the rest of the
 * page, so the service must leave every other key alone. The user data are
 * kept as the JSON text JSON.stringify produces; the JSON codec is not part
 * of this model.
 */
module TokenService {
  import opened Wrappers

  const AuthToken: string := "authToken"
  const UserData: string := "userData"

  /** localStorage.getItem: the stored string, or null. */
  function Item(storage: map<string, string>, key: string): (r: Option<string>)
    ensures r.Some? <==> key in storage
    ensures r.Some? ==> r.value == storage[key]
  {
    if key in storage then Some(storage[key]) else None
  }

  /** isAuthenticated: `!!getToken()`, so a stored empty token does not count. */
  predicate Autenticado(storage: map<string, string>) {
    AuthToken in storage && storage[AuthToken] != []
  }

  /** The store after logout: both keys removed, nothing else. */
  function SinSesion(storage: map<string, string>): (r: map<string, string>)
    ensures AuthToken !in r && UserData !in r
    ensures forall k | k in storage && k != AuthToken && k != UserData :: k in r && r[k] == storage[k]
    ensures forall k | k in r :: k in storage
  {
    storage - {AuthToken, UserData}
  }

  /** Storing a token and reading it back gives that token; the user data are untouched. */
  lemma SetThenGet(storage: map<string, string>, token: string)
    ensures Item(storage[AuthToken := token], AuthToken) == Some(token)
    ensures Item(storage[AuthToken := token], UserData) == Item(storage, UserData)
  {
  }

  /** After logout nobody is authenticated and no user data remain. */
  lemma LogoutEndsSession(storage: map<string, string>)
    ensures !Autenticado(SinSesion(storage))
    ensures Item(SinSesion(storage), AuthToken).None? && Item(SinSesion(storage), UserData).None?
  {
  }

  /** Storing a token makes the session authenticated exactly when the token is non-empty. */
  lemma SetTokenAuthenticates(storage: map<string, string>, token: string)
    ensures Autenticado(storage[AuthToken := token]) <==> token != []
  {
  }

  /** The service over the page's localStorage. */
  class TokenService {
    var storage: map<string, string>

    constructor(storage: map<string, string>)
      ensures this.storage == storage
    {
      this.storage := storage;
    }

    method GetToken() returns (token: Option<string>)
      ensures token == Item(storage, AuthToken)
    {
      if AuthToken in storage {
        token := Some(storage[AuthToken]);
      } else {
        token := None;
      }
    }

    method SetToken(token: string)
      modifies this
      ensures storage == old(storage)[AuthToken := token]
    {
      storage := storage[AuthToken := token];
    }

    method RemoveToken()
      modifies this
      ensures storage == old(storage) - {AuthToken}
    {
      storage := storage - {AuthToken};
    }

    /** getUserData: the stored JSON text, or null when it is absent or empty. */
    method GetUserData() returns (data: Option<string>)
      ensures data.Some? <==> UserData in storage && storage[UserData] != []
      ensures data.Some? ==> data.value == storage[UserData]
    {
      var item := Item(storage, UserData);
      if item.Some? && item.value != [] {
        data := item;
      } else {
        data := None;
      }
    }

    method SetUserData(userData: string)
      modifies this
      ensures storage == old(storage)[UserData := userData]
    {
      storage := storage[UserData := userData];
    }

    method RemoveUserData()
      modifies this
      ensures storage == old(storage) - {UserData}
    {
      storage := storage - {UserData};
    }

    method IsAuthenticated() returns (b: bool)
      ensures b <==> Autenticado(storage)
    {
      var token := GetToken();
      b := token.Some? && token.value != [];
    }

    method Logout()
      modifies this
      ensures storage == SinSesion(old(storage))
    {
      RemoveToken();
      RemoveUserData();
      assert storage == old(storage) - {AuthToken} - {UserData};
    }
  }
}
