/**
 * The standalone `POST /login` route: the same checks as the controller's
 * login, but the token carries the id alone and expires after one hour, and
 * the reply holds the whole `SELECT *` row, password hash included.
 */
module LoginRoute {
  import opened Wrappers
  import opened JsValues
  import opened Http
  import opened Store
  import opened Crypto
  import AuthController

  /** The body of a successful standalone login: `{ token, utilisateur }`. */
  datatype RouteSession = RouteSession(token: string, utilisateur: User)

  /**
   * `found` is what `SELECT * FROM utilisateur WHERE email = $1` returns
   * first. Missing fields give 400, an unknown e-mail and a wrong password the
   * same 401, a password that is not a string 500 (bcrypt throws).
   */
  function StandaloneLogin(users: map<int, User>, o: Oracles, b: AuthController.LoginBody, found: Option<User>)
    : (r: Reply<RouteSession>)
    requires RowWithEmail(users, b.email, found)
    ensures r == Fail(BadRequest(MissingFields)) <==> !Truthy(b.email) || !Truthy(b.motDePasse)
    ensures Truthy(b.email) && Truthy(b.motDePasse) && !(b.email.Str? && EmailTaken(users, b.email.s)) ==>
              r == Fail(InvalidCredentials)
    ensures r.Ok? ==>
              var u := found.value;
              && r.code == 200 && u.id in users && users[u.id] == u && b.email == Str(u.email)
              && b.motDePasse.Str? && o.compare(b.motDePasse.s, u.motDePasse)
              && r.body.token == o.sign(Claims(u.id, None, None), OneHour)
              && r.body.utilisateur == users[u.id]
  {
    if !Truthy(b.email) || !Truthy(b.motDePasse) then Fail(BadRequest(MissingFields))
    else match found
      case None => Fail(InvalidCredentials)
      case Some(u) =>
        if !b.motDePasse.Str? then Fail(ServerError)
        else if !o.compare(b.motDePasse.s, u.motDePasse) then Fail(InvalidCredentials)
        else Ok(200, RouteSession(o.sign(Claims(u.id, None, None), OneHour), u))
  }

  /**
   * The route and the controller accept and refuse the same requests, with
   * the same failures, for the same user; they differ in the claims, the
   * expiry and the user object they return.
   */
  lemma AgreesWithControllerLogin(users: map<int, User>, o: Oracles, b: AuthController.LoginBody, found: Option<User>)
    requires RowWithEmail(users, b.email, found)
    ensures var r1 := StandaloneLogin(users, o, b, found);
            var r2 := AuthController.Login(users, o, b, found);
            && (r1.Fail? <==> r2.Fail?)
            && (r1.Fail? ==> r1.failure == r2.failure)
            && r1.Status() == r2.Status()
            && (r1.Ok? ==>
                  && r1.body.utilisateur.id == r2.body.utilisateur.id
                  && r2.body.token == o.sign(AuthController.SessionClaims(r1.body.utilisateur), TwentyFourHours)
                  && r1.body.token == o.sign(Claims(r1.body.utilisateur.id, None, None), OneHour))
  {
  }

  /**
   * Unlike the controller's, this reply is the stored row of the e-mail
   * entered, bcrypt hash included; in a store with unique e-mails there is
   * no other row it could be.
   */
  lemma ExposesStoredRow(users: map<int, User>, o: Oracles, b: AuthController.LoginBody, found: Option<User>)
    requires EmailsUnique(users) && RowWithEmail(users, b.email, found)
    requires StandaloneLogin(users, o, b, found).Ok?
    ensures forall k :: k in users && Str(users[k].email) == b.email ==>
              StandaloneLogin(users, o, b, found).body.utilisateur == users[k]
              && StandaloneLogin(users, o, b, found).body.utilisateur.motDePasse == users[k].motDePasse
  {
    forall k | k in users && Str(users[k].email) == b.email
      ensures StandaloneLogin(users, o, b, found).body.utilisateur == users[k]
    {
      assert users[found.value.id].email == users[k].email;
    }
  }
}
