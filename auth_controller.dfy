/**
 * The authentication controller: `login` checks an e-mail and password
 * against the stored bcrypt hash and signs a 24-hour token carrying the
 * user's id, e-mail and name; `register` runs the checks of user creation,
 * inserts the row and signs the same kind of token for it; `logout` only
 * answers.
 */
module AuthController {
  import opened Wrappers
  import opened JsValues
  import opened Http
  import opened Store
  import opened Crypto
  import opened EmailPattern
  import opened UtilisateurController

  /** The fields of the login request body. */
  datatype LoginBody = LoginBody(email: JsVal, motDePasse: JsVal)

  /** The looked-up row without its password column: `{ mot_de_passe: _, ...utilisateurSafe }`. */
  datatype SafeUser = SafeUser(id: int, nom: JsVal, email: string)

  /** The body of a successful login or registration: the token, the user, and `expiresIn`. */
  datatype Session<U> = Session(token: string, utilisateur: U, expiresIn: Expiry)

  /** The claims both handlers sign: `{ id, email, nom }` of the user's row. */
  function SessionClaims(u: User): Claims {
    Claims(u.id, Some(u.email), Some(u.nom))
  }

  // ---------------------------------------------------------------------------
  // login
  // ---------------------------------------------------------------------------

  /**
   * POST /auth/login. `found` is what the e-mail lookup returns. Both fields
   * must be truthy (400); an unknown e-mail and a wrong password give the same
   * 401; `bcrypt.compare` throws (500) on a password that is not a string.
   */
  function Login(users: map<int, User>, o: Oracles, b: LoginBody, found: Option<User>): (r: Reply<Session<SafeUser>>)
    requires RowWithEmail(users, b.email, found)
    ensures r == Fail(BadRequest(MissingFields)) <==> !Truthy(b.email) || !Truthy(b.motDePasse)
    ensures Truthy(b.email) && Truthy(b.motDePasse) && !(b.email.Str? && EmailTaken(users, b.email.s)) ==>
              r == Fail(InvalidCredentials)
    ensures r == Fail(InvalidCredentials) <==>
              Truthy(b.email) && Truthy(b.motDePasse) &&
              (found.None? || (b.motDePasse.Str? && !o.compare(b.motDePasse.s, found.value.motDePasse)))
    ensures r == Fail(ServerError) <==> Truthy(b.email) && found.Some? && Truthy(b.motDePasse) && !b.motDePasse.Str?
    ensures r.Ok? <==>
              Truthy(b.email) && found.Some? && b.motDePasse.Str? && b.motDePasse.s != "" &&
              o.compare(b.motDePasse.s, found.value.motDePasse)
    ensures r.Ok? ==>
              var u := found.value;
              && r.code == 200 && u.id in users && users[u.id] == u && b.email == Str(u.email)
              && r.body == Session(o.sign(SessionClaims(u), TwentyFourHours), SafeUser(u.id, u.nom, u.email), TwentyFourHours)
  {
    if !Truthy(b.email) || !Truthy(b.motDePasse) then Fail(BadRequest(MissingFields))
    else match found
      case None => Fail(InvalidCredentials)
      case Some(u) =>
        if !b.motDePasse.Str? then Fail(ServerError)
        else if !o.compare(b.motDePasse.s, u.motDePasse) then Fail(InvalidCredentials)
        else Ok(200, Session(o.sign(SessionClaims(u), TwentyFourHours), SafeUser(u.id, u.nom, u.email), TwentyFourHours))
  }

  /** With unique e-mails (every reachable store) the lookup, and so the login, is determined. */
  lemma LoginIsDetermined(users: map<int, User>, o: Oracles, b: LoginBody, f1: Option<User>, f2: Option<User>)
    requires EmailsUnique(users) && RowWithEmail(users, b.email, f1) && RowWithEmail(users, b.email, f2)
    ensures Login(users, o, b, f1) == Login(users, o, b, f2)
  {
    RowWithEmailUnique(users, b.email, f1, f2);
  }

  /**
   * The stored hash reaches the reply only through `bcrypt.compare`: two
   * stores whose found rows differ in the hash alone, with the same verdict
   * of compare, give the same reply.
   */
  lemma LoginHidesHash(users1: map<int, User>, users2: map<int, User>, o: Oracles, b: LoginBody,
                       f1: Option<User>, f2: Option<User>)
    requires RowWithEmail(users1, b.email, f1) && RowWithEmail(users2, b.email, f2)
    requires f1.None? <==> f2.None?
    requires f1.Some? ==> f1.value.(motDePasse := "") == f2.value.(motDePasse := "")
    requires f1.Some? && b.motDePasse.Str? ==>
               o.compare(b.motDePasse.s, f1.value.motDePasse) == o.compare(b.motDePasse.s, f2.value.motDePasse)
    ensures Login(users1, o, b, f1) == Login(users2, o, b, f2)
  {
    if f1.Some? {
      var u1, u2 := f1.value, f2.value;
      assert u1.id == u2.id && u1.nom == u2.nom && u1.email == u2.email by {
        assert u1.(motDePasse := "").id == u1.id && u2.(motDePasse := "").id == u2.id;
      }
    }
  }

  // ---------------------------------------------------------------------------
  // register
  // ---------------------------------------------------------------------------

  /**
   * POST /auth/register: the checks of addUtilisateur in the same order
   * (presence, e-mail format, password length, e-mail in use, hashing), then
   * the insert, then 201 with a token signed over the inserted row.
   */
  method Register(db: Database, o: Oracles, b: UserBody, now: Timestamp) returns (reply: Reply<Session<UserView>>)
    requires db.Valid()
    modifies db
    ensures db.Valid()
    ensures match AddUtilisateurPlan(old(db.users), b)
      case Stop(f) => reply == Fail(f) && db.State() == old(db.State())
      case Pass(n) =>
        var id := old(db.nextUserId);
        && db.State() == UserInserted(old(db.State()), n.nom, n.email, o.hash(n.password), n.photoUrl, now)
        && reply == Ok(201, Session(o.sign(SessionClaims(db.users[id]), TwentyFourHours),
                                    View(db.users[id]), TwentyFourHours))
  {
    match AddUtilisateurPlan(db.users, b)
    case Stop(f) =>
      reply := Fail(f);
    case Pass(n) =>
      var hash := o.hash(n.password);
      var u := db.InsertUser(n.nom, n.email, hash, n.photoUrl, now);
      reply := Ok(201, Session(o.sign(SessionClaims(u), TwentyFourHours), View(u), TwentyFourHours));
  }

  /**
   * After a registration the same e-mail and password log in, as the new
   * user, with the very token the registration returned, provided bcrypt
   * accepts a password against its own hash.
   */
  lemma LoginAfterRegister(t: Tables, o: Oracles, b: UserBody, now: Timestamp, found: Option<User>)
    requires Consistent(t)
    requires AddUtilisateurPlan(t.users, b).Pass?
    requires var n := AddUtilisateurPlan(t.users, b).value; o.compare(n.password, o.hash(n.password))
    requires var n := AddUtilisateurPlan(t.users, b).value;
             RowWithEmail(UserInserted(t, n.nom, n.email, o.hash(n.password), n.photoUrl, now).users, b.email, found)
    ensures var n := AddUtilisateurPlan(t.users, b).value;
            var t' := UserInserted(t, n.nom, n.email, o.hash(n.password), n.photoUrl, now);
            var r := Login(t'.users, o, LoginBody(b.email, b.motDePasse), found);
            && r.Ok? && r.body.utilisateur.id == t.nextUserId
            && r.body.token == o.sign(SessionClaims(t'.users[t.nextUserId]), TwentyFourHours)
  {
    var n := AddUtilisateurPlan(t.users, b).value;
    var t' := UserInserted(t, n.nom, n.email, o.hash(n.password), n.photoUrl, now);
    UserInsertedConsistent(t, n.nom, n.email, o.hash(n.password), n.photoUrl, now);
    var u := t'.users[t.nextUserId];
    assert RowWithEmail(t'.users, b.email, Some(u));
    RowWithEmailUnique(t'.users, b.email, found, Some(u));
  }

  /** Registering the same e-mail twice: the second attempt is refused with 409 and inserts nothing. */
  lemma RegisterTwiceConflicts(t: Tables, o: Oracles, b: UserBody, b2: UserBody, now: Timestamp)
    requires AddUtilisateurPlan(t.users, b).Pass?
    requires Truthy(b2.nom) && b2.email == b.email && b2.motDePasse.Str? && |b2.motDePasse.s| >= 6
    ensures var n := AddUtilisateurPlan(t.users, b).value;
            var t' := UserInserted(t, n.nom, n.email, o.hash(n.password), n.photoUrl, now);
            AddUtilisateurPlan(t'.users, b2) == Stop(Conflict(EmailInUse))
  {
    var n := AddUtilisateurPlan(t.users, b).value;
    var t' := UserInserted(t, n.nom, n.email, o.hash(n.password), n.photoUrl, now);
    assert t'.users[t.nextUserId].email == b2.email.s;
  }

  // ---------------------------------------------------------------------------
  // logout
  // ---------------------------------------------------------------------------

  /** The only body logout sends: "Déconnexion réussie. Supprimez le token côté client." */
  datatype LogoutNotice = LoggedOut

  /** POST /auth/logout: nothing is revoked or stored; the answer is always 200. */
  function Logout(): (r: Reply<LogoutNotice>)
    ensures r.Ok? && r.Status() == 200
  {
    Ok(200, LoggedOut)
  }
}
