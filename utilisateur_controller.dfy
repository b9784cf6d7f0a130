/**
 * The user handlers: the listing of all users newest first, reading one
 * user, and the guard chains and single-row effects of creating, updating
 * and deleting a user. Replies never carry the password hash.
 */
module UtilisateurController {
  import opened Wrappers
  import opened JsValues
  import opened Http
  import opened Store
  import opened EmailPattern
  import opened Crypto

  /** The columns `id, nom, email, photo_url, date_creation` the handlers return. */
  datatype UserView = UserView(id: int, nom: JsVal, email: string, photoUrl: JsVal, dateCreation: Timestamp)

  /** `RETURNING id, nom, email` of the delete. */
  datatype UserSummary = UserSummary(id: int, nom: JsVal, email: string)

  /** The body of getUtilisateurs: the row count and the rows. */
  datatype UserList = UserList(count: nat, utilisateurs: seq<UserView>)

  function View(u: User): UserView {
    UserView(u.id, u.nom, u.email, u.photoUrl, u.dateCreation)
  }

  // ---------------------------------------------------------------------------
  // getUtilisateurs: every user once, newest first
  // ---------------------------------------------------------------------------

  ghost predicate AllKeys(users: map<int, User>, ks: seq<int>) {
    forall i :: 0 <= i < |ks| ==> ks[i] in users
  }

  ghost predicate Distinct(ks: seq<int>) {
    forall i, j :: 0 <= i < j < |ks| ==> ks[i] != ks[j]
  }

  /** Non-increasing creation dates: `ORDER BY date_creation DESC`. */
  ghost predicate ByDateDesc(users: map<int, User>, ks: seq<int>) {
    forall i, j :: 0 <= i < j < |ks| && ks[i] in users && ks[j] in users ==>
      users[ks[i]].dateCreation >= users[ks[j]].dateCreation
  }

  /** `ks` lists every key of `users` exactly once, newest first. */
  ghost predicate NewestFirst(users: map<int, User>, ks: seq<int>) {
    && AllKeys(users, ks)
    && (forall k :: k in users ==> k in ks)
    && Distinct(ks)
    && ByDateDesc(users, ks)
  }

  /** Inserts key `k` before the first key that is not newer than it. */
  function InsertByDate(users: map<int, User>, ks: seq<int>, k: int): seq<int>
    requires k in users && AllKeys(users, ks)
  {
    if ks == [] then [k]
    else if users[k].dateCreation >= users[ks[0]].dateCreation then [k] + ks
    else [ks[0]] + InsertByDate(users, ks[1..], k)
  }

  /** Insertion adds exactly `k`. */
  lemma {:induction false} InsertByDateElements(users: map<int, User>, ks: seq<int>, k: int)
    requires k in users && AllKeys(users, ks)
    ensures var r := InsertByDate(users, ks, k);
      && |r| == |ks| + 1
      && (forall x :: x in r <==> x in ks || x == k)
      && AllKeys(users, r)
  {
    if ks != [] && users[k].dateCreation < users[ks[0]].dateCreation {
      assert ks == [ks[0]] + ks[1..];
      InsertByDateElements(users, ks[1..], k);
    }
  }

  /** Putting a key no older than all others in front keeps the order. */
  lemma PrependNewest(users: map<int, User>, h: int, ks: seq<int>)
    requires h in users && AllKeys(users, ks) && ByDateDesc(users, ks)
    requires forall x :: x in ks ==> users[h].dateCreation >= users[x].dateCreation
    ensures ByDateDesc(users, [h] + ks)
  {
    var r := [h] + ks;
    forall i, j | 0 <= i < j < |r|
      ensures users[r[i]].dateCreation >= users[r[j]].dateCreation
    {
      if i == 0 {
        assert r[j] == ks[j - 1] && r[j] in ks;
      } else {
        assert r[i] == ks[i - 1] && r[j] == ks[j - 1];
      }
    }
  }

  /** Insertion keeps the order newest first. */
  lemma {:induction false} InsertByDateSorted(users: map<int, User>, ks: seq<int>, k: int)
    requires k in users && AllKeys(users, ks) && ByDateDesc(users, ks)
    ensures ByDateDesc(users, InsertByDate(users, ks, k))
  {
    if ks == [] {
    } else if users[k].dateCreation >= users[ks[0]].dateCreation {
      forall x | x in ks
        ensures users[k].dateCreation >= users[x].dateCreation
      {
        var m :| 0 <= m < |ks| && ks[m] == x;
        if m > 0 {
          assert users[ks[0]].dateCreation >= users[ks[m]].dateCreation;
        }
      }
      PrependNewest(users, k, ks);
    } else {
      var h, tail := ks[0], ks[1..];
      assert forall a :: 0 <= a < |tail| ==> tail[a] == ks[a + 1];
      InsertByDateSorted(users, tail, k);
      InsertByDateElements(users, tail, k);
      var rt := InsertByDate(users, tail, k);
      forall x | x in rt
        ensures users[h].dateCreation >= users[x].dateCreation
      {
        if x != k {
          var m :| 0 <= m < |tail| && tail[m] == x;
          assert ks[m + 1] == x;
        }
      }
      PrependNewest(users, h, rt);
    }
  }

  /** Inserting a new key keeps the keys distinct. */
  lemma {:induction false} InsertByDateDistinct(users: map<int, User>, ks: seq<int>, k: int)
    requires k in users && AllKeys(users, ks) && Distinct(ks) && k !in ks
    ensures Distinct(InsertByDate(users, ks, k))
  {
    InsertByDateElements(users, ks, k);
    var r := InsertByDate(users, ks, k);
    if ks == [] {
    } else if users[k].dateCreation >= users[ks[0]].dateCreation {
      forall i, j | 0 <= i < j < |r|
        ensures r[i] != r[j]
      {
        if i == 0 {
          assert r[j] == ks[j - 1];
        } else {
          assert r[i] == ks[i - 1] && r[j] == ks[j - 1];
        }
      }
    } else {
      var h, tail := ks[0], ks[1..];
      assert forall a, b :: 0 <= a < b < |tail| ==> tail[a] == ks[a + 1] && tail[b] == ks[b + 1];
      InsertByDateDistinct(users, tail, k);
      InsertByDateElements(users, tail, k);
      var rt := InsertByDate(users, tail, k);
      assert r == [h] + rt;
      assert h !in tail by {
        forall m | 0 <= m < |tail|
          ensures tail[m] != h
        {
          assert tail[m] == ks[m + 1];
        }
      }
      forall i, j | 0 <= i < j < |r|
        ensures r[i] != r[j]
      {
        if i == 0 {
          assert r[j] == rt[j - 1] && r[j] in rt;
        } else {
          assert r[i] == rt[i - 1] && r[j] == rt[j - 1];
        }
      }
    }
  }

  /** Any element of a non-empty set. */
  lemma Pick<T>(s: set<T>) returns (x: T)
    requires s != {}
    ensures x in s
  {
    x :| x in s;
  }

  /** Some listing of all users newest first exists: sort by insertion. */
  lemma {:induction false} NewestFirstExists(users: map<int, User>) returns (ks: seq<int>)
    ensures NewestFirst(users, ks) && |ks| == |users|
    decreases |users|
  {
    if |users| == 0 {
      assert users.Keys == {};
      ks := [];
    } else {
      assert users.Keys != {};
      var k := Pick(users.Keys);
      var rest := users - {k};
      assert rest.Keys == users.Keys - {k};
      var ks' := NewestFirstExists(rest);
      assert AllKeys(users, ks');
      assert ByDateDesc(users, ks');
      assert k !in ks';
      InsertByDateElements(users, ks', k);
      InsertByDateSorted(users, ks', k);
      InsertByDateDistinct(users, ks', k);
      ks := InsertByDate(users, ks', k);
      forall x | x in users
        ensures x in ks
      {
        if x != k {
          assert x in rest;
        }
      }
    }
  }

  /**
   * The bodies getUtilisateurs may send: every user once, without the password
   * hash, ordered by `date_creation DESC`, with `count` the number of rows.
   * Users created at the same instant may come in either order, so this is a
   * relation, not a function.
   */
  ghost predicate IsUserListing(users: map<int, User>, body: UserList) {
    exists ks :: NewestFirst(users, ks) && |ks| == |users| && body.count == |body.utilisateurs| == |ks|
                 && forall i :: 0 <= i < |ks| ==> body.utilisateurs[i] == View(users[ks[i]])
  }

  /** getUtilisateurs always has an answer (the query does not fail on a consistent store). */
  lemma GetUtilisateursAnswers(users: map<int, User>) returns (body: UserList)
    ensures IsUserListing(users, body)
  {
    var ks := NewestFirstExists(users);
    var rows := seq(|ks|, i requires 0 <= i < |ks| => View(users[ks[i]]));
    body := UserList(|rows|, rows);
  }

  /** Any listing counts all users, lists each of them, and orders them newest first. */
  lemma UserListingFacts(users: map<int, User>, body: UserList)
    requires IsUserListing(users, body)
    ensures body.count == |body.utilisateurs| == |users|
    ensures forall k :: k in users ==> View(users[k]) in body.utilisateurs
    ensures forall i, j :: 0 <= i < j < |body.utilisateurs| ==>
              body.utilisateurs[i].dateCreation >= body.utilisateurs[j].dateCreation
  {
    var ks :| NewestFirst(users, ks) && |ks| == |users| && body.count == |body.utilisateurs| == |ks|
              && forall i :: 0 <= i < |ks| ==> body.utilisateurs[i] == View(users[ks[i]]);
    var rows := body.utilisateurs;
    forall k | k in users
      ensures View(users[k]) in rows
    {
      var m :| 0 <= m < |ks| && ks[m] == k;
      assert rows[m] == View(users[k]);
    }
    forall i, j | 0 <= i < j < |rows|
      ensures rows[i].dateCreation >= rows[j].dateCreation
    {
      assert rows[i] == View(users[ks[i]]) && rows[j] == View(users[ks[j]]);
    }
  }

  /** A listing holds nothing but users: each row is the view of a stored user. */
  lemma UserListingOnlyUsers(users: map<int, User>, body: UserList, i: int)
    requires IsUserListing(users, body) && 0 <= i < |body.utilisateurs|
    ensures exists k :: k in users && body.utilisateurs[i] == View(users[k])
  {
    var ks :| NewestFirst(users, ks) && |ks| == |users| && body.count == |body.utilisateurs| == |ks|
              && forall m :: 0 <= m < |ks| ==> body.utilisateurs[m] == View(users[ks[m]]);
    var k := ks[i];
    assert k in users && body.utilisateurs[i] == View(users[k]);
  }

  // ---------------------------------------------------------------------------
  // getUtilisateurById
  // ---------------------------------------------------------------------------

  /** 400 for a `Number()`-invalid id, 500 for a fractional one, else the user without the hash, or 404. */
  function GetUtilisateurById(users: map<int, User>, idParam: string): (r: Reply<UserView>)
    ensures r == Fail(BadRequest(InvalidId)) <==> StringToNumber(idParam).None?
    ensures r == Fail(ServerError) <==> StringToNumber(idParam).Some? && IdOf(idParam).None?
    ensures r == Fail(NotFound) <==> IdOf(idParam).Some? && IdOf(idParam).value !in users
    ensures r.Ok? <==> IdOf(idParam).Some? && IdOf(idParam).value in users
    ensures r.Ok? ==> && IdOf(idParam).Some? && IdOf(idParam).value in users
                      && StringToNumber(idParam) == Some(IdOf(idParam).value as real)
                      && r == Ok(200, View(users[IdOf(idParam).value]))
  {
    match StringToNumber(idParam)
    case None => Fail(BadRequest(InvalidId))
    case Some(x) =>
      match AsInteger(x)
      case None => Fail(ServerError)
      case Some(id) => if id in users then Ok(200, View(users[id])) else Fail(NotFound)
  }

  // ---------------------------------------------------------------------------
  // addUtilisateur
  // ---------------------------------------------------------------------------

  /** The fields of `req.body` the user handlers read. */
  datatype UserBody = UserBody(nom: JsVal, email: JsVal, motDePasse: JsVal, photoUrl: JsVal)

  /** What a create passes on: the row to insert, with the clear password still to hash. */
  datatype NewUser = NewUser(nom: JsVal, email: string, password: string, photoUrl: JsVal)

  /**
   * `emailRegex.test(email)`. The test reads `String(email)`; only a string
   * holding `@` can match, and no other value's string form holds one.
   */
  function EmailAccepted(v: JsVal): (ok: bool)
    ensures ok <==> v.Str? && InPattern(v.s)
    ensures ok ==> Truthy(v)
  {
    v.Str? && EmailRegexTest(v.s)
  }

  /** `mot_de_passe.length < 6`; a value without a length (a number, a boolean) is not too short. */
  function TooShort(v: JsVal): (short: bool)
    ensures !v.Str? ==> !short
    ensures v.Str? ==> (short <==> |v.s| <= 5)
  {
    v.Str? && |v.s| < 6
  }

  /**
   * The checks of addUtilisateur, in order: presence (400), e-mail format
   * (400), password length (400), e-mail already used (409), then hashing,
   * which fails (500) on a password that is not a string.
   */
  function AddUtilisateurPlan(users: map<int, User>, b: UserBody): (r: Checked<NewUser>)
    ensures r == Stop(BadRequest(MissingFields)) <==> !Truthy(b.nom) || !Truthy(b.email) || !Truthy(b.motDePasse)
    ensures r == Stop(BadRequest(InvalidEmail)) <==>
              Truthy(b.nom) && Truthy(b.email) && Truthy(b.motDePasse) && !EmailAccepted(b.email)
    ensures r == Stop(BadRequest(PasswordTooShort)) <==>
              Truthy(b.nom) && EmailAccepted(b.email) && b.motDePasse.Str? && 0 < |b.motDePasse.s| < 6
    ensures r == Stop(Conflict(EmailInUse)) <==>
              Truthy(b.nom) && EmailAccepted(b.email) && Truthy(b.motDePasse) && !TooShort(b.motDePasse)
              && EmailTaken(users, b.email.s)
    ensures r == Stop(ServerError) <==>
              Truthy(b.nom) && EmailAccepted(b.email) && Truthy(b.motDePasse) && !b.motDePasse.Str?
              && !EmailTaken(users, b.email.s)
    ensures r.Pass? <==>
              Truthy(b.nom) && EmailAccepted(b.email) && b.motDePasse.Str? && |b.motDePasse.s| >= 6
              && !EmailTaken(users, b.email.s)
    ensures r.Pass? ==> r.value == NewUser(b.nom, b.email.s, b.motDePasse.s, OrNull(b.photoUrl))
    ensures r.Pass? ==> EmailRegexTest(r.value.email) && !EmailTaken(users, r.value.email)
  {
    if !Truthy(b.nom) || !Truthy(b.email) || !Truthy(b.motDePasse) then Stop(BadRequest(MissingFields))
    else if !EmailAccepted(b.email) then Stop(BadRequest(InvalidEmail))
    else if TooShort(b.motDePasse) then Stop(BadRequest(PasswordTooShort))
    else if EmailTaken(users, b.email.s) then Stop(Conflict(EmailInUse))
    else if !b.motDePasse.Str? then Stop(ServerError)
    else Pass(NewUser(b.nom, b.email.s, b.motDePasse.s, OrNull(b.photoUrl)))
  }

  /** POST /utilisateurs: 201 with the new row (hash stored, not returned), or the first refusal. */
  method AddUtilisateur(db: Database, o: Oracles, b: UserBody, now: Timestamp) returns (reply: Reply<UserView>)
    requires db.Valid()
    modifies db
    ensures db.Valid()
    ensures match AddUtilisateurPlan(old(db.users), b)
      case Stop(f) => reply == Fail(f) && db.State() == old(db.State())
      case Pass(n) =>
        && db.State() == UserInserted(old(db.State()), n.nom, n.email, o.hash(n.password), n.photoUrl, now)
        && reply == Ok(201, UserView(old(db.nextUserId), n.nom, n.email, n.photoUrl, now))
  {
    match AddUtilisateurPlan(db.users, b)
    case Stop(f) =>
      reply := Fail(f);
    case Pass(n) =>
      var hash := o.hash(n.password);
      var u := db.InsertUser(n.nom, n.email, hash, n.photoUrl, now);
      reply := Ok(201, View(u));
  }

  // ---------------------------------------------------------------------------
  // updateUtilisateur
  // ---------------------------------------------------------------------------

  /** The columns an update writes, and which row. */
  datatype UserWrite = UserWrite(id: int, nom: JsVal, email: string, photoUrl: JsVal)

  /**
   * The checks of updateUtilisateur, in order: the id (400), presence of
   * `nom` and `email` (400), e-mail format (400), the existence lookup (500
   * for a fractional id, 404 when absent), the e-mail held by another user
   * (409). The password is not touched, and `photo_url` is written as given.
   */
  function UpdateUtilisateurPlan(users: map<int, User>, idParam: string, b: UserBody): (r: Checked<UserWrite>)
    ensures r == Stop(BadRequest(InvalidId)) <==> StringToNumber(idParam).None?
    ensures r == Stop(BadRequest(MissingFields)) <==>
              StringToNumber(idParam).Some? && (!Truthy(b.nom) || !Truthy(b.email))
    ensures r == Stop(BadRequest(InvalidEmail)) <==>
              StringToNumber(idParam).Some? && Truthy(b.nom) && Truthy(b.email) && !EmailAccepted(b.email)
    ensures r == Stop(NotFound) <==>
              Truthy(b.nom) && EmailAccepted(b.email) && IdOf(idParam).Some? && IdOf(idParam).value !in users
    ensures r == Stop(Conflict(EmailInUse)) <==>
              Truthy(b.nom) && EmailAccepted(b.email) && IdOf(idParam).Some? && IdOf(idParam).value in users
              && EmailTakenByOther(users, b.email.s, IdOf(idParam).value)
    ensures r == Stop(ServerError) <==>
              StringToNumber(idParam).Some? && Truthy(b.nom) && EmailAccepted(b.email) && IdOf(idParam).None?
    ensures r.Pass? <==>
              Truthy(b.nom) && EmailAccepted(b.email) && IdOf(idParam).Some? && IdOf(idParam).value in users
              && !EmailTakenByOther(users, b.email.s, IdOf(idParam).value)
    ensures r.Pass? ==>
              && IdOf(idParam) == Some(r.value.id) && r.value.id in users
              && r.value == UserWrite(r.value.id, b.nom, b.email.s, Bind(b.photoUrl))
              && EmailRegexTest(r.value.email) && !EmailTakenByOther(users, r.value.email, r.value.id)
    ensures r.Stop? ==> r.failure in {BadRequest(InvalidId), BadRequest(MissingFields), BadRequest(InvalidEmail),
                                      ServerError, NotFound, Conflict(EmailInUse)}
  {
    match StringToNumber(idParam)
    case None => Stop(BadRequest(InvalidId))
    case Some(x) =>
      if !Truthy(b.nom) || !Truthy(b.email) then Stop(BadRequest(MissingFields))
      else if !EmailAccepted(b.email) then Stop(BadRequest(InvalidEmail))
      else
        match AsInteger(x)
        case None => Stop(ServerError)
        case Some(id) =>
          if id !in users then Stop(NotFound)
          else if EmailTakenByOther(users, b.email.s, id) then Stop(Conflict(EmailInUse))
          else Pass(UserWrite(id, b.nom, b.email.s, Bind(b.photoUrl)))
  }

  /** PUT /utilisateurs/:id: 200 with the updated row, or the first refusal. */
  method UpdateUtilisateur(db: Database, idParam: string, b: UserBody) returns (reply: Reply<UserView>)
    requires db.Valid()
    modifies db
    ensures db.Valid()
    ensures match UpdateUtilisateurPlan(old(db.users), idParam, b)
      case Stop(f) => reply == Fail(f) && db.State() == old(db.State())
      case Pass(w) =>
        && db.State() == UserUpdated(old(db.State()), w.id, w.nom, w.email, w.photoUrl)
        && reply == Ok(200, View(db.users[w.id]))
  {
    match UpdateUtilisateurPlan(db.users, idParam, b)
    case Stop(f) =>
      reply := Fail(f);
    case Pass(w) =>
      var u := db.UpdateUser(w.id, w.nom, w.email, w.photoUrl);
      reply := Ok(200, View(u));
  }

  // ---------------------------------------------------------------------------
  // deleteUtilisateur
  // ---------------------------------------------------------------------------

  /**
   * The outcome of deleteUtilisateur: the id (400), a fractional id (500), no
   * such row (404), a row some listing still references (409, from the
   * foreign-key violation), else the row to delete.
   */
  function DeleteUtilisateurPlan(t: Tables, idParam: string): (r: Checked<int>)
    ensures r == Stop(BadRequest(InvalidId)) <==> StringToNumber(idParam).None?
    ensures r == Stop(ServerError) <==> StringToNumber(idParam).Some? && IdOf(idParam).None?
    ensures r == Stop(NotFound) <==> IdOf(idParam).Some? && IdOf(idParam).value !in t.users
    ensures r == Stop(Conflict(UserHasListings)) <==>
              IdOf(idParam).Some? && IdOf(idParam).value in t.users && HasListings(t.annonces, IdOf(idParam).value)
    ensures r.Pass? <==>
              IdOf(idParam).Some? && IdOf(idParam).value in t.users && !HasListings(t.annonces, IdOf(idParam).value)
    ensures r.Pass? ==> IdOf(idParam) == Some(r.value)
  {
    match StringToNumber(idParam)
    case None => Stop(BadRequest(InvalidId))
    case Some(x) =>
      match AsInteger(x)
      case None => Stop(ServerError)
      case Some(id) =>
        if id !in t.users then Stop(NotFound)
        else if HasListings(t.annonces, id) then Stop(Conflict(UserHasListings))
        else Pass(id)
  }

  /** DELETE /utilisateurs/:id: the statement is issued, and its outcome mapped to 200, 404 or 409. */
  method DeleteUtilisateur(db: Database, idParam: string) returns (reply: Reply<UserSummary>)
    requires db.Valid()
    modifies db
    ensures db.Valid()
    ensures match DeleteUtilisateurPlan(old(db.State()), idParam)
      case Stop(f) => reply == Fail(f) && db.State() == old(db.State())
      case Pass(id) =>
        && db.State() == UserDeleted(old(db.State()), id)
        && reply == Ok(200, UserSummary(id, old(db.users)[id].nom, old(db.users)[id].email))
  {
    var n := StringToNumber(idParam);
    if n.None? {
      return Fail(BadRequest(InvalidId));
    }
    var id := AsInteger(n.value);
    if id.None? {
      return Fail(ServerError);
    }
    var r := db.DeleteUser(id.value);
    match r
    case Row(u) =>
      reply := Ok(200, UserSummary(u.id, u.nom, u.email));
    case NoRow =>
      reply := Fail(NotFound);
    case ForeignKeyViolation =>
      reply := Fail(Conflict(UserHasListings));
  }

  // ---------------------------------------------------------------------------
  // How the handlers combine
  // ---------------------------------------------------------------------------

  /** A created user is found by its new id, and creating it again is refused with 409. */
  lemma AddedUserIsRetrievable(t: Tables, b: UserBody, hash: string, now: Timestamp)
    requires Consistent(t) && AddUtilisateurPlan(t.users, b).Pass?
    ensures var n := AddUtilisateurPlan(t.users, b).value;
      var t' := UserInserted(t, n.nom, n.email, hash, n.photoUrl, now);
      && GetUtilisateurById(t'.users, NatToString(t.nextUserId))
           == Ok(200, UserView(t.nextUserId, n.nom, n.email, n.photoUrl, now))
      && AddUtilisateurPlan(t'.users, b) == Stop(Conflict(EmailInUse))
  {
    var n := AddUtilisateurPlan(t.users, b).value;
    var t' := UserInserted(t, n.nom, n.email, hash, n.photoUrl, now);
    NumberOfNatToString(t.nextUserId);
    assert t'.users[t.nextUserId].email == n.email;
  }

  /** A user may keep its own e-mail: the update passes when only the name or photo change. */
  lemma KeepingOwnEmailPasses(t: Tables, idParam: string, b: UserBody)
    requires Consistent(t) && IdOf(idParam).Some? && IdOf(idParam).value in t.users
    requires Truthy(b.nom) && b.email == Str(t.users[IdOf(idParam).value].email)
    ensures UpdateUtilisateurPlan(t.users, idParam, b).Pass?
  {
    var id := IdOf(idParam).value;
    assert t.users[id].email != "" by {
      var at, dot := AcceptedEmailShape(t.users[id].email);
    }
  }

  /** After a delete the user is not found, and deleting it again is a 404. */
  lemma DeletedUserIsGone(t: Tables, idParam: string)
    requires DeleteUtilisateurPlan(t, idParam).Pass?
    ensures var t' := UserDeleted(t, DeleteUtilisateurPlan(t, idParam).value);
      GetUtilisateurById(t'.users, idParam) == Fail(NotFound) && DeleteUtilisateurPlan(t', idParam) == Stop(NotFound)
  {
  }

  /** Two stores that differ only in the password hashes give the same replies to the user reads. */
  ghost predicate SameButHashes(u1: map<int, User>, u2: map<int, User>) {
    && u1.Keys == u2.Keys
    && forall k :: k in u1 ==> u1[k].(motDePasse := "") == u2[k].(motDePasse := "")
  }

  lemma ReadsHideHashes(u1: map<int, User>, u2: map<int, User>, idParam: string)
    requires SameButHashes(u1, u2)
    ensures GetUtilisateurById(u1, idParam) == GetUtilisateurById(u2, idParam)
  {
    if IdOf(idParam).Some? && IdOf(idParam).value in u1 {
      var k := IdOf(idParam).value;
      assert u1[k].(motDePasse := "") == u2[k].(motDePasse := "");
      assert View(u1[k]) == View(u2[k]);
    }
  }
}
