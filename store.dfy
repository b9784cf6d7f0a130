/**
 * The two tables the controllers read and write, `utilisateur` and `annonce`,
 * with the constraints every state keeps: ids are the serial keys, e-mails
 * are unique and well formed, and every listing's `utilisateur_id` names an
 * existing user. The pure functions give the effect of each single-row
 * statement; class `Database` holds the tables as mutable fields and performs
 * those statements in place.
 *
 * The table schema is not part of the source. The model takes `prix` as a
 * `numeric` column, which also holds `NaN` (`None`), `nombre_chambres`,
 * `utilisateur_id` and the ids as integer columns, text columns as holding
 * the bound value, and the foreign key as refusing to delete a referenced
 * user.
 */
module Store {
  import opened Wrappers
  import opened JsValues
  import EmailPattern

  /** The value of `NOW()` when a row is inserted. */
  type Timestamp = int

  datatype User = User(
    id: int,
    nom: JsVal,
    email: string,
    motDePasse: string,  // the bcrypt hash
    photoUrl: JsVal,
    dateCreation: Timestamp)

  datatype Annonce = Annonce(
    id: int,
    titre: JsVal,
    description: JsVal,
    prix: Option<real>,  // None is NaN
    datePublication: JsVal,
    nombreChambres: int,
    ville: JsVal,
    disponible: bool,
    dateDisponible: JsVal,
    utilisateurId: int,
    photoUrl: JsVal)

  /** The ten columns that `INSERT INTO annonce` and `UPDATE annonce` write. */
  datatype AnnonceColumns = AnnonceColumns(
    titre: JsVal,
    description: JsVal,
    prix: Option<real>,  // None is NaN
    datePublication: JsVal,
    nombreChambres: int,
    ville: JsVal,
    disponible: bool,
    dateDisponible: JsVal,
    utilisateurId: int,
    photoUrl: JsVal)

  function AnnonceRow(id: int, c: AnnonceColumns): Annonce {
    Annonce(id, c.titre, c.description, c.prix, c.datePublication, c.nombreChambres,
            c.ville, c.disponible, c.dateDisponible, c.utilisateurId, c.photoUrl)
  }

  /** What a nullable column receives for a bound value: `undefined` is sent as NULL. */
  function Bind(v: JsVal): JsVal {
    if v.Undefined? then Null else v
  }

  /** `v || null`: a falsy value is stored as NULL. */
  function OrNull(v: JsVal): JsVal {
    if Truthy(v) then v else Null
  }

  /** The whole store: both tables and the next value of each id sequence. */
  datatype Tables = Tables(
    users: map<int, User>,
    annonces: map<int, Annonce>,
    nextUserId: int,
    nextAnnonceId: int)

  ghost predicate EmailsUnique(users: map<int, User>) {
    forall i, j :: i in users && j in users && users[i].email == users[j].email ==> i == j
  }

  /** `SELECT id FROM utilisateur WHERE email = $1` finds a row. */
  predicate EmailTaken(users: map<int, User>, email: string) {
    exists k :: k in users && users[k].email == email
  }

  /**
   * `found` may be `result.rows[0]` of `SELECT … FROM utilisateur WHERE
   * email = $1`: a stored row with that e-mail, or nothing when no row has
   * it. The query has no ORDER BY, so with duplicate e-mails any of them may
   * come first. Only a string is compared with the stored e-mails.
   */
  predicate RowWithEmail(users: map<int, User>, email: JsVal, found: Option<User>) {
    match found
    case None => !(email.Str? && EmailTaken(users, email.s))
    case Some(u) => email.Str? && u.id in users && users[u.id] == u && u.email == email.s
  }

  /** With unique e-mails the lookup has exactly one answer. */
  lemma RowWithEmailUnique(users: map<int, User>, email: JsVal, f1: Option<User>, f2: Option<User>)
    requires EmailsUnique(users) && RowWithEmail(users, email, f1) && RowWithEmail(users, email, f2)
    ensures f1 == f2
  {
    if f1.Some? {
      assert EmailTaken(users, email.s) by { assert users[f1.value.id].email == email.s; }
    }
    if f2.Some? {
      assert EmailTaken(users, email.s) by { assert users[f2.value.id].email == email.s; }
    }
  }

  /** `SELECT id FROM utilisateur WHERE email = $1 AND id != $2` finds a row. */
  predicate EmailTakenByOther(users: map<int, User>, email: string, id: int) {
    exists k :: k in users && k != id && users[k].email == email
  }

  /** Some listing references user `id`. */
  predicate HasListings(annonces: map<int, Annonce>, id: int) {
    exists k :: k in annonces && annonces[k].utilisateurId == id
  }

  /** The constraints of every reachable state. */
  ghost predicate Consistent(t: Tables) {
    && t.nextUserId >= 1 && t.nextAnnonceId >= 1
    && (forall k :: k in t.users ==>
          t.users[k].id == k && 0 < k < t.nextUserId && EmailPattern.EmailRegexTest(t.users[k].email))
    && (forall k :: k in t.annonces ==>
          t.annonces[k].id == k && 0 < k < t.nextAnnonceId && t.annonces[k].utilisateurId in t.users)
    && EmailsUnique(t.users)
  }

  // ---------------------------------------------------------------------------
  // The single-row statements
  // ---------------------------------------------------------------------------

  /** `INSERT INTO utilisateur (...) VALUES (..., NOW())`: a new row under the next serial id. */
  function UserInserted(t: Tables, nom: JsVal, email: string, hash: string, photo: JsVal, now: Timestamp): Tables {
    t.(users := t.users[t.nextUserId := User(t.nextUserId, nom, email, hash, photo, now)],
       nextUserId := t.nextUserId + 1)
  }

  /** `UPDATE utilisateur SET nom = $1, email = $2, photo_url = $3 WHERE id = $4` */
  function UserUpdated(t: Tables, id: int, nom: JsVal, email: string, photo: JsVal): (r: Tables)
    requires id in t.users
  {
    t.(users := t.users[id := t.users[id].(nom := nom, email := email, photoUrl := photo)])
  }

  /** `DELETE FROM utilisateur WHERE id = $1` */
  function UserDeleted(t: Tables, id: int): Tables {
    t.(users := t.users - {id})
  }

  /** `INSERT INTO annonce (...) VALUES ($1, ..., $10)`: a new row under the next serial id. */
  function AnnonceInserted(t: Tables, c: AnnonceColumns): Tables {
    t.(annonces := t.annonces[t.nextAnnonceId := AnnonceRow(t.nextAnnonceId, c)],
       nextAnnonceId := t.nextAnnonceId + 1)
  }

  /** `UPDATE annonce SET <all ten columns> WHERE id = $11` */
  function AnnonceUpdated(t: Tables, id: int, c: AnnonceColumns): Tables {
    t.(annonces := t.annonces[id := AnnonceRow(id, c)])
  }

  /** `DELETE FROM annonce WHERE id = $1` */
  function AnnonceDeleted(t: Tables, id: int): Tables {
    t.(annonces := t.annonces - {id})
  }

  // ---------------------------------------------------------------------------
  // Each statement keeps the constraints, given the check its handler makes first
  // ---------------------------------------------------------------------------

  lemma UserInsertedConsistent(t: Tables, nom: JsVal, email: string, hash: string, photo: JsVal, now: Timestamp)
    requires Consistent(t) && EmailPattern.EmailRegexTest(email) && !EmailTaken(t.users, email)
    ensures Consistent(UserInserted(t, nom, email, hash, photo, now))
  {
    var t' := UserInserted(t, nom, email, hash, photo, now);
    forall i, j | i in t'.users && j in t'.users && t'.users[i].email == t'.users[j].email
      ensures i == j
    {
      if i != t.nextUserId && j != t.nextUserId {
        assert t.users[i].email == t.users[j].email;
      }
    }
  }

  /** The update writes only `nom`, `email` and `photo_url` of that one row. */
  lemma UserUpdatedFrame(t: Tables, id: int, nom: JsVal, email: string, photo: JsVal)
    requires id in t.users
    ensures var t' := UserUpdated(t, id, nom, email, photo);
      && t'.users.Keys == t.users.Keys && t'.annonces == t.annonces
      && t'.nextUserId == t.nextUserId && t'.nextAnnonceId == t.nextAnnonceId
      && t'.users[id].nom == nom && t'.users[id].email == email && t'.users[id].photoUrl == photo
      && t'.users[id].id == t.users[id].id
      && t'.users[id].motDePasse == t.users[id].motDePasse
      && t'.users[id].dateCreation == t.users[id].dateCreation
      && forall k :: k in t.users && k != id ==> t'.users[k] == t.users[k]
  {
  }

  lemma UserUpdatedConsistent(t: Tables, id: int, nom: JsVal, email: string, photo: JsVal)
    requires Consistent(t) && id in t.users
    requires EmailPattern.EmailRegexTest(email) && !EmailTakenByOther(t.users, email, id)
    ensures Consistent(UserUpdated(t, id, nom, email, photo))
  {
    var t' := UserUpdated(t, id, nom, email, photo);
    forall i, j | i in t'.users && j in t'.users && t'.users[i].email == t'.users[j].email
      ensures i == j
    {
      if i != id && j != id {
        assert t.users[i].email == t.users[j].email;
      }
    }
  }

  lemma UserDeletedConsistent(t: Tables, id: int)
    requires Consistent(t) && !HasListings(t.annonces, id)
    ensures Consistent(UserDeleted(t, id))
  {
    var t' := UserDeleted(t, id);
    forall k | k in t'.annonces
      ensures t'.annonces[k].utilisateurId in t'.users
    {
      assert t.annonces[k].utilisateurId != id;
    }
  }

  lemma AnnonceInsertedConsistent(t: Tables, c: AnnonceColumns)
    requires Consistent(t) && c.utilisateurId in t.users
    ensures Consistent(AnnonceInserted(t, c))
  {
  }

  lemma AnnonceUpdatedConsistent(t: Tables, id: int, c: AnnonceColumns)
    requires Consistent(t) && id in t.annonces && c.utilisateurId in t.users
    ensures Consistent(AnnonceUpdated(t, id, c))
  {
  }

  lemma AnnonceDeletedConsistent(t: Tables, id: int)
    requires Consistent(t)
    ensures Consistent(AnnonceDeleted(t, id))
  {
  }

  // ---------------------------------------------------------------------------
  // The store as a mutable object
  // ---------------------------------------------------------------------------

  /** What a write statement reports: the affected row, no row, or a foreign-key violation (SQLSTATE 23503). */
  datatype StatementResult<T> = Row(row: T) | NoRow | ForeignKeyViolation

  class Database {
    var users: map<int, User>
    var annonces: map<int, Annonce>
    var nextUserId: int
    var nextAnnonceId: int

    function State(): Tables
      reads this
    {
      Tables(users, annonces, nextUserId, nextAnnonceId)
    }

    ghost predicate Valid()
      reads this
    {
      Consistent(State())
    }

    /** Empty tables; both serial sequences start at 1. */
    constructor ()
      ensures Valid() && users == map[] && annonces == map[]
      ensures nextUserId == 1 && nextAnnonceId == 1
    {
      users, annonces := map[], map[];
      nextUserId, nextAnnonceId := 1, 1;
    }

    method InsertUser(nom: JsVal, email: string, hash: string, photo: JsVal, now: Timestamp) returns (u: User)
      requires Valid() && EmailPattern.EmailRegexTest(email) && !EmailTaken(users, email)
      modifies this
      ensures Valid()
      ensures State() == UserInserted(old(State()), nom, email, hash, photo, now)
      ensures u.id == old(nextUserId) && u.id !in old(users) && u.id in users && users[u.id] == u
    {
      UserInsertedConsistent(State(), nom, email, hash, photo, now);
      u := User(nextUserId, nom, email, hash, photo, now);
      users := users[nextUserId := u];
      nextUserId := nextUserId + 1;
    }

    method UpdateUser(id: int, nom: JsVal, email: string, photo: JsVal) returns (u: User)
      requires Valid() && id in users
      requires EmailPattern.EmailRegexTest(email) && !EmailTakenByOther(users, email, id)
      modifies this
      ensures Valid()
      ensures State() == UserUpdated(old(State()), id, nom, email, photo)
      ensures u == users[id]
    {
      UserUpdatedConsistent(State(), id, nom, email, photo);
      u := users[id].(nom := nom, email := email, photoUrl := photo);
      users := users[id := u];
    }

    /** The delete, refused by the foreign key while a listing references the user. */
    method DeleteUser(id: int) returns (r: StatementResult<User>)
      requires Valid()
      modifies this
      ensures Valid()
      ensures r == if id !in old(users) then NoRow
                   else if HasListings(old(annonces), id) then ForeignKeyViolation
                   else Row(old(users)[id])
      ensures State() == if r.Row? then UserDeleted(old(State()), id) else old(State())
    {
      if id !in users {
        r := NoRow;
      } else if HasListings(annonces, id) {
        r := ForeignKeyViolation;
      } else {
        UserDeletedConsistent(State(), id);
        r := Row(users[id]);
        users := users - {id};
        assert State() == UserDeleted(old(State()), id);
      }
    }

    method InsertAnnonce(c: AnnonceColumns) returns (a: Annonce)
      requires Valid() && c.utilisateurId in users
      modifies this
      ensures Valid()
      ensures State() == AnnonceInserted(old(State()), c)
      ensures a == AnnonceRow(old(nextAnnonceId), c) && a.id !in old(annonces)
    {
      AnnonceInsertedConsistent(State(), c);
      a := AnnonceRow(nextAnnonceId, c);
      annonces := annonces[nextAnnonceId := a];
      nextAnnonceId := nextAnnonceId + 1;
    }

    method UpdateAnnonce(id: int, c: AnnonceColumns) returns (a: Annonce)
      requires Valid() && id in annonces && c.utilisateurId in users
      modifies this
      ensures Valid()
      ensures State() == AnnonceUpdated(old(State()), id, c)
      ensures a == AnnonceRow(id, c)
    {
      AnnonceUpdatedConsistent(State(), id, c);
      a := AnnonceRow(id, c);
      annonces := annonces[id := a];
    }

    method DeleteAnnonce(id: int) returns (r: StatementResult<Annonce>)
      requires Valid()
      modifies this
      ensures Valid()
      ensures r == if id in old(annonces) then Row(old(annonces)[id]) else NoRow
      ensures State() == if r.Row? then AnnonceDeleted(old(State()), id) else old(State())
    {
      if id in annonces {
        AnnonceDeletedConsistent(State(), id);
        r := Row(annonces[id]);
        annonces := annonces - {id};
      } else {
        r := NoRow;
      }
    }
  }
}
