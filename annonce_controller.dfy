/**
 * The listing handlers: the filtered search query of `GET /annonces`, and the
 * guard chains and single-row effects of reading, creating, updating and
 * deleting one listing.
 */
module AnnonceController {
  import opened Wrappers
  import opened JsValues
  import opened Http
  import opened Store

  // ===========================================================================
  // getAnnonces: the parameterised search query
  // ===========================================================================

  /** `req.query` of the search: each filter is a string or absent. */
  datatype SearchParams = SearchParams(
    prix: Option<string>,
    ville: Option<string>,
    nombreChambres: Option<string>,
    disponible: Option<string>,
    utilisateurId: Option<string>)

  /** A value passed to the driver beside the query text. */
  datatype SqlValue = SqlNumber(x: real) | SqlText(text: string) | SqlBool(b: bool)

  /** One predicate of the WHERE clause, with the value it binds. */
  datatype Filter =
    | PriceAtMost(x: real)
    | CityLike(city: string)
    | RoomsEqual(x: real)
    | AvailableIs(b: bool)
    | OwnerIs(x: real)

  /** `if (p) { const n = Number(p); if (!isNaN(n)) ... }`: the number a numeric filter binds, if it binds one. */
  function NumericFilterValue(p: Option<string>): Option<real> {
    if p.Some? && p.value != "" then StringToNumber(p.value) else None
  }

  /** The three columns filtered by a number. */
  datatype NumericColumn = Price | Rooms | Owner

  function NumericFilterOn(col: NumericColumn, x: real): Filter {
    match col
    case Price => PriceAtMost(x)
    case Rooms => RoomsEqual(x)
    case Owner => OwnerIs(x)
  }

  /** Each filter's contribution: one filter when its parameter is usable, none otherwise. */
  function NumericPart(col: NumericColumn, p: Option<string>): seq<Filter> {
    match NumericFilterValue(p)
    case Some(x) => [NumericFilterOn(col, x)]
    case None => []
  }

  function PriceFilter(q: SearchParams): seq<Filter> {
    NumericPart(Price, q.prix)
  }

  function CityFilter(q: SearchParams): seq<Filter> {
    if q.ville.Some? && q.ville.value != "" then [CityLike(q.ville.value)] else []
  }

  function RoomsFilter(q: SearchParams): seq<Filter> {
    NumericPart(Rooms, q.nombreChambres)
  }

  function AvailableFilter(q: SearchParams): seq<Filter> {
    if q.disponible.Some? then [AvailableIs(q.disponible.value == "true")] else []
  }

  function OwnerFilter(q: SearchParams): seq<Filter> {
    NumericPart(Owner, q.utilisateurId)
  }

  /** The filters a query string switches on, in the order the handler tests them. */
  function ActiveFilters(q: SearchParams): seq<Filter> {
    PriceFilter(q) + CityFilter(q) + RoomsFilter(q) + AvailableFilter(q) + OwnerFilter(q)
  }

  /** The position of a filter's test in the handler. */
  function Rank(f: Filter): nat {
    match f
    case PriceAtMost(_) => 0
    case CityLike(_) => 1
    case RoomsEqual(_) => 2
    case AvailableIs(_) => 3
    case OwnerIs(_) => 4
  }

  /** The query text of a filter, up to its placeholder. */
  function ColumnTest(f: Filter): string {
    match f
    case PriceAtMost(_) => "prix <= "
    case CityLike(_) => "ville ILIKE "
    case RoomsEqual(_) => "nombre_chambres = "
    case AvailableIs(_) => "disponible = "
    case OwnerIs(_) => "utilisateur_id = "
  }

  function Bound(f: Filter): SqlValue {
    match f
    case PriceAtMost(x) => SqlNumber(x)
    case CityLike(c) => SqlText(c)
    case RoomsEqual(x) => SqlNumber(x)
    case AvailableIs(b) => SqlBool(b)
    case OwnerIs(x) => SqlNumber(x)
  }

  /** The condition text of a filter whose value is bound as `$n`. */
  function Condition(f: Filter, n: nat): string {
    ColumnTest(f) + "$" + NatToString(n)
  }

  /** The k-th filter's condition uses placeholder `$(k+1)`. */
  function Conditions(fs: seq<Filter>): seq<string> {
    seq(|fs|, k requires 0 <= k < |fs| => Condition(fs[k], k + 1))
  }

  function Values(fs: seq<Filter>): seq<SqlValue> {
    seq(|fs|, k requires 0 <= k < |fs| => Bound(fs[k]))
  }

  /** `cs.join(sep)` */
  function Join(cs: seq<string>, sep: string): string {
    if |cs| == 0 then "" else if |cs| == 1 then cs[0] else cs[0] + sep + Join(cs[1..], sep)
  }

  const SelectClause := "SELECT * FROM annonce"
  const OrderClause := " ORDER BY date_publication DESC"

  /** The search query for a list of conditions. */
  function SearchQueryText(cs: seq<string>): string {
    SelectClause + (if cs == [] then "" else " WHERE " + Join(cs, " AND ")) + OrderClause
  }

  /** The number of a condition's placeholder: the digits after its first `$`. */
  function Placeholder(cond: string): Option<nat> {
    var i := FirstIndexOf(cond, '$');
    if i == |cond| then None
    else
      var d := cond[i + 1..];
      if d != [] && AllDigits(d) then Some(DigitsValue(d)) else None
  }

  lemma {:induction false} NoDollarInColumnTest(f: Filter)
    ensures forall k :: 0 <= k < |ColumnTest(f)| ==> ColumnTest(f)[k] != '$'
  {
    match f
    case PriceAtMost(_) =>
    case CityLike(_) =>
    case RoomsEqual(_) =>
    case AvailableIs(_) =>
    case OwnerIs(_) =>
  }

  /** A condition's placeholder reads back as the number it was built with. */
  lemma PlaceholderOfCondition(f: Filter, n: nat)
    ensures Placeholder(Condition(f, n)) == Some(n)
  {
    var col, d := ColumnTest(f), NatToString(n);
    var cond := col + "$" + d;
    NoDollarInColumnTest(f);
    NatToStringDigits(n);
    assert cond[|col|] == '$';
    assert forall k :: 0 <= k < |col| ==> cond[k] == col[k];
    assert FirstIndexOf(cond, '$') == |col|;
    assert cond[|col| + 1..] == d;
  }

  lemma ConditionsSnoc(fs: seq<Filter>, f: Filter)
    ensures Conditions(fs + [f]) == Conditions(fs) + [Condition(f, |fs| + 1)]
    ensures Values(fs + [f]) == Values(fs) + [Bound(f)]
  {
    assert Conditions(fs + [f])[..|fs|] == Conditions(fs);
    assert Values(fs + [f])[..|fs|] == Values(fs);
  }

  /** Every condition's placeholder is its own position, counted from 1, so condition k reads value k. */
  lemma {:induction false} PlaceholdersInOrder(fs: seq<Filter>)
    ensures forall k :: 0 <= k < |fs| ==> Placeholder(Conditions(fs)[k]) == Some(k + 1)
  {
    forall k | 0 <= k < |fs|
      ensures Placeholder(Conditions(fs)[k]) == Some(k + 1)
    {
      PlaceholderOfCondition(fs[k], k + 1);
    }
  }

  /** One push of the handler: the value first, then the condition numbered by the new count of values. */
  method Push(ghost fs: seq<Filter>, conditions: seq<string>, values: seq<SqlValue>, f: Filter)
    returns (conditions': seq<string>, values': seq<SqlValue>)
    requires conditions == Conditions(fs) && values == Values(fs)
    ensures conditions' == Conditions(fs + [f]) && values' == Values(fs + [f])
  {
    values' := values + [Bound(f)];
    conditions' := conditions + [ColumnTest(f) + "$" + NatToString(|values'|)];
    ConditionsSnoc(fs, f);
  }

  /** `if (p) { const n = Number(p); if (!isNaN(n)) { push } }` for one numeric column. */
  method NumericBlock(col: NumericColumn, p: Option<string>, ghost fs: seq<Filter>,
                      conditions: seq<string>, values: seq<SqlValue>)
    returns (conditions': seq<string>, values': seq<SqlValue>)
    requires conditions == Conditions(fs) && values == Values(fs)
    ensures conditions' == Conditions(fs + NumericPart(col, p)) && values' == Values(fs + NumericPart(col, p))
  {
    conditions', values' := conditions, values;
    if p.Some? && p.value != "" {
      var n := StringToNumber(p.value);
      if n.Some? {
        conditions', values' := Push(fs, conditions, values, NumericFilterOn(col, n.value));
        return;
      }
    }
    assert fs + NumericPart(col, p) == fs;
  }

  /** `if (ville) { push }`: the city is matched with ILIKE against the string as given. */
  method CityBlock(ville: Option<string>, ghost fs: seq<Filter>, conditions: seq<string>, values: seq<SqlValue>)
    returns (conditions': seq<string>, values': seq<SqlValue>)
    requires conditions == Conditions(fs) && values == Values(fs)
    ensures var part := if ville.Some? && ville.value != "" then [CityLike(ville.value)] else [];
      conditions' == Conditions(fs + part) && values' == Values(fs + part)
  {
    conditions', values' := conditions, values;
    if ville.Some? && ville.value != "" {
      conditions', values' := Push(fs, conditions, values, CityLike(ville.value));
    } else {
      assert fs + [] == fs;
    }
  }

  /** `if (disponible !== undefined) { push(disponible === 'true') }` */
  method AvailableBlock(disponible: Option<string>, ghost fs: seq<Filter>, conditions: seq<string>, values: seq<SqlValue>)
    returns (conditions': seq<string>, values': seq<SqlValue>)
    requires conditions == Conditions(fs) && values == Values(fs)
    ensures var part := if disponible.Some? then [AvailableIs(disponible.value == "true")] else [];
      conditions' == Conditions(fs + part) && values' == Values(fs + part)
  {
    conditions', values' := conditions, values;
    if disponible.Some? {
      conditions', values' := Push(fs, conditions, values, AvailableIs(disponible.value == "true"));
    } else {
      assert fs + [] == fs;
    }
  }

  /**
   * Builds the search query the way the handler does: each filter that is
   * present and well formed pushes its value and its condition, in a fixed
   * order, then the conditions are joined under one WHERE and the ordering is
   * appended.
   */
  method BuildSearchQuery(q: SearchParams) returns (query: string, conditions: seq<string>, values: seq<SqlValue>)
    ensures conditions == Conditions(ActiveFilters(q)) && values == Values(ActiveFilters(q))
    ensures |conditions| == |values| == |ActiveFilters(q)|
    ensures forall k :: 0 <= k < |conditions| ==>
              Placeholder(conditions[k]) == Some(k + 1) && values[k] == Bound(ActiveFilters(q)[k])
    ensures query == SearchQueryText(conditions)
  {
    query := SelectClause;
    var fs1 := PriceFilter(q);
    var fs2 := fs1 + CityFilter(q);
    var fs3 := fs2 + RoomsFilter(q);
    var fs4 := fs3 + AvailableFilter(q);
    conditions, values := NumericBlock(Price, q.prix, [], [], []);
    assert [] + fs1 == fs1;
    conditions, values := CityBlock(q.ville, fs1, conditions, values);
    conditions, values := NumericBlock(Rooms, q.nombreChambres, fs2, conditions, values);
    conditions, values := AvailableBlock(q.disponible, fs3, conditions, values);
    conditions, values := NumericBlock(Owner, q.utilisateurId, fs4, conditions, values);
    assert fs4 + OwnerFilter(q) == ActiveFilters(q);

    if |conditions| > 0 {
      query := query + " WHERE " + Join(conditions, " AND ");
    }
    query := query + OrderClause;
    PlaceholdersInOrder(ActiveFilters(q));
  }

  ghost predicate Increasing(fs: seq<Filter>) {
    forall i, j :: 0 <= i < j < |fs| ==> Rank(fs[i]) < Rank(fs[j])
  }

  /** Each part of the active filters holds at most one filter, of its own rank. */
  lemma PartsRanked(q: SearchParams)
    ensures |PriceFilter(q)| <= 1 && forall f :: f in PriceFilter(q) ==> Rank(f) == 0
    ensures |CityFilter(q)| <= 1 && forall f :: f in CityFilter(q) ==> Rank(f) == 1
    ensures |RoomsFilter(q)| <= 1 && forall f :: f in RoomsFilter(q) ==> Rank(f) == 2
    ensures |AvailableFilter(q)| <= 1 && forall f :: f in AvailableFilter(q) ==> Rank(f) == 3
    ensures |OwnerFilter(q)| <= 1 && forall f :: f in OwnerFilter(q) ==> Rank(f) == 4
  {
  }

  lemma IncreasingAppend(a: seq<Filter>, b: seq<Filter>, r: nat)
    requires Increasing(a) && Increasing(b)
    requires forall f :: f in a ==> Rank(f) < r
    requires forall f :: f in b ==> Rank(f) >= r
    ensures Increasing(a + b)
  {
    forall i, j | 0 <= i < j < |a + b|
      ensures Rank((a + b)[i]) < Rank((a + b)[j])
    {
      if j < |a| {
      } else if i >= |a| {
        assert (a + b)[i] == b[i - |a|] && (a + b)[j] == b[j - |a|];
      }
    }
  }

  /** Filters appear in the fixed order price, city, rooms, availability, owner, each at most once. */
  lemma FiltersInFixedOrder(q: SearchParams)
    ensures forall i, j :: 0 <= i < j < |ActiveFilters(q)| ==> Rank(ActiveFilters(q)[i]) < Rank(ActiveFilters(q)[j])
  {
    PartsRanked(q);
    var s1 := PriceFilter(q) + CityFilter(q);
    var s2 := s1 + RoomsFilter(q);
    var s3 := s2 + AvailableFilter(q);
    IncreasingAppend(PriceFilter(q), CityFilter(q), 1);
    IncreasingAppend(s1, RoomsFilter(q), 2);
    IncreasingAppend(s2, AvailableFilter(q), 3);
    IncreasingAppend(s3, OwnerFilter(q), 4);
  }

  /**
   * Which filters a query string yields: a numeric filter exactly when its
   * parameter is a nonempty string that `Number()` accepts (so a non-numeric
   * one is dropped, not refused), the city filter for a nonempty string, and
   * the availability filter whenever the parameter is present, bound to
   * whether it is the string "true".
   */
  lemma ActiveFiltersExactly(q: SearchParams)
    ensures forall x :: PriceAtMost(x) in ActiveFilters(q) <==> NumericFilterValue(q.prix) == Some(x)
    ensures forall c :: CityLike(c) in ActiveFilters(q) <==> q.ville == Some(c) && c != ""
    ensures forall x :: RoomsEqual(x) in ActiveFilters(q) <==> NumericFilterValue(q.nombreChambres) == Some(x)
    ensures forall b :: AvailableIs(b) in ActiveFilters(q) <==> q.disponible.Some? && b == (q.disponible.value == "true")
    ensures forall x :: OwnerIs(x) in ActiveFilters(q) <==> NumericFilterValue(q.utilisateurId) == Some(x)
    ensures (q.prix == None && q.ville == None && q.nombreChambres == None && q.disponible == None
             && q.utilisateurId == None) ==> ActiveFilters(q) == []
  {
    PriceActive(q);
    CityActive(q);
    RoomsActive(q);
    AvailableActive(q);
    OwnerActive(q);
  }

  lemma PriceActive(q: SearchParams)
    ensures forall x :: PriceAtMost(x) in ActiveFilters(q) <==> NumericFilterValue(q.prix) == Some(x)
  {
    forall x ensures PriceAtMost(x) in ActiveFilters(q) <==> PriceAtMost(x) in PriceFilter(q) {
      InActiveFilters(q, PriceAtMost(x));
    }
  }

  lemma CityActive(q: SearchParams)
    ensures forall c :: CityLike(c) in ActiveFilters(q) <==> q.ville == Some(c) && c != ""
  {
    forall c ensures CityLike(c) in ActiveFilters(q) <==> CityLike(c) in CityFilter(q) {
      InActiveFilters(q, CityLike(c));
    }
  }

  lemma RoomsActive(q: SearchParams)
    ensures forall x :: RoomsEqual(x) in ActiveFilters(q) <==> NumericFilterValue(q.nombreChambres) == Some(x)
  {
    forall x ensures RoomsEqual(x) in ActiveFilters(q) <==> RoomsEqual(x) in RoomsFilter(q) {
      InActiveFilters(q, RoomsEqual(x));
    }
  }

  lemma AvailableActive(q: SearchParams)
    ensures forall b :: AvailableIs(b) in ActiveFilters(q) <==> q.disponible.Some? && b == (q.disponible.value == "true")
  {
    forall b ensures AvailableIs(b) in ActiveFilters(q) <==> AvailableIs(b) in AvailableFilter(q) {
      InActiveFilters(q, AvailableIs(b));
    }
  }

  lemma OwnerActive(q: SearchParams)
    ensures forall x :: OwnerIs(x) in ActiveFilters(q) <==> NumericFilterValue(q.utilisateurId) == Some(x)
  {
    forall x ensures OwnerIs(x) in ActiveFilters(q) <==> OwnerIs(x) in OwnerFilter(q) {
      InActiveFilters(q, OwnerIs(x));
    }
  }

  function PartOfRank(q: SearchParams, r: nat): seq<Filter> {
    if r == 0 then PriceFilter(q)
    else if r == 1 then CityFilter(q)
    else if r == 2 then RoomsFilter(q)
    else if r == 3 then AvailableFilter(q)
    else OwnerFilter(q)
  }

  /** A filter is active exactly when the part of its own rank holds it. */
  lemma InActiveFilters(q: SearchParams, f: Filter)
    ensures f in ActiveFilters(q) <==> f in PartOfRank(q, Rank(f))
  {
    PartsRanked(q);
    assert ActiveFilters(q) == PriceFilter(q) + CityFilter(q) + RoomsFilter(q) + AvailableFilter(q) + OwnerFilter(q);
  }

  /** The query selects from `annonce`, has a WHERE clause exactly when some condition exists, and always ends with the ordering. */
  lemma SearchQueryShape(cs: seq<string>)
    ensures var text := SearchQueryText(cs);
      && |text| >= |SelectClause| + |OrderClause|
      && text[..|SelectClause|] == SelectClause
      && text[|text| - |OrderClause|..] == OrderClause
      && (text == SelectClause + OrderClause <==> cs == [])
      && (cs != [] ==> text[|SelectClause|..|SelectClause| + 7] == " WHERE ")
  {
    var text := SearchQueryText(cs);
    if cs != [] {
      var w := " WHERE " + Join(cs, " AND ");
      assert text == SelectClause + w + OrderClause;
      assert |text| > |SelectClause + OrderClause|;
      assert text[|SelectClause|..|SelectClause| + 7] == w[..7];
    }
  }

  /**
   * The query text depends only on which filters are on, never on the values
   * they bind: every value travels in `values`, none is spliced into the SQL.
   */
  lemma SearchQueryTextIgnoresValues(fs1: seq<Filter>, fs2: seq<Filter>)
    requires |fs1| == |fs2|
    requires forall k :: 0 <= k < |fs1| ==> Rank(fs1[k]) == Rank(fs2[k])
    ensures SearchQueryText(Conditions(fs1)) == SearchQueryText(Conditions(fs2))
  {
    forall k | 0 <= k < |fs1|
      ensures Conditions(fs1)[k] == Conditions(fs2)[k]
    {
      SameRankSameColumn(fs1[k], fs2[k]);
    }
    assert Conditions(fs1) == Conditions(fs2);
  }

  lemma SameRankSameColumn(f: Filter, g: Filter)
    requires Rank(f) == Rank(g)
    ensures ColumnTest(f) == ColumnTest(g)
  {
  }

  // ===========================================================================
  // The single-listing handlers
  // ===========================================================================

  /** The fields of `req.body` that addAnnonce and updateAnnonce read. */
  datatype AnnonceBody = AnnonceBody(
    titre: JsVal,
    description: JsVal,
    prix: JsVal,
    datePublication: JsVal,
    nombreChambres: JsVal,
    ville: JsVal,
    disponible: JsVal,
    dateDisponible: JsVal,
    utilisateurId: JsVal,
    photoUrl: JsVal)

  /** A row of `SELECT a.*, u.nom AS nom_utilisateur, u.email AS email_utilisateur ... JOIN utilisateur u`. */
  datatype AnnonceDetail = AnnonceDetail(annonce: Annonce, nomUtilisateur: JsVal, emailUtilisateur: string)

  /** The row an UPDATE writes: which listing, and its ten new columns. */
  datatype AnnonceWrite = AnnonceWrite(id: int, columns: AnnonceColumns)

  /** The integer a value becomes in an integer column: `Number(v)` when that is a whole number. */
  function IntegerOf(v: JsVal): Option<int> {
    match ToNumber(v)
    case None => None
    case Some(x) => AsInteger(x)
  }

  /**
   * The presence test of both handlers: the text fields must be truthy, while
   * `prix`, `nombre_chambres`, `disponible` and `utilisateur_id` need only be
   * defined (so 0, false, null and "" pass). A body that passes has its text
   * fields present, and any of its three numbers is NaN only as a string.
   */
  function MissingRequired(b: AnnonceBody): (missing: bool)
    ensures !missing ==>
              Truthy(b.titre) && Truthy(b.description) && Truthy(b.datePublication)
              && Truthy(b.ville) && Truthy(b.dateDisponible) && !b.disponible.Undefined?
    ensures !missing ==>
              && (b.prix.Str? || ToNumber(b.prix).Some?)
              && (b.nombreChambres.Str? || ToNumber(b.nombreChambres).Some?)
              && (b.utilisateurId.Str? || ToNumber(b.utilisateurId).Some?)
    ensures b.prix == Null && b.nombreChambres == Num(0.0) && b.disponible == Bool(false) && b.utilisateurId == Str("")
            ==> (missing <==> !Truthy(b.titre) || !Truthy(b.description) || !Truthy(b.datePublication)
                              || !Truthy(b.ville) || !Truthy(b.dateDisponible))
  {
    || !Truthy(b.titre) || !Truthy(b.description) || b.prix.Undefined? || !Truthy(b.datePublication)
    || b.nombreChambres.Undefined? || !Truthy(b.ville) || b.disponible.Undefined?
    || !Truthy(b.dateDisponible) || b.utilisateurId.Undefined?
  }

  /**
   * `isNaN(Number(prix)) || isNaN(Number(nombre_chambres)) || isNaN(Number(utilisateur_id))`.
   * After the presence test, a body fails it only through a string `Number()` cannot read.
   */
  function NumbersInvalid(b: AnnonceBody): (invalid: bool)
    ensures !MissingRequired(b) ==>
              (invalid <==> || (b.prix.Str? && StringToNumber(b.prix.s).None?)
                            || (b.nombreChambres.Str? && StringToNumber(b.nombreChambres.s).None?)
                            || (b.utilisateurId.Str? && StringToNumber(b.utilisateurId.s).None?))
  {
    ToNumber(b.prix).None? || ToNumber(b.nombreChambres).None? || ToNumber(b.utilisateurId).None?
  }

  /** `disponible === true || disponible === 'true'` */
  predicate IsAvailable(v: JsVal) {
    v == Bool(true) || v == Str("true")
  }

  /** The nine body fields besides the photo, as the INSERT and the UPDATE bind them. */
  ghost predicate WritesBody(b: AnnonceBody, c: AnnonceColumns) {
    && c.titre == b.titre && c.description == b.description && c.datePublication == b.datePublication
    && c.ville == b.ville && c.dateDisponible == b.dateDisponible
    && c.prix == ToNumber(b.prix)
    && ToNumber(b.nombreChambres) == Some(c.nombreChambres as real)
    && ToNumber(b.utilisateurId) == Some(c.utilisateurId as real)
    && c.disponible == IsAvailable(b.disponible)
  }

  /**
   * getAnnonceById: a `Number()`-invalid id is refused with 400; a fractional
   * one makes the statement fail (500); otherwise the listing joined with its
   * owner's name and e-mail, or 404 when the join finds no row.
   */
  function GetAnnonceById(t: Tables, idParam: string): (r: Reply<AnnonceDetail>)
    ensures r == Fail(BadRequest(InvalidId)) <==> StringToNumber(idParam).None?
    ensures r == Fail(ServerError) <==> StringToNumber(idParam).Some? && IdOf(idParam).None?
    ensures r.Ok? <==> IdOf(idParam).Some? && IdOf(idParam).value in t.annonces
                       && t.annonces[IdOf(idParam).value].utilisateurId in t.users
    ensures r.Ok? ==>
              var key, a := IdOf(idParam).value, r.body.annonce;
              && r.code == 200 && StringToNumber(idParam) == Some(key as real)
              && key in t.annonces && t.annonces[key] == a && a.utilisateurId in t.users
              && r.body.nomUtilisateur == t.users[a.utilisateurId].nom
              && r.body.emailUtilisateur == t.users[a.utilisateurId].email
    ensures !r.Ok? ==> r.failure in {BadRequest(InvalidId), ServerError, NotFound}
  {
    match StringToNumber(idParam)
    case None => Fail(BadRequest(InvalidId))
    case Some(x) =>
      match AsInteger(x)
      case None => Fail(ServerError)
      case Some(id) =>
        if id in t.annonces && t.annonces[id].utilisateurId in t.users then
          var a := t.annonces[id];
          Ok(200, AnnonceDetail(a, t.users[a.utilisateurId].nom, t.users[a.utilisateurId].email))
        else Fail(NotFound)
  }

  /**
   * The checks of addAnnonce, in order: presence (400), `Number()` validity
   * (400), the owner lookup with the raw id (500 when it is fractional, 404
   * when no such user), then the INSERT, which fails (500) on a fractional
   * room count. What passes is the ten columns to insert.
   */
  function AddAnnoncePlan(users: map<int, User>, b: AnnonceBody): (r: Checked<AnnonceColumns>)
    ensures r == Stop(BadRequest(MissingFields)) <==> MissingRequired(b)
    ensures r == Stop(BadRequest(NotNumeric)) <==> !MissingRequired(b) && NumbersInvalid(b)
    ensures r == Stop(ServerError) <==>
              !MissingRequired(b) && !NumbersInvalid(b)
              && (IntegerOf(b.utilisateurId).None?
                  || (IntegerOf(b.utilisateurId).value in users && IntegerOf(b.nombreChambres).None?))
    ensures r == Stop(NotFound) <==>
              !MissingRequired(b) && !NumbersInvalid(b)
              && IntegerOf(b.utilisateurId).Some? && IntegerOf(b.utilisateurId).value !in users
    ensures r.Pass? <==>
              !MissingRequired(b) && !NumbersInvalid(b)
              && IntegerOf(b.utilisateurId).Some? && IntegerOf(b.utilisateurId).value in users
              && IntegerOf(b.nombreChambres).Some?
    ensures r.Pass? ==> r.value.utilisateurId in users && WritesBody(b, r.value) && r.value.photoUrl == OrNull(b.photoUrl)
    ensures r.Pass? ==> r.value.prix.Some?
    ensures r.Stop? ==> r.failure in {BadRequest(MissingFields), BadRequest(NotNumeric), NotFound, ServerError}
  {
    if MissingRequired(b) then Stop(BadRequest(MissingFields))
    else if NumbersInvalid(b) then Stop(BadRequest(NotNumeric))
    else
      match IntegerOf(b.utilisateurId)
      case None => Stop(ServerError)
      case Some(owner) =>
        if owner !in users then Stop(NotFound)
        else
          match IntegerOf(b.nombreChambres)
          case None => Stop(ServerError)
          case Some(rooms) =>
            Pass(AnnonceColumns(b.titre, b.description, ToNumber(b.prix), b.datePublication, rooms,
                                b.ville, IsAvailable(b.disponible), b.dateDisponible, owner, OrNull(b.photoUrl)))
  }

  /**
   * The columns the UPDATE binds, or `None` when the store refuses them: a
   * room count or owner id that is NaN or fractional does not fit an integer
   * column, while a NaN price is stored as it is.
   */
  function UpdatedColumns(b: AnnonceBody): (c: Option<AnnonceColumns>)
    ensures c.Some? <==> IntegerOf(b.nombreChambres).Some? && IntegerOf(b.utilisateurId).Some?
    ensures c.Some? ==> WritesBody(b, c.value) && c.value.photoUrl == Bind(b.photoUrl)
  {
    match (IntegerOf(b.nombreChambres), IntegerOf(b.utilisateurId))
    case (Some(rooms), Some(owner)) =>
      Some(AnnonceColumns(b.titre, b.description, ToNumber(b.prix), b.datePublication, rooms,
                          b.ville, IsAvailable(b.disponible), b.dateDisponible, owner, Bind(b.photoUrl)))
    case _ => None
  }

  /**
   * The checks of updateAnnonce, in order: the id (400), presence (400), the
   * existence lookup (500 for a fractional id, 404 when absent), then the
   * UPDATE, refused by the store (500) for a room count or owner id that is
   * not a whole number or an owner the foreign key does not find. There is no
   * `isNaN` check on the body here, so a NaN price is written.
   */
  function UpdateAnnoncePlan(t: Tables, idParam: string, b: AnnonceBody): (r: Checked<AnnonceWrite>)
    ensures r == Stop(BadRequest(InvalidId)) <==> StringToNumber(idParam).None?
    ensures r == Stop(BadRequest(MissingFields)) <==> StringToNumber(idParam).Some? && MissingRequired(b)
    ensures r == Stop(ServerError) <==>
              StringToNumber(idParam).Some? && !MissingRequired(b)
              && (IdOf(idParam).None?
                  || (IdOf(idParam).value in t.annonces
                      && (UpdatedColumns(b).None? || UpdatedColumns(b).value.utilisateurId !in t.users)))
    ensures r == Stop(NotFound) <==>
              !MissingRequired(b) && IdOf(idParam).Some? && IdOf(idParam).value !in t.annonces
    ensures r.Pass? <==>
              !MissingRequired(b) && IdOf(idParam).Some? && IdOf(idParam).value in t.annonces
              && UpdatedColumns(b).Some? && UpdatedColumns(b).value.utilisateurId in t.users
    ensures r.Pass? ==>
              && StringToNumber(idParam) == Some(r.value.id as real) && r.value.id in t.annonces
              && r.value.columns.utilisateurId in t.users
              && WritesBody(b, r.value.columns) && r.value.columns.photoUrl == Bind(b.photoUrl)
    ensures r.Stop? ==> r.failure in {BadRequest(InvalidId), BadRequest(MissingFields), NotFound, ServerError}
  {
    match StringToNumber(idParam)
    case None => Stop(BadRequest(InvalidId))
    case Some(x) =>
      if MissingRequired(b) then Stop(BadRequest(MissingFields))
      else
        match AsInteger(x)
        case None => Stop(ServerError)
        case Some(id) =>
          if id !in t.annonces then Stop(NotFound)
          else
            match UpdatedColumns(b)
            case None => Stop(ServerError)
            case Some(c) =>
              if c.utilisateurId !in t.users then Stop(ServerError)
              else Pass(AnnonceWrite(id, c))
  }

  /** The checks of deleteAnnonce: the id (400), a fractional id (500), `DELETE ... RETURNING *` finding no row (404). */
  function DeleteAnnoncePlan(t: Tables, idParam: string): (r: Checked<int>)
    ensures r == Stop(BadRequest(InvalidId)) <==> StringToNumber(idParam).None?
    ensures r.Pass? <==> IdOf(idParam).Some? && IdOf(idParam).value in t.annonces
    ensures r == Stop(ServerError) <==> StringToNumber(idParam).Some? && IdOf(idParam).None?
    ensures r == Stop(NotFound) <==> IdOf(idParam).Some? && IdOf(idParam).value !in t.annonces
    ensures r.Pass? ==> StringToNumber(idParam) == Some(r.value as real)
    ensures r.Stop? ==> r.failure in {BadRequest(InvalidId), NotFound, ServerError}
  {
    match StringToNumber(idParam)
    case None => Stop(BadRequest(InvalidId))
    case Some(x) =>
      match AsInteger(x)
      case None => Stop(ServerError)
      case Some(id) => if id in t.annonces then Pass(id) else Stop(NotFound)
  }

  /** POST /annonces: 201 with the inserted row, or the failure of the first check that refuses. */
  method AddAnnonce(db: Database, b: AnnonceBody) returns (reply: Reply<Annonce>)
    requires db.Valid()
    modifies db
    ensures db.Valid()
    ensures match AddAnnoncePlan(old(db.users), b)
      case Stop(f) => reply == Fail(f) && db.State() == old(db.State())
      case Pass(c) =>
        && reply == Ok(201, AnnonceRow(old(db.nextAnnonceId), c))
        && db.State() == AnnonceInserted(old(db.State()), c)
  {
    match AddAnnoncePlan(db.users, b)
    case Stop(f) =>
      reply := Fail(f);
    case Pass(c) =>
      var row := db.InsertAnnonce(c);
      reply := Ok(201, row);
  }

  /** PUT /annonces/:id: 200 with the rewritten row, or the failure of the first check that refuses. */
  method UpdateAnnonce(db: Database, idParam: string, b: AnnonceBody) returns (reply: Reply<Annonce>)
    requires db.Valid()
    modifies db
    ensures db.Valid()
    ensures match UpdateAnnoncePlan(old(db.State()), idParam, b)
      case Stop(f) => reply == Fail(f) && db.State() == old(db.State())
      case Pass(w) =>
        && reply == Ok(200, AnnonceRow(w.id, w.columns))
        && db.State() == AnnonceUpdated(old(db.State()), w.id, w.columns)
  {
    match UpdateAnnoncePlan(db.State(), idParam, b)
    case Stop(f) =>
      reply := Fail(f);
    case Pass(w) =>
      var row := db.UpdateAnnonce(w.id, w.columns);
      reply := Ok(200, row);
  }

  /** DELETE /annonces/:id: 200 with the deleted row, 404 when the statement returns none. */
  method DeleteAnnonce(db: Database, idParam: string) returns (reply: Reply<Annonce>)
    requires db.Valid()
    modifies db
    ensures db.Valid()
    ensures match DeleteAnnoncePlan(old(db.State()), idParam)
      case Stop(f) => reply == Fail(f) && db.State() == old(db.State())
      case Pass(id) =>
        && reply == Ok(200, old(db.annonces)[id])
        && db.State() == AnnonceDeleted(old(db.State()), id)
  {
    var n := StringToNumber(idParam);
    if n.None? {
      return Fail(BadRequest(InvalidId));
    }
    var id := AsInteger(n.value);
    if id.None? {
      return Fail(ServerError);
    }
    var r := db.DeleteAnnonce(id.value);
    match r
    case Row(a) =>
      reply := Ok(200, a);
    case NoRow =>
      reply := Fail(NotFound);
    case ForeignKeyViolation =>
      reply := Fail(ServerError);
  }

  // ===========================================================================
  // How the handlers combine
  // ===========================================================================

  /** A created listing is found by its new id, joined with its owner. */
  lemma AddedAnnonceIsRetrievable(t: Tables, b: AnnonceBody)
    requires Consistent(t) && AddAnnoncePlan(t.users, b).Pass?
    ensures var c := AddAnnoncePlan(t.users, b).value;
      var owner := t.users[c.utilisateurId];
      GetAnnonceById(AnnonceInserted(t, c), NatToString(t.nextAnnonceId))
        == Ok(200, AnnonceDetail(AnnonceRow(t.nextAnnonceId, c), owner.nom, owner.email))
  {
    NumberOfNatToString(t.nextAnnonceId);
  }

  /** After an update, the listing reads back with exactly the columns written. */
  lemma UpdatedAnnonceReadsBack(t: Tables, idParam: string, b: AnnonceBody)
    requires Consistent(t) && UpdateAnnoncePlan(t, idParam, b).Pass?
    ensures var w := UpdateAnnoncePlan(t, idParam, b).value;
      var owner := t.users[w.columns.utilisateurId];
      GetAnnonceById(AnnonceUpdated(t, w.id, w.columns), idParam)
        == Ok(200, AnnonceDetail(AnnonceRow(w.id, w.columns), owner.nom, owner.email))
  {
  }

  /** After a delete, the listing is not found, and deleting it again is a 404. */
  lemma DeletedAnnonceIsGone(t: Tables, idParam: string)
    requires DeleteAnnoncePlan(t, idParam).Pass?
    ensures var t' := AnnonceDeleted(t, DeleteAnnoncePlan(t, idParam).value);
      GetAnnonceById(t', idParam) == Fail(NotFound) && DeleteAnnoncePlan(t', idParam) == Stop(NotFound)
  {
  }

  /**
   * Creating and updating with the same body write the same nine columns;
   * only the photo differs: a falsy `photo_url` is stored as NULL on creation
   * but as given (an empty string stays empty) on update.
   */
  lemma AddAndUpdateWriteTheSame(t: Tables, idParam: string, b: AnnonceBody)
    requires AddAnnoncePlan(t.users, b).Pass? && UpdateAnnoncePlan(t, idParam, b).Pass?
    ensures var added := AddAnnoncePlan(t.users, b).value;
      var updated := UpdateAnnoncePlan(t, idParam, b).value.columns;
      && added.(photoUrl := Null) == updated.(photoUrl := Null)
      && (b.photoUrl == Str("") ==> added.photoUrl == Null && updated.photoUrl == Str(""))
  {
  }

  /**
   * The presence test is on definedness, and `Number()` turns an empty or
   * blank string into 0: a listing created with `prix: ""` costs 0.
   */
  lemma BlankPriceIsZero(users: map<int, User>, b: AnnonceBody)
    requires b.prix.Str? && AllWhitespace(b.prix.s)
    ensures ToNumber(b.prix) == Some(0.0)
    ensures AddAnnoncePlan(users, b).Pass? ==> AddAnnoncePlan(users, b).value.prix == Some(0.0)
  {
    BlankIsZero(b.prix.s);
  }

  /**
   * Only the create checks `isNaN`. A body with a number `Number()` cannot
   * read is refused with 400 on create. On update of an existing listing, an
   * unreadable room count or owner id makes the UPDATE fail (500), while an
   * unreadable price alone is written as NaN.
   */
  lemma NumericCheckOnlyOnCreate(t: Tables, idParam: string, b: AnnonceBody)
    requires !MissingRequired(b) && NumbersInvalid(b)
    ensures AddAnnoncePlan(t.users, b) == Stop(BadRequest(NotNumeric))
    ensures IdOf(idParam).Some? && IdOf(idParam).value in t.annonces
            && (ToNumber(b.nombreChambres).None? || ToNumber(b.utilisateurId).None?)
            ==> UpdateAnnoncePlan(t, idParam, b) == Stop(ServerError)
    ensures IdOf(idParam).Some? && IdOf(idParam).value in t.annonces
            && IntegerOf(b.nombreChambres).Some? && IntegerOf(b.utilisateurId).Some?
            && IntegerOf(b.utilisateurId).value in t.users
            ==> UpdateAnnoncePlan(t, idParam, b).Pass? && UpdateAnnoncePlan(t, idParam, b).value.columns.prix.None?
  {
  }
}
