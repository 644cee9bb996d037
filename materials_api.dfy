/** The query assembly of the materials API: the filtered, sorted material
    list (`build_materials_query`), the category filter of the forecast
    details, the search filter of the open-order list, and the paging
    arithmetic the three list endpoints share. Statements are kept as psycopg
    sees them: literal SQL with `%s` placeholders that the driver fills from
    a separate parameter list. */
module MaterialsApi {
  import opened Wrappers
  import opened Text

  // ---------------------------------------------------------------------------
  // Statements with placeholders
  // ---------------------------------------------------------------------------

  /** The columns the filters name. */
  datatype Column = MaterialCategory | BomMaterialCategory | BomMaterialName | MaterialName | MaterialLabel | SafetyStatus

  function ColumnText(c: Column): string {
    match c
    case MaterialCategory => "o.material_category"
    case BomMaterialCategory => "bom_material_category"
    case BomMaterialName => "o.bom_material_name"
    case MaterialName => "o.material_name"
    case MaterialLabel => "o.material_label"
    case SafetyStatus => "o.safety_status"
  }

  /** The fixed pieces of SQL text the filters are assembled from; no piece
      holds a caller's text. */
  datatype Fragment =
    | NotIn(col: Column)      // `<col> NOT IN (`
    | Equals(col: Column)     // `<col> = `
    | Comma                   // `,`
    | Open                    // `(`
    | Close                   // `)`
    | And                     // ` AND `
    | Or                      // ` OR `
    | Like                    // ` LIKE `
    | Where                   // `WHERE `
    | TrNormOf(col: Column)   // `lower(translate(<col>, '<from>', '<to>'))`
    | TrNormOpen              // `lower(translate(`
    | TrNormClose             // `, '<from>', '<to>'))`
    | SupplierHead            // the supplier sub-query up to its placeholder
    | SupplierTail
    | ItemNoHead              // the two item-number sub-queries around their placeholders
    | ItemNoMiddle
    | ItemNoTail
    | HidLike                 // `CAST(o.h_id AS TEXT) LIKE `

  /** `translate`'s arguments: Turkish letters and their ASCII folds. */
  const TrFrom := "İIıiŞşĞğÜüÖöÇç"
  const TrTo := "iiiissgguuoocc"

  function FragmentText(f: Fragment): string {
    match f
    case NotIn(c) => ColumnText(c) + " NOT IN ("
    case Equals(c) => ColumnText(c) + " = "
    case Comma => ","
    case Open => "("
    case Close => ")"
    case And => " AND "
    case Or => " OR "
    case Like => " LIKE "
    case Where => "WHERE "
    case TrNormOf(c) => "lower(translate(" + ColumnText(c) + ", '" + TrFrom + "', '" + TrTo + "'))"
    case TrNormOpen => "lower(translate("
    case TrNormClose => ", '" + TrFrom + "', '" + TrTo + "'))"
    case SupplierHead =>
      "EXISTS (SELECT 1 FROM core.dashboard_material_variants v"
      + " LEFT JOIN raw.stock_master sm ON sm.adi = v.stock_adi"
      + " WHERE v.bom_material_name = o.bom_material_name AND "
    case SupplierTail =>
      " = ANY (ARRAY[sm.tedarikci_1, sm.tedarikci_2, sm.tedarikci_3, sm.tedarikci_4, sm.tedarikci_5]))"
    case ItemNoHead =>
      "(EXISTS (SELECT 1 FROM core.bom_unique_materials bu1"
      + " WHERE bu1.material_name = o.bom_material_name AND CAST(bu1.item_no AS TEXT) ILIKE "
    case ItemNoMiddle =>
      ") OR EXISTS (SELECT 1 FROM core.dashboard_material_variants v"
      + " LEFT JOIN core.bom_unique_materials bu2 ON bu2.material_name = v.stock_adi"
      + " LEFT JOIN raw.stock_master sm2 ON sm2.adi = v.stock_adi"
      + " WHERE v.bom_material_name = o.bom_material_name"
      + " AND COALESCE(CAST(bu2.item_no AS TEXT), CAST(sm2.turu3 AS TEXT)) ILIKE "
    case ItemNoTail => "))"
    case HidLike => "CAST(o.h_id AS TEXT) LIKE "
  }

  /** A piece of statement text: fixed SQL, or a `%s` placeholder. */
  datatype Piece = Sql(f: Fragment) | Hole

  /** A value bound to a placeholder. */
  datatype Param = Text(s: string) | Int(n: int)

  /** The number of placeholders of a statement. */
  function Holes(st: seq<Piece>): nat {
    multiset(st)[Hole]
  }

  /** Python truthiness of an optional query argument: given and not empty. */
  predicate Given(x: Option<string>) {
    x.Some? && x.value != ""
  }

  /** `f"%{x}%"`, the `LIKE` pattern of a substring search. */
  function LikePattern(x: string): (p: Param)
    ensures p.Text? && |p.s| == |x| + 2 && p.s[1..|x| + 1] == x
  {
    Text("%" + x + "%")
  }

  // ---------------------------------------------------------------------------
  // Sorting
  // ---------------------------------------------------------------------------

  /** The sortable columns and the expression each sorts by. */
  const SortColumns: map<string, string> := map[
    "bom_material_name" := "o.bom_material_name",
    "unit_of_measure" := "o.unit_of_measure",
    "material_category" := "o.material_category",
    "forecast_12w" := "o.forecast_12w",
    "wape" := "m.wape",
    "current_stock" := "o.current_stock",
    "safety_status" := "o.safety_status"]

  const DefaultOrder := "ORDER BY o.safety_status, o.bom_material_name"

  /** `sort_dir.lower()` when it is `asc` or `desc`, as the SQL keyword. */
  function SortDirection(sortDir: Option<string>): (d: Option<string>)
    ensures d.Some? <==> Given(sortDir) && (Lower(sortDir.value) == "asc" || Lower(sortDir.value) == "desc")
    ensures d.Some? ==> d.value == Upper(Lower(sortDir.value))
  {
    if !Given(sortDir) then None
    else if Lower(sortDir.value) == "asc" then
      assert Upper("asc") == "ASC";
      Some("ASC")
    else if Lower(sortDir.value) == "desc" then
      assert Upper("desc") == "DESC";
      Some("DESC")
    else None
  }

  /** `ORDER BY <expr> <dir> NULLS LAST`. */
  function OrderBy(expr: string, dir: string): string {
    "ORDER BY " + expr + " " + dir + " NULLS LAST"
  }

  /** The `ORDER BY` clause: a whitelisted column in the requested direction
      (ASC when none is recognised), or the default order for any other
      `sort_by`, whatever the direction. */
  function OrderClause(sortBy: Option<string>, sortDir: Option<string>): (o: string)
    ensures sortBy.None? || sortBy.value !in SortColumns ==> o == DefaultOrder
    ensures o == DefaultOrder || exists k :: k in SortColumns && (o == OrderBy(SortColumns[k], "ASC") || o == OrderBy(SortColumns[k], "DESC"))
  {
    if sortBy.Some? && sortBy.value in SortColumns then
      OrderBy(SortColumns[sortBy.value], SortDirection(sortDir).GetOr("ASC"))
    else
      DefaultOrder
  }

  /** The direction is matched without regard to case, and anything but
      `asc`/`desc` sorts ascending. */
  lemma OrderDirection(col: string, sortDir: Option<string>)
    requires col in SortColumns
    ensures OrderClause(Some(col), sortDir)
      == OrderBy(SortColumns[col], if Given(sortDir) && Lower(sortDir.value) == "desc" then "DESC" else "ASC")
  {
    if Given(sortDir) && Lower(sortDir.value) == "desc" {
      assert Upper("desc") == "DESC";
    } else if Given(sortDir) && Lower(sortDir.value) == "asc" {
      assert Upper("asc") == "ASC";
    }
  }

  /** `Desc`, `DESC` and `desc` give one order. */
  lemma OrderCaseInsensitive(sortBy: Option<string>, a: string, b: string)
    requires Lower(a) == Lower(b)
    ensures OrderClause(sortBy, Some(a)) == OrderClause(sortBy, Some(b))
  {
    assert |a| == |b|;
  }

  // ---------------------------------------------------------------------------
  // Filters
  // ---------------------------------------------------------------------------

  /** `category.upper() == "OTHER"`. */
  predicate IsOther(category: string) {
    Upper(category) == "OTHER"
  }

  /** The categories "OTHER" excludes. */
  const OtherCategories: seq<string> := ["KUMAŞ", "SLAT", "Profil"]

  /** The predicates the list endpoints' filters are made of. */
  datatype Pred =
    | CategoryIs(col: Column, other: bool)  // the category, or for OTHER none of the three excluded ones
    | NameLike                              // the material's name holds `q`, Turkish letters folded
    | StatusIs                              // the safety status
    | SupplierHas                           // a variant is stocked by the supplier in one of its five slots
    | ItemNoLike                            // the material's item number, or one of its variants', holds `item_no`
    | OpenNameLike                          // an open order's material name or label holds `q`
    | OpenHidLike                           // an open order's `h_id` holds `h_id`

  /** The number of parameters a predicate takes. */
  function Arity(p: Pred): nat {
    match p
    case CategoryIs(_, other) => if other then 3 else 1
    case NameLike => 1
    case StatusIs => 1
    case SupplierHas => 1
    case ItemNoLike => 2
    case OpenNameLike => 2
    case OpenHidLike => 1
  }

  /** `lower(translate(col, ...)) LIKE lower(translate(%s, ...))`: a
      substring search with Turkish letters folded on both sides. */
  function FoldedLike(col: Column): (st: seq<Piece>)
    ensures Holes(st) == 1
  {
    [Sql(TrNormOf(col)), Sql(Like), Sql(TrNormOpen), Hole, Sql(TrNormClose)]
  }

  /** `(<a> LIKE ... OR <b> LIKE ...)`: the search on either column. */
  function EitherFoldedLike(a: Column, b: Column): (st: seq<Piece>)
    ensures Holes(st) == 2
  {
    var x := FoldedLike(a);
    var y := FoldedLike(b);
    assert multiset([Sql(Open)] + x + [Sql(Or)] + y + [Sql(Close)])
      == multiset([Sql(Open)]) + multiset(x) + multiset([Sql(Or)]) + multiset(y) + multiset([Sql(Close)]);
    [Sql(Open)] + x + [Sql(Or)] + y + [Sql(Close)]
  }

  /** `<head> %s`: a fragment followed by one placeholder. */
  function Bound(head: Fragment): (st: seq<Piece>)
    ensures Holes(st) == 1
  {
    [Sql(head), Hole]
  }

  /** `<col> NOT IN (%s,%s,%s)`. */
  function NotInThree(col: Column): (st: seq<Piece>)
    ensures Holes(st) == 3
  {
    [Sql(NotIn(col)), Hole, Sql(Comma), Hole, Sql(Comma), Hole, Sql(Close)]
  }

  /** `<head> %s <tail>`. */
  function Around(head: Fragment, tail: Fragment): (st: seq<Piece>)
    ensures Holes(st) == 1
  {
    [Sql(head), Hole, Sql(tail)]
  }

  /** The two item-number sub-queries, one placeholder each. */
  function ItemNoPieces(): (st: seq<Piece>)
    ensures Holes(st) == 2
  {
    [Sql(ItemNoHead), Hole, Sql(ItemNoMiddle), Hole, Sql(ItemNoTail)]
  }

  /** A predicate's text. */
  function PredPieces(p: Pred): seq<Piece> {
    match p
    case CategoryIs(col, other) => if other then NotInThree(col) else Bound(Equals(col))
    case NameLike => FoldedLike(BomMaterialName)
    case StatusIs => Bound(Equals(SafetyStatus))
    case SupplierHas => Around(SupplierHead, SupplierTail)
    case ItemNoLike => ItemNoPieces()
    case OpenNameLike => EitherFoldedLike(MaterialName, MaterialLabel)
    case OpenHidLike => Bound(HidLike)
  }

  /** A predicate's text has one placeholder per parameter. */
  lemma PredPiecesHoles(p: Pred)
    ensures Holes(PredPieces(p)) == Arity(p)
  {
    match p
    case CategoryIs(col, other) =>
    case NameLike =>
    case StatusIs =>
    case SupplierHas =>
    case ItemNoLike =>
    case OpenNameLike =>
    case OpenHidLike =>
  }

  /** The number of parameters of a list of predicates. */
  function TotalArity(preds: seq<Pred>): nat {
    if preds == [] then 0 else TotalArity(preds[..|preds| - 1]) + Arity(preds[|preds| - 1])
  }

  /** `" AND ".join(preds)`. */
  function JoinAnd(preds: seq<Pred>): seq<Piece> {
    if preds == [] then []
    else if |preds| == 1 then PredPieces(preds[0])
    else JoinAnd(preds[..|preds| - 1]) + [Sql(And)] + PredPieces(preds[|preds| - 1])
  }

  /** The joined text has a placeholder for every parameter of every
      predicate, and is empty only when there is no predicate. */
  lemma {:induction false} JoinAndHoles(preds: seq<Pred>)
    ensures Holes(JoinAnd(preds)) == TotalArity(preds)
    ensures JoinAnd(preds) == [] <==> preds == []
  {
    if |preds| == 1 {
      assert preds[..0] == [];
      PredPiecesHoles(preds[0]);
      assert Holes(PredPieces(preds[0])) > 0;
    } else if |preds| > 1 {
      var init := preds[..|preds| - 1];
      var last := PredPieces(preds[|preds| - 1]);
      JoinAndHoles(init);
      PredPiecesHoles(preds[|preds| - 1]);
      assert multiset(JoinAnd(init) + [Sql(And)] + last)
        == multiset(JoinAnd(init)) + multiset([Sql(And)]) + multiset(last);
    }
  }

  /** Only no predicates join to no text. */
  lemma JoinAndEmpty(preds: seq<Pred>)
    ensures JoinAnd(preds) == [] <==> preds == []
  {
    JoinAndHoles(preds);
  }

  /** `where.append(p)` when a filter is given. */
  function AppendIf(preds: seq<Pred>, given: bool, p: Pred): seq<Pred> {
    if given then preds + [p] else preds
  }

  /** The material list's predicates, appended filter by filter: which of
      them appear depends only on which filters were given, never on the
      text of a filter. */
  function MaterialsPreds(other: bool, q: bool, status: bool, supplier: bool, itemNo: bool): seq<Pred> {
    AppendIf(AppendIf(AppendIf(AppendIf([CategoryIs(MaterialCategory, other)], q, NameLike), status, StatusIs),
                      supplier, SupplierHas), itemNo, ItemNoLike)
  }

  /** The category parameters: the three excluded categories for OTHER,
      the category itself otherwise. */
  function CategoryParams(category: string): (ps: seq<Param>)
    ensures |ps| == Arity(CategoryIs(MaterialCategory, IsOther(category)))
  {
    if IsOther(category) then [Text(OtherCategories[0]), Text(OtherCategories[1]), Text(OtherCategories[2])]
    else [Text(category)]
  }

  /** The material list's parameters, in the order of their placeholders:
      the category (or the three excluded ones), `%q%`, the status, the
      supplier, and `%item_no%` twice. */
  function MaterialsParams(category: string, q: Option<string>, status: Option<string>, supplier: Option<string>,
                           itemNo: Option<string>): seq<Param> {
    var a := CategoryParams(category);
    var b := if Given(q) then a + [LikePattern(q.value)] else a;
    var c := if Given(status) then b + [Text(status.value)] else b;
    var d := if Given(supplier) then c + [Text(supplier.value)] else c;
    if Given(itemNo) then d + [LikePattern(itemNo.value), LikePattern(itemNo.value)] else d
  }

  /** Appending a predicate adds its parameters. */
  lemma AppendIfArity(preds: seq<Pred>, given: bool, p: Pred)
    ensures TotalArity(AppendIf(preds, given, p)) == TotalArity(preds) + if given then Arity(p) else 0
  {
    if given {
      assert (preds + [p])[..|preds|] == preds;
    }
  }

  /** The material list's predicates take the category's parameters, one
      each for `q`, the status and the supplier, and two for the item number. */
  lemma MaterialsArity(other: bool, q: bool, status: bool, supplier: bool, itemNo: bool)
    ensures TotalArity(MaterialsPreds(other, q, status, supplier, itemNo))
      == (if other then 3 else 1) + (if q then 1 else 0) + (if status then 1 else 0)
         + (if supplier then 1 else 0) + (if itemNo then 2 else 0)
  {
    var a := [CategoryIs(MaterialCategory, other)];
    assert TotalArity(a) == Arity(a[0]) by { assert a[..0] == []; }
    var b := AppendIf(a, q, NameLike);
    var c := AppendIf(b, status, StatusIs);
    var d := AppendIf(c, supplier, SupplierHas);
    AppendIfArity(a, q, NameLike);
    AppendIfArity(b, status, StatusIs);
    AppendIfArity(c, supplier, SupplierHas);
    AppendIfArity(d, itemNo, ItemNoLike);
  }

  /** Every placeholder of the material list's filter has exactly one
      parameter, for every combination of filters. */
  lemma MaterialsPlaceholders(category: string, q: Option<string>, status: Option<string>, supplier: Option<string>,
                              itemNo: Option<string>)
    ensures Holes(JoinAnd(MaterialsPreds(IsOther(category), Given(q), Given(status), Given(supplier), Given(itemNo))))
      == |MaterialsParams(category, q, status, supplier, itemNo)|
  {
    var preds := MaterialsPreds(IsOther(category), Given(q), Given(status), Given(supplier), Given(itemNo));
    JoinAndHoles(preds);
    MaterialsArity(IsOther(category), Given(q), Given(status), Given(supplier), Given(itemNo));
  }

  /** `build_materials_query`: the `WHERE` text, its parameters and the
      `ORDER BY` clause, the predicates and parameters appended filter by
      filter and the predicates joined with `AND`. */
  method BuildMaterialsQuery(category: string, q: Option<string>, status: Option<string>, supplier: Option<string>,
                             itemNo: Option<string>, sortBy: Option<string>, sortDir: Option<string>)
    returns (whereSql: seq<Piece>, params: seq<Param>, orderSql: string)
    ensures whereSql == JoinAnd(MaterialsPreds(IsOther(category), Given(q), Given(status), Given(supplier), Given(itemNo)))
    ensures params == MaterialsParams(category, q, status, supplier, itemNo)
    ensures Holes(whereSql) == |params|
    ensures orderSql == OrderClause(sortBy, sortDir)
  {
    orderSql := OrderClause(sortBy, sortDir);
    var preds := [CategoryIs(MaterialCategory, IsOther(category))];
    params := CategoryParams(category);
    if Given(q) {
      preds := preds + [NameLike];
      params := params + [LikePattern(q.value)];
    }
    if Given(status) {
      preds := preds + [StatusIs];
      params := params + [Text(status.value)];
    }
    if Given(supplier) {
      preds := preds + [SupplierHas];
      params := params + [Text(supplier.value)];
    }
    if Given(itemNo) {
      preds := preds + [ItemNoLike];
      params := params + [LikePattern(itemNo.value), LikePattern(itemNo.value)];
    }
    whereSql := JoinAnd(preds);
    MaterialsPlaceholders(category, q, status, supplier, itemNo);
  }

  /** The forecast details' filter: the category predicate alone, on the
      metrics table's column, with its parameters. */
  function ForecastDetailsWhere(category: string): (r: (seq<Piece>, seq<Param>))
    ensures Holes(r.0) == |r.1|
    ensures r.1 == CategoryParams(category)
  {
    PredPiecesHoles(CategoryIs(BomMaterialCategory, IsOther(category)));
    (PredPieces(CategoryIs(BomMaterialCategory, IsOther(category))), CategoryParams(category))
  }

  /** The open-order list's predicates. */
  function OpenOrdersPreds(q: bool, hId: bool): seq<Pred> {
    AppendIf(AppendIf([], q, OpenNameLike), hId, OpenHidLike)
  }

  /** The name search takes two parameters and the `h_id` search one. */
  lemma OpenOrdersArity(q: bool, hId: bool)
    ensures TotalArity(OpenOrdersPreds(q, hId)) == (if q then 2 else 0) + (if hId then 1 else 0)
  {
    AppendIfArity([], q, OpenNameLike);
    AppendIfArity(AppendIf([], q, OpenNameLike), hId, OpenHidLike);
  }

  /** The open-order list's parameters: `%q%` for the name and the label,
      then `%h_id%`. */
  function OpenOrdersParams(q: Option<string>, hId: Option<string>): seq<Param> {
    var a := if Given(q) then [LikePattern(q.value), LikePattern(q.value)] else [];
    if Given(hId) then a + [LikePattern(hId.value)] else a
  }

  /** The open-order list's filter clause: `WHERE` and the predicates
      joined with `AND`, or nothing when there is no predicate. */
  function OpenOrdersClause(q: bool, hId: bool): seq<Piece> {
    var preds := OpenOrdersPreds(q, hId);
    if preds == [] then [] else [Sql(Where)] + JoinAnd(preds)
  }

  /** The clause is empty exactly when neither search is given, and has two
      placeholders for the name search and one for the `h_id` search. */
  lemma OpenOrdersClauseShape(q: bool, hId: bool)
    ensures OpenOrdersClause(q, hId) == [] <==> !q && !hId
    ensures Holes(OpenOrdersClause(q, hId)) == (if q then 2 else 0) + (if hId then 1 else 0)
  {
    var preds := OpenOrdersPreds(q, hId);
    JoinAndHoles(preds);
    OpenOrdersArity(q, hId);
    if preds != [] {
      assert multiset([Sql(Where)] + JoinAnd(preds)) == multiset([Sql(Where)]) + multiset(JoinAnd(preds));
    }
  }

  /** Every placeholder of the open-order filter has exactly one parameter. */
  lemma OpenOrdersPlaceholders(q: Option<string>, hId: Option<string>)
    ensures Holes(OpenOrdersClause(Given(q), Given(hId))) == |OpenOrdersParams(q, hId)|
  {
    OpenOrdersClauseShape(Given(q), Given(hId));
  }

  /** `list_open_orders`' filter, the predicates and parameters appended
      search by search; the `WHERE` is added only when the joined text is
      not empty. */
  method OpenOrdersWhere(q: Option<string>, hId: Option<string>) returns (whereClause: seq<Piece>, params: seq<Param>)
    ensures whereClause == OpenOrdersClause(Given(q), Given(hId))
    ensures params == OpenOrdersParams(q, hId)
  {
    var preds: seq<Pred> := [];
    params := [];
    if Given(q) {
      preds := preds + [OpenNameLike];
      params := params + [LikePattern(q.value), LikePattern(q.value)];
    }
    if Given(hId) {
      preds := preds + [OpenHidLike];
      params := params + [LikePattern(hId.value)];
    }
    assert preds == OpenOrdersPreds(Given(q), Given(hId));
    var whereSql := JoinAnd(preds);
    JoinAndEmpty(preds);
    whereClause := if whereSql == [] then [] else [Sql(Where)] + whereSql;
  }

  // ---------------------------------------------------------------------------
  // Paging
  // ---------------------------------------------------------------------------

  /** The largest page size the list endpoints accept. */
  const MaxPageSize := 500

  /** `(page - 1) * page_size`: the rows before the page. The endpoints
      refuse a page below 1 and a page size outside 1..500 before computing
      it. */
  function Offset(page: int, pageSize: int): (o: nat)
    requires page >= 1 && 1 <= pageSize <= MaxPageSize
  {
    (page - 1) * pageSize
  }

  /** `(total - 1) // page_size + 1 if total else 0`: the number of pages,
      `ceil(total / page_size)`. */
  function TotalPages(total: nat, pageSize: int): (n: nat)
    requires 1 <= pageSize <= MaxPageSize
    ensures total == 0 <==> n == 0
    ensures n > 0 ==> (n - 1) * pageSize < total <= n * pageSize
  {
    if total == 0 then 0
    else
      var n := (total - 1) / pageSize + 1;
      assert (total - 1) == pageSize * ((total - 1) / pageSize) + (total - 1) % pageSize;
      assert (n - 1) * pageSize == pageSize * ((total - 1) / pageSize);
      assert n * pageSize == (n - 1) * pageSize + pageSize;
      n
  }

  /** A page has rows exactly when it is one of the `TotalPages` pages. */
  lemma PageHasRows(total: nat, page: int, pageSize: int)
    requires page >= 1 && 1 <= pageSize <= MaxPageSize
    ensures Offset(page, pageSize) < total <==> page <= TotalPages(total, pageSize)
  {
    var n := TotalPages(total, pageSize);
    if page <= n {
      assert Offset(page, pageSize) <= (n - 1) * pageSize by {
        MulMonotone(page - 1, n - 1, pageSize);
      }
    } else if n > 0 {
      assert Offset(page, pageSize) >= n * pageSize by {
        MulMonotone(n, page - 1, pageSize);
      }
    }
  }

  lemma MulMonotone(a: int, b: int, c: int)
    requires 0 <= a <= b && c >= 0
    ensures a * c <= b * c
  {
    assert b * c == a * c + (b - a) * c;
  }
}
