/** The core aggregates the sync keeps up to date from the raw tables:
    the per-stream watermarks in `core.sync_hid_state`, the running stock
    balance `core.raw_current_stock`, its per-variant view
    `core.current_stock_by_variant`, and the material list
    `core.bom_unique_materials`. Each SQL statement is a function of the
    tables it reads; the maintainers apply them to a `CoreDb` in the order
    the source issues them. */
module Aggregates {
  import opened Wrappers
  import opened Text
  import opened Dates
  import opened Records
  import opened Incremental

  // ---------------------------------------------------------------------------
  // Shared: watermarks, the skip rule and the first-run rule
  // ---------------------------------------------------------------------------

  /** The ids above a watermark (`WHERE h_id > %s`). */
  function Above(hids: seq<int>, last: int): (a: seq<int>)
    ensures forall h :: h in a <==> h in hids && h > last
  {
    if hids == [] then []
    else
      var init := Above(hids[..|hids| - 1], last);
      var h := hids[|hids| - 1];
      assert hids == hids[..|hids| - 1] + [h];
      if h > last then init + [h] else init
  }

  /** `COALESCE(MAX(h_id), 0) ... WHERE h_id > last` moves past a
      non-negative watermark exactly when some id lies above it. */
  lemma MaxAboveMoves(hids: seq<int>, last: int)
    requires last >= 0
    ensures MaxHid(Above(hids, last)) > last <==> exists h :: h in hids && h > last
  {
    if exists h :: h in hids && h > last {
      var h :| h in hids && h > last;
      assert h in Above(hids, last);
    }
  }

  /** Run twice on the same rows, the second run finds nothing above the
      watermark the first one stored: the maintainers' repeat call is a
      no-op. */
  lemma MaxAboveSettles(hids: seq<int>, last: int)
    requires last >= 0 && MaxHid(Above(hids, last)) > last
    ensures MaxHid(Above(hids, MaxHid(Above(hids, last)))) <= MaxHid(Above(hids, last))
  {
    var m := MaxHid(Above(hids, last));
    MaxAboveMoves(hids, m);
  }

  /** The watermark a maintainer resumes from: the stored one; on a first
      run (`None` stored) 0 when its table is empty, and no resume at all
      (`None`) when it already has rows, in which case the state is seeded. */
  function ResumeFrom(stored: Option<int>, hasRows: bool): Option<int> {
    if stored.Some? then stored
    else if hasRows then None
    else Some(0)
  }

  datatype BalanceKey = BalanceKey(stockAdi: Option<string>, warehouse: Option<string>, stockUom: Option<string>)

  /** A `core.raw_current_stock` row. */
  datatype Balance = Balance(key: BalanceKey, currentStock: real)

  /** A `core.bom_to_stock_map` row (the columns the variant refresh reads). */
  datatype MapRow = MapRow(
    bomMaterialName: Option<string>, bomUom: Option<string>, bomType: Option<string>,
    stockAdi: Option<string>, ek2: Option<string>)

  /** A `core.current_stock_by_variant` row. */
  datatype VariantRow = VariantRow(
    bomMaterialName: Option<string>, bomUom: Option<string>, bomType: Option<string>,
    stockAdi: Option<string>, stockUom: Option<string>, warehouse: Option<string>,
    currentStock: Option<real>)

  /** A `core.bom_unique_materials` row. */
  datatype UniqueMaterial = UniqueMaterial(
    materialName: string, materialColor: Option<string>, itemNo: Option<string>,
    unitOfMeasure: Option<string>, materialCategory: Option<string>)

  /** The core schema's tables the maintainers write. */
  class CoreDb {
    var state: map<string, int>
    var balances: seq<Balance>
    var variants: seq<VariantRow>
    var uniques: seq<UniqueMaterial>

    constructor()
      ensures state == map[] && balances == [] && variants == [] && uniques == []
    {
      state := map[];
      balances := [];
      variants := [];
      uniques := [];
    }

    /** `get_core_state_hid`. */
    function StateHid(name: string): (h: Option<int>)
      reads this
      ensures h.Some? <==> name in state
      ensures h.Some? ==> h.value == state[name]
    {
      if name in state then Some(state[name]) else None
    }

    /** `set_core_state_hid`: an upsert of one stream's watermark. */
    method SetStateHid(name: string, lastHid: int)
      modifies this
      ensures state == old(state)[name := lastHid]
      ensures StateHid(name) == Some(lastHid)
      ensures forall other :: other != name ==> StateHid(other) == old(StateHid(other))
      ensures balances == old(balances) && variants == old(variants) && uniques == old(uniques)
    {
      state := state[name := lastHid];
    }
  }

  // ---------------------------------------------------------------------------
  // incremental_raw_current_stock
  // ---------------------------------------------------------------------------

  /** `company_code NOT IN (SELECT warehouse FROM core.seat_warehouses)`: a
      NULL code passes only when there are no seat warehouses. */
  predicate NotSeat(code: Option<string>, seats: set<string>) {
    if code.None? then seats == {} else code.value !in seats
  }

  /** The rows the balance and variant refreshes count: above the watermark
      and not in a seat warehouse. */
  function Counted(ms: seq<StockMovement>, last: int, seats: set<string>): (cs: seq<StockMovement>)
    ensures forall m :: m in cs <==> m in ms && m.hId > last && NotSeat(m.companyCode, seats)
  {
    if ms == [] then []
    else
      var init := Counted(ms[..|ms| - 1], last, seats);
      var m := ms[|ms| - 1];
      assert ms == ms[..|ms| - 1] + [m];
      if m.hId > last && NotSeat(m.companyCode, seats) then init + [m] else init
  }

  function KeyOf(m: StockMovement): BalanceKey {
    BalanceKey(m.materialName, m.companyCode, m.unitOfMeasure)
  }

  /** A movement's effect on the balance: an outgoing warehouse transfer
      counts negatively. */
  function Signed(m: StockMovement): real {
    if m.documentType == "Depo Çıkış" then -m.quantity else m.quantity
  }

  /** The `delta` of one `GROUP BY` group (NULLs group together). */
  function KeySum(cs: seq<StockMovement>, k: BalanceKey): real {
    if cs == [] then 0.0
    else KeySum(cs[..|cs| - 1], k) + (if KeyOf(cs[|cs| - 1]) == k then Signed(cs[|cs| - 1]) else 0.0)
  }

  /** A key no counted row has sums to zero. */
  lemma {:induction false} KeySumUntouched(cs: seq<StockMovement>, k: BalanceKey)
    requires forall m :: m in cs ==> KeyOf(m) != k
    ensures KeySum(cs, k) == 0.0
  {
    if cs != [] {
      assert forall m :: m in cs[..|cs| - 1] ==> m in cs;
      assert cs[|cs| - 1] in cs;
      KeySumUntouched(cs[..|cs| - 1], k);
    }
  }

  /** The groups of the delta query, one per key, in first-seen order. */
  function Keys(cs: seq<StockMovement>): (ks: seq<BalanceKey>)
    ensures forall i, j :: 0 <= i < j < |ks| ==> ks[i] != ks[j]
    ensures forall k :: k in ks <==> exists m :: m in cs && KeyOf(m) == k
  {
    if cs == [] then []
    else
      var init := Keys(cs[..|cs| - 1]);
      var m := cs[|cs| - 1];
      assert cs == cs[..|cs| - 1] + [m];
      if KeyOf(m) in init then init else init + [KeyOf(m)]
  }

  /** The join condition `r.x = d.x AND ...`: equality of non-NULL values,
      so a key with a NULL part never matches. */
  predicate FullKey(k: BalanceKey) {
    k.stockAdi.Some? && k.warehouse.Some? && k.stockUom.Some?
  }

  /** The `UPDATE ... FROM delta` on one row. */
  function UpdatedRow(r: Balance, cs: seq<StockMovement>): Balance {
    if FullKey(r.key) && r.key in Keys(cs) then r.(currentStock := r.currentStock + KeySum(cs, r.key)) else r
  }

  function Updated(t: seq<Balance>, cs: seq<StockMovement>): (u: seq<Balance>)
    ensures |u| == |t|
    ensures forall i :: 0 <= i < |t| ==> u[i] == UpdatedRow(t[i], cs)
  {
    seq(|t|, i requires 0 <= i < |t| => UpdatedRow(t[i], cs))
  }

  predicate HasKey(t: seq<Balance>, k: BalanceKey) {
    exists i :: 0 <= i < |t| && t[i].key == k
  }

  /** The anti-join `INSERT`: a group is inserted unless a row matches it. */
  function Missing(ks: seq<BalanceKey>, t: seq<Balance>, cs: seq<StockMovement>): seq<Balance> {
    if ks == [] then []
    else
      var init := Missing(ks[..|ks| - 1], t, cs);
      var k := ks[|ks| - 1];
      if FullKey(k) && HasKey(t, k) then init else init + [Balance(k, KeySum(cs, k))]
  }

  /** The two statements of `incremental_raw_current_stock`: the update, then
      the insert of the groups the updated table does not match. */
  function RefreshBalances(t: seq<Balance>, cs: seq<StockMovement>): seq<Balance> {
    var u := Updated(t, cs);
    u + Missing(Keys(cs), u, cs)
  }

  /** How many rows a key has, and their total (the consistency check's
      `COUNT(*)` and `SUM(current_stock)` per key). */
  function CountKey(t: seq<Balance>, k: BalanceKey): nat {
    if t == [] then 0
    else CountKey(t[..|t| - 1], k) + (if t[|t| - 1].key == k then 1 else 0)
  }

  function SumKey(t: seq<Balance>, k: BalanceKey): real {
    if t == [] then 0.0
    else SumKey(t[..|t| - 1], k) + (if t[|t| - 1].key == k then t[|t| - 1].currentStock else 0.0)
  }

  lemma {:induction false} CountSumAppend(a: seq<Balance>, b: seq<Balance>, k: BalanceKey)
    ensures CountKey(a + b, k) == CountKey(a, k) + CountKey(b, k)
    ensures SumKey(a + b, k) == SumKey(a, k) + SumKey(b, k)
    decreases |b|
  {
    if b == [] {
      assert a + b == a;
    } else {
      assert (a + b)[..|a + b| - 1] == a + b[..|b| - 1];
      CountSumAppend(a, b[..|b| - 1], k);
    }
  }

  lemma {:induction false} CountZero(t: seq<Balance>, k: BalanceKey)
    ensures CountKey(t, k) == 0 <==> !HasKey(t, k)
    ensures CountKey(t, k) == 0 ==> SumKey(t, k) == 0.0
    decreases |t|
  {
    if t != [] {
      var init := t[..|t| - 1];
      CountZero(init, k);
      if HasKey(init, k) {
        var i :| 0 <= i < |init| && init[i].key == k;
        assert t[i].key == k;
      }
      if HasKey(t, k) && t[|t| - 1].key != k {
        var i :| 0 <= i < |t| && t[i].key == k;
        assert init[i].key == k;
      }
    }
  }

  /** What the update adds to each row of key `k`. */
  function DeltaFor(cs: seq<StockMovement>, k: BalanceKey): real {
    if FullKey(k) && k in Keys(cs) then KeySum(cs, k) else 0.0
  }

  /** `n * d`, spelled out so that the sums below stay linear. */
  function Times(n: nat, d: real): real {
    if n == 0 then 0.0 else Times(n - 1, d) + d
  }

  /** The update keeps every row's key and adds the group's delta to each row
      of a matched key. */
  lemma {:induction false} UpdatedCountSum(t: seq<Balance>, cs: seq<StockMovement>, k: BalanceKey)
    ensures CountKey(Updated(t, cs), k) == CountKey(t, k)
    ensures SumKey(Updated(t, cs), k) == SumKey(t, k) + Times(CountKey(t, k), DeltaFor(cs, k))
    decreases |t|
  {
    if t != [] {
      var init := t[..|t| - 1];
      var r := t[|t| - 1];
      var u := Updated(t, cs);
      UpdatedCountSum(init, cs, k);
      assert u[..|t| - 1] == Updated(init, cs);
      var c := CountKey(init, k);
      var d := DeltaFor(cs, k);
      if r.key == k {
        assert u[|t| - 1].currentStock == r.currentStock + d;
        assert CountKey(t, k) == c + 1;
        assert SumKey(u, k) == SumKey(Updated(init, cs), k) + r.currentStock + d;
        assert SumKey(t, k) == SumKey(init, k) + r.currentStock;
      } else {
        assert u[|t| - 1].key != k;
        assert SumKey(u, k) == SumKey(Updated(init, cs), k);
      }
    }
  }

  /** The inserted groups: one row for a key exactly when it is a group the
      table does not match. */
  lemma {:induction false} MissingCountSum(ks: seq<BalanceKey>, t: seq<Balance>, cs: seq<StockMovement>, k: BalanceKey)
    requires forall i, j :: 0 <= i < j < |ks| ==> ks[i] != ks[j]
    ensures CountKey(Missing(ks, t, cs), k) == (if k in ks && !(FullKey(k) && HasKey(t, k)) then 1 else 0)
    ensures SumKey(Missing(ks, t, cs), k) == (if k in ks && !(FullKey(k) && HasKey(t, k)) then KeySum(cs, k) else 0.0)
    decreases |ks|
  {
    if ks != [] {
      var init := ks[..|ks| - 1];
      MissingCountSum(init, t, cs, k);
      assert ks == init + [ks[|ks| - 1]];
      var m := Missing(init, t, cs);
      var last := ks[|ks| - 1];
      if !(FullKey(last) && HasKey(t, last)) {
        CountSumAppend(m, [Balance(last, KeySum(cs, last))], k);
        assert [Balance(last, KeySum(cs, last))][..0] == [];
      }
    }
  }

  lemma UpdatedHasKey(t: seq<Balance>, cs: seq<StockMovement>, k: BalanceKey)
    ensures HasKey(Updated(t, cs), k) <==> HasKey(t, k)
  {
    if HasKey(t, k) {
      var i :| 0 <= i < |t| && t[i].key == k;
      assert Updated(t, cs)[i].key == k;
    }
    if HasKey(Updated(t, cs), k) {
      var i :| 0 <= i < |t| && Updated(t, cs)[i].key == k;
      assert t[i].key == k;
    }
  }

  /** The running balance of a complete key (one that the join can match):
      with at most one row before, it has exactly one row afterwards when it
      had one or is touched by a counted row, and that row's stock is the old
      stock plus the signed sum of the counted rows. */
  lemma BalanceRefreshFullKey(t: seq<Balance>, cs: seq<StockMovement>, k: BalanceKey)
    requires FullKey(k) && CountKey(t, k) <= 1
    ensures CountKey(RefreshBalances(t, cs), k) == (if CountKey(t, k) == 1 || k in Keys(cs) then 1 else 0)
    ensures SumKey(RefreshBalances(t, cs), k) == SumKey(t, k) + KeySum(cs, k)
  {
    var u := Updated(t, cs);
    CountSumAppend(u, Missing(Keys(cs), u, cs), k);
    UpdatedCountSum(t, cs, k);
    MissingCountSum(Keys(cs), u, cs, k);
    UpdatedHasKey(t, cs, k);
    CountZero(t, k);
    if k !in Keys(cs) {
      KeySumUntouched(cs, k);
    }
  }

  /** A row whose key no counted row has, or whose key has a NULL part, is
      left as it was, and the old rows keep their places. */
  lemma BalanceRefreshKeepsOthers(t: seq<Balance>, cs: seq<StockMovement>, i: int)
    requires 0 <= i < |t|
    requires !FullKey(t[i].key) || t[i].key !in Keys(cs)
    ensures |RefreshBalances(t, cs)| >= |t| && RefreshBalances(t, cs)[i] == t[i]
  {
  }

  /** As written, a touched key with a NULL part never matches the update's
      or the insert's join, so every run that touches it inserts one more
      row for it. */
  lemma BalanceRefreshNullKeyGrows(t: seq<Balance>, cs: seq<StockMovement>, k: BalanceKey)
    requires !FullKey(k) && k in Keys(cs)
    ensures CountKey(RefreshBalances(t, cs), k) == CountKey(t, k) + 1
  {
    var u := Updated(t, cs);
    CountSumAppend(u, Missing(Keys(cs), u, cs), k);
    UpdatedCountSum(t, cs, k);
    MissingCountSum(Keys(cs), u, cs, k);
  }

  const BalanceStream := "raw_current_stock"

  /** `incremental_raw_current_stock`. Skipped (False) without the table. On
      a first run with rows already present, the watermark is seeded with the
      destination's `MAX(h_id)` and nothing else happens. Otherwise, if some
      raw movement (seat warehouses included) lies above the watermark, the
      non-seat movements above it are folded into the balances and the
      watermark moves to the largest id above it. */
  method IncrementalRawCurrentStock(db: CoreDb, tableExists: bool, movements: seq<StockMovement>, seats: set<string>)
    returns (changed: bool)
    modifies db
    ensures db.variants == old(db.variants) && db.uniques == old(db.uniques)
    ensures !tableExists ==> !changed && db.state == old(db.state) && db.balances == old(db.balances)
    ensures tableExists ==>
      var hids := MovementHids(movements);
      match ResumeFrom(old(db.StateHid(BalanceStream)), old(db.balances) != [])
      case None =>
        !changed && db.balances == old(db.balances)
        && db.state == old(db.state)[BalanceStream := MaxHid(hids)]
      case Some(last) =>
        if MaxHid(Above(hids, last)) <= last then
          !changed && db.state == old(db.state) && db.balances == old(db.balances)
        else
          changed && db.balances == RefreshBalances(old(db.balances), Counted(movements, last, seats))
          && db.state == old(db.state)[BalanceStream := MaxHid(Above(hids, last))]
  {
    if !tableExists {
      return false;
    }
    var hids := MovementHids(movements);
    var stored := db.StateHid(BalanceStream);
    var last: int;
    if stored.None? {
      if db.balances != [] {
        db.SetStateHid(BalanceStream, MaxHid(hids));
        return false;
      }
      last := 0;
    } else {
      last := stored.value;
    }
    var maxHid := MaxHid(Above(hids, last));
    if maxHid <= last {
      return false;
    }
    db.balances := RefreshBalances(db.balances, Counted(movements, last, seats));
    db.SetStateHid(BalanceStream, maxHid);
    return true;
  }

  // ---------------------------------------------------------------------------
  // incremental_current_stock_by_variant
  // ---------------------------------------------------------------------------

  /** `stock_uom ILIKE '%mt%' AND stock_uom NOT ILIKE '%mt2%'`. */
  predicate MetreUnit(uom: Option<string>) {
    uom.Some? && Contains(Lower(uom.value), "mt") && !Contains(Lower(uom.value), "mt2")
  }

  /** The `CASE` condition: a fabric (`bom_type LIKE 'KUMA%'`) measured in
      square metres on the BOM side and in running metres on the stock side.
      A NULL part makes the condition fail, so the `ELSE` applies. */
  predicate Converts(b: MapRow, r: Balance) {
    b.bomType.Some? && StartsWith(b.bomType.value, "KUMA") && b.bomUom == Some("Mt2") && MetreUnit(r.key.stockUom)
  }

  /** `REGEXP_REPLACE(s, '[^0-9\.]', '', 'g')`. */
  function DigitsAndDots(s: string): (t: string)
    ensures forall c :: c in t <==> c in s && (IsDigit(c) || c == '.')
  {
    if s == [] then []
    else
      var init := DigitsAndDots(s[..|s| - 1]);
      var c := s[|s| - 1];
      assert s == s[..|s| - 1] + [c];
      if IsDigit(c) || c == '.' then init + [c] else init
  }

  function Pow10(n: nat): (p: nat)
    ensures p >= 1
  {
    if n == 0 then 1 else 10 * Pow10(n - 1)
  }

  /** The value of `whole.frac`. */
  function Decimal(whole: string, frac: string): (x: real)
    requires AllDigits(whole) && AllDigits(frac)
    ensures x >= DigitsValue(whole) as real >= 0.0
    ensures x < DigitsValue(whole) as real + 1.0
  {
    var f := DigitsValue(frac) as real;
    var p := Pow10(|frac|) as real;
    DigitsBelow(frac);
    FractionBelowOne(f, p);
    DigitsValue(whole) as real + f / p
  }

  lemma FractionBelowOne(f: real, p: real)
    requires 0.0 <= f < p
    ensures 0.0 <= f / p < 1.0
  {
    assert f / p * p == f;
  }

  lemma {:induction false} DigitsBelow(d: string)
    requires AllDigits(d)
    ensures DigitsValue(d) < Pow10(|d|)
  {
    if d != [] {
      var init := d[..|d| - 1];
      DigitsBelow(init);
      assert IsDigit(d[|d| - 1]);
      assert DigitsValue(init) * 10 <= (Pow10(|init|) - 1) * 10;
    }
  }

  /** `t::NUMERIC` for a non-empty string of digits and dots: a number when
      there is at most one dot and some digit; otherwise the cast raises. */
  function Numeric(t: string): (r: Option<real>)
    requires forall c :: c in t ==> IsDigit(c) || c == '.'
    ensures r.Some? <==> |Split(t, '.')| <= 2 && exists c :: c in t && IsDigit(c)
    ensures r.Some? ==> r.value >= 0.0
  {
    var parts := Split(t, '.');
    JoinSplit(t, '.');
    assert forall k :: 0 <= k < |parts| ==> forall c :: c in parts[k] ==> c in t by {
      forall k | 0 <= k < |parts| ensures forall c :: c in parts[k] ==> c in t {
        SplitPartsIn(parts, '.', k);
      }
    }
    if |parts| > 2 then None
    else
      var whole := parts[0];
      var frac := if |parts| == 2 then parts[1] else "";
      assert AllDigits(whole) && AllDigits(frac) by {
        assert forall c :: c in whole ==> c in t && c != '.';
        assert forall c :: c in frac ==> c in t && c != '.';
        assert forall k :: 0 <= k < |whole| ==> whole[k] in whole;
        assert forall k :: 0 <= k < |frac| ==> frac[k] in frac;
      }
      if whole == [] && frac == [] then
        NoDigitsWhenEmptyParts(t, parts);
        None
      else
        DigitsInParts(t, parts);
        Some(Decimal(whole, frac))
  }

  /** Every piece of a split is a piece of its string. */
  lemma SplitPartsIn(parts: seq<string>, sep: char, k: int)
    requires |parts| >= 1 && 0 <= k < |parts|
    ensures forall c :: c in parts[k] ==> c in Join(parts, sep)
    decreases |parts|
  {
    if k > 0 {
      SplitPartsIn(parts[1..], sep, k - 1);
    }
  }

  lemma NoDigitsWhenEmptyParts(t: string, parts: seq<string>)
    requires forall c :: c in t ==> IsDigit(c) || c == '.'
    requires parts == Split(t, '.') && Join(parts, '.') == t && 1 <= |parts| <= 2
    requires parts[0] == [] && (|parts| == 2 ==> parts[1] == [])
    ensures !exists c :: c in t && IsDigit(c)
  {
  }

  lemma DigitsInParts(t: string, parts: seq<string>)
    requires forall c :: c in t ==> IsDigit(c) || c == '.'
    requires 1 <= |parts| <= 2 && Join(parts, '.') == t
    requires parts[0] != [] || (|parts| == 2 && parts[1] != [])
    requires forall k :: 0 <= k < |parts| ==> '.' !in parts[k]
    ensures exists c :: c in t && IsDigit(c)
  {
    if parts[0] != [] {
      assert parts[0][0] in t;
    } else {
      assert parts[1][0] in t;
    }
  }

  /** `stock * (pct / 100)`. */
  function Percent(stock: real, pct: real): real {
    stock * (pct / 100.0)
  }

  /** The stock a variant row gets: the balance, or under the conversion the
      balance times the number in `ek_2` over 100, NULL when `ek_2` has no
      digits or dots; a malformed number makes the statement raise. */
  function VariantStock(b: MapRow, r: Balance): (v: Result<Option<real>, SyncError>)
    ensures !Converts(b, r) ==> v == Ok(Some(r.currentStock))
    ensures Converts(b, r) && (b.ek2.None? || DigitsAndDots(b.ek2.value) == []) ==> v == Ok(None)
    ensures Converts(b, r) && b.ek2.Some? && DigitsAndDots(b.ek2.value) != [] ==>
      var n := Numeric(DigitsAndDots(b.ek2.value));
      (n.None? ==> v == Err(StatementFailed)) && (n.Some? ==> v == Ok(Some(Percent(r.currentStock, n.value))))
  {
    if !Converts(b, r) then Ok(Some(r.currentStock))
    else if b.ek2.None? then Ok(None)
    else
      var t := DigitsAndDots(b.ek2.value);
      if t == [] then Ok(None)
      else
        var n := Numeric(t);
        if n.None? then Err(StatementFailed) else Ok(Some(Percent(r.currentStock, n.value)))
  }

  /** The conversion rule on the unit spellings: metres in any case convert,
      square metres in any case do not. */
  lemma ConvertsOnUnits(b: MapRow, r: Balance)
    requires b.bomType == Some("KUMA" + "Ş") && b.bomUom == Some("Mt2")
    ensures r.key.stockUom == Some("MT") ==> Converts(b, r)
    ensures r.key.stockUom == Some("mt2") || r.key.stockUom == Some("MT2") ==> !Converts(b, r)
    ensures r.key.stockUom.None? ==> !Converts(b, r)
  {
    assert StartsWith("KUMA" + "Ş", "KUMA");
    if r.key.stockUom == Some("MT") {
      assert Lower("MT") == "mt";
      assert OccursAt(Lower("MT"), "mt", 0);
      assert !Contains(Lower("MT"), "mt2");
    }
    if r.key.stockUom == Some("mt2") || r.key.stockUom == Some("MT2") {
      assert Lower(r.key.stockUom.value) == "mt2";
      assert OccursAt(Lower(r.key.stockUom.value), "mt2", 0);
    }
  }

  /** The join condition `b.stock_adi = r.stock_adi`, restricted to the
      touched names; a NULL name joins nothing. */
  predicate Joins(b: MapRow, r: Balance, names: set<string>) {
    b.stockAdi.Some? && r.key.stockAdi == b.stockAdi && b.stockAdi.value in names
  }

  /** The row the insert builds from a mapping row and a balance row. */
  function VariantOf(b: MapRow, r: Balance, stock: Option<real>): (x: VariantRow)
    ensures x.bomMaterialName == b.bomMaterialName && x.stockAdi == r.key.stockAdi && x.currentStock == stock
  {
    VariantRow(b.bomMaterialName, b.bomUom, b.bomType, r.key.stockAdi, r.key.stockUom, r.key.warehouse, stock)
  }

  /** The rows the refresh inserts for one mapping row: one per joined
      balance row; the statement raises when any joined row's stock does. */
  function VariantsFor(b: MapRow, rs: seq<Balance>, names: set<string>): (v: Result<seq<VariantRow>, SyncError>)
    ensures v.Err? <==> exists r :: r in rs && Joins(b, r, names) && VariantStock(b, r).Err?
    ensures v.Ok? ==> forall x :: x in v.value <==>
      exists r :: r in rs && Joins(b, r, names) && VariantStock(b, r).Ok? && x == VariantOf(b, r, VariantStock(b, r).value)
  {
    if rs == [] then Ok([])
    else
      var init := VariantsFor(b, rs[..|rs| - 1], names);
      var r := rs[|rs| - 1];
      assert rs == rs[..|rs| - 1] + [r];
      if init.Err? then init
      else if !Joins(b, r, names) then init
      else
        var stock := VariantStock(b, r);
        if stock.Err? then Err(stock.error)
        else Ok(init.value + [VariantOf(b, r, stock.value)])
  }

  /** The `INSERT ... SELECT` of the join of the map with the balances. */
  function VariantInserts(mapping: seq<MapRow>, rs: seq<Balance>, names: set<string>): (v: Result<seq<VariantRow>, SyncError>)
    ensures v.Err? <==> exists b, r :: b in mapping && r in rs && Joins(b, r, names) && VariantStock(b, r).Err?
    ensures v.Ok? ==> forall x :: x in v.value <==>
      exists b, r :: b in mapping && r in rs && Joins(b, r, names) && VariantStock(b, r).Ok?
        && x == VariantOf(b, r, VariantStock(b, r).value)
  {
    if mapping == [] then Ok([])
    else
      var init := VariantInserts(mapping[..|mapping| - 1], rs, names);
      if init.Err? then init
      else
        var more := VariantsFor(mapping[|mapping| - 1], rs, names);
        if more.Err? then more else Ok(init.value + more.value)
  }

  predicate NamedIn(x: VariantRow, names: set<string>) {
    x.stockAdi.Some? && x.stockAdi.value in names
  }

  /** `DELETE ... WHERE stock_adi = ANY(names)` (a NULL name is kept). */
  function KeptVariants(vs: seq<VariantRow>, names: set<string>): (kept: seq<VariantRow>)
    ensures forall x :: x in kept <==> x in vs && !NamedIn(x, names)
  {
    if vs == [] then []
    else
      var init := KeptVariants(vs[..|vs| - 1], names);
      var x := vs[|vs| - 1];
      assert vs == vs[..|vs| - 1] + [x];
      if NamedIn(x, names) then init else init + [x]
  }

  /** The stock names the new non-seat movements touch (`if r and r[0]`). */
  function TouchedNames(cs: seq<StockMovement>): (names: set<string>)
    ensures forall n :: n in names <==> n != "" && exists m :: m in cs && m.materialName == Some(n)
  {
    set m | m in cs && m.materialName.Some? && m.materialName.value != "" :: m.materialName.value
  }

  /** The refresh replaces exactly the rows of the touched names: a row of
      any other name is kept as it was, and a row of a touched name is
      present afterwards exactly when the join produces it. */
  lemma VariantRefreshScope(vs: seq<VariantRow>, mapping: seq<MapRow>, rs: seq<Balance>, names: set<string>, x: VariantRow)
    requires VariantInserts(mapping, rs, names).Ok?
    ensures !NamedIn(x, names) ==> (x in KeptVariants(vs, names) + VariantInserts(mapping, rs, names).value <==> x in vs)
    ensures NamedIn(x, names) ==>
      (x in KeptVariants(vs, names) + VariantInserts(mapping, rs, names).value <==>
       exists b, r :: b in mapping && r in rs && Joins(b, r, names) && VariantStock(b, r).Ok?
         && x == VariantOf(b, r, VariantStock(b, r).value))
  {
    var ins := VariantInserts(mapping, rs, names).value;
    if x in ins {
      var b, r :| b in mapping && r in rs && Joins(b, r, names) && VariantStock(b, r).Ok?
        && x == VariantOf(b, r, VariantStock(b, r).value);
      assert NamedIn(x, names);
    }
  }

  /** `::NUMERIC` of a whole number. */
  lemma NumericWhole()
    ensures Numeric("150") == Some(150.0)
  {
    SplitNoSep("150", '.');
    assert "15" == "150"[..2] && "1" == "15"[..1];
    assert DigitsValue("150") == 150;
  }

  /** `::NUMERIC` of a decimal fraction. */
  lemma NumericFraction()
    ensures Numeric("2.5") == Some(2.5)
  {
    assert "2.5" == "2" + ['.'] + "5";
    SplitAt("2", "5", '.');
    SplitNoSep("5", '.');
  }

  /** `::NUMERIC` raises on two dots and on a lone dot. */
  lemma NumericMalformed()
    ensures Numeric("1.2.3").None?
    ensures Numeric(".").None?
  {
    assert "1.2.3" == "1" + ['.'] + "2.3";
    assert "2.3" == "2" + ['.'] + "3";
    SplitAt("1", "2.3", '.');
    SplitAt("2", "3", '.');
    assert "." == "" + ['.'] + "";
    SplitAt("", "", '.');
    SplitNoSep("", '.');
  }

  const VariantStream := "current_stock_by_variant"

  /** `incremental_current_stock_by_variant`. Skipped (False) without either
      table; the first-run rule as for the balances. Its watermark only sees
      non-seat movements. When no touched name is non-empty, only the
      watermark moves. Otherwise the touched names' rows are deleted and
      rebuilt from the map and the balances; if that insert raises, nothing
      is committed. */
  method IncrementalCurrentStockByVariant(db: CoreDb, variantsExist: bool, mapExists: bool,
                                          mapping: seq<MapRow>, movements: seq<StockMovement>, seats: set<string>)
    returns (r: Result<bool, SyncError>)
    modifies db
    ensures db.balances == old(db.balances) && db.uniques == old(db.uniques)
    ensures !(variantsExist && mapExists) ==> r == Ok(false) && db.state == old(db.state) && db.variants == old(db.variants)
    ensures variantsExist && mapExists ==>
      match ResumeFrom(old(db.StateHid(VariantStream)), old(db.variants) != [])
      case None =>
        r == Ok(false) && db.variants == old(db.variants)
        && db.state == old(db.state)[VariantStream := MaxHid(MovementHids(movements))]
      case Some(last) =>
        var cs := Counted(movements, last, seats);
        var maxHid := MaxHid(MovementHids(cs));
        var names := TouchedNames(cs);
        var inserted := VariantInserts(mapping, old(db.balances), names);
        if maxHid <= last then
          r == Ok(false) && db.state == old(db.state) && db.variants == old(db.variants)
        else if names == {} then
          r == Ok(false) && db.variants == old(db.variants) && db.state == old(db.state)[VariantStream := maxHid]
        else if inserted.Err? then
          r == Err(StatementFailed) && db.variants == old(db.variants) && db.state == old(db.state)
        else
          r == Ok(true) && db.variants == KeptVariants(old(db.variants), names) + inserted.value
          && db.state == old(db.state)[VariantStream := maxHid]
  {
    if !variantsExist || !mapExists {
      return Ok(false);
    }
    var stored := db.StateHid(VariantStream);
    var last: int;
    if stored.None? {
      if db.variants != [] {
        db.SetStateHid(VariantStream, MaxHid(MovementHids(movements)));
        return Ok(false);
      }
      last := 0;
    } else {
      last := stored.value;
    }
    var cs := Counted(movements, last, seats);
    var maxHid := MaxHid(MovementHids(cs));
    if maxHid <= last {
      return Ok(false);
    }
    var names := TouchedNames(cs);
    if names == {} {
      db.SetStateHid(VariantStream, maxHid);
      return Ok(false);
    }
    var inserted := VariantInserts(mapping, db.balances, names);
    if inserted.Err? {
      return Err(StatementFailed);
    }
    db.variants := KeptVariants(db.variants, names) + inserted.value;
    db.SetStateHid(VariantStream, maxHid);
    return Ok(true);
  }

  // ---------------------------------------------------------------------------
  // incremental_bom_unique_materials and rebuild_bom_unique_materials
  // ---------------------------------------------------------------------------

  function BomHids(rows: seq<BomRow>): (hs: seq<int>)
    ensures |hs| == |rows| && forall k :: 0 <= k < |rows| ==> hs[k] == rows[k].hId
  {
    seq(|rows|, k requires 0 <= k < |rows| => rows[k].hId)
  }

  /** The BOM rows above a watermark. */
  function BomAbove(rows: seq<BomRow>, last: int): (a: seq<BomRow>)
    ensures forall x :: x in a <==> x in rows && x.hId > last
  {
    if rows == [] then []
    else
      var init := BomAbove(rows[..|rows| - 1], last);
      var x := rows[|rows| - 1];
      assert rows == rows[..|rows| - 1] + [x];
      if x.hId > last then init + [x] else init
  }

  /** A raw row's material, when it has a non-empty name. */
  function Material(row: BomRow): (u: Option<UniqueMaterial>)
    ensures u.Some? <==> row.materialName.Some? && row.materialName.value != ""
    ensures u.Some? ==> u.value.materialName == row.materialName.value
  {
    if row.materialName.Some? && row.materialName.value != "" then
      Some(UniqueMaterial(row.materialName.value, row.materialColor, row.itemNo, row.unitOfMeasure, row.materialCategory))
    else None
  }

  predicate HasName(t: seq<UniqueMaterial>, n: string) {
    exists i :: 0 <= i < |t| && t[i].materialName == n
  }

  predicate UniqueNames(t: seq<UniqueMaterial>) {
    forall i, j :: 0 <= i < j < |t| ==> t[i].materialName != t[j].materialName
  }

  /** `INSERT ... ON CONFLICT (material_name) DO NOTHING` of the rows'
      materials, one after another: a name already present (before, or from
      an earlier row) is skipped. */
  function InsertMaterials(t: seq<UniqueMaterial>, rows: seq<BomRow>): seq<UniqueMaterial> {
    if rows == [] then t
    else
      var before := InsertMaterials(t, rows[..|rows| - 1]);
      var u := Material(rows[|rows| - 1]);
      if u.None? || HasName(before, u.value.materialName) then before else before + [u.value]
  }

  /** The insert-only refresh never changes an existing row, keeps names
      unique, adds only materials of the given rows, and afterwards every
      named row's material name is present. */
  lemma {:induction false} InsertMaterialsSpec(t: seq<UniqueMaterial>, rows: seq<BomRow>)
    ensures t <= InsertMaterials(t, rows)
    ensures UniqueNames(t) ==> UniqueNames(InsertMaterials(t, rows))
    ensures forall i :: |t| <= i < |InsertMaterials(t, rows)| ==>
      exists x :: x in rows && Material(x) == Some(InsertMaterials(t, rows)[i])
    ensures forall x :: x in rows && Material(x).Some? ==> HasName(InsertMaterials(t, rows), Material(x).value.materialName)
    decreases |rows|
  {
    if rows != [] {
      var init := rows[..|rows| - 1];
      var x := rows[|rows| - 1];
      InsertMaterialsSpec(t, init);
      var before := InsertMaterials(t, init);
      assert rows == init + [x];
      var after := InsertMaterials(t, rows);
      if Material(x).Some? && !HasName(before, Material(x).value.materialName) {
        assert after == before + [Material(x).value];
        assert after[|after| - 1].materialName == Material(x).value.materialName;
        forall y | y in rows && Material(y).Some?
          ensures HasName(after, Material(y).value.materialName)
        {
          if y in init {
            var i :| 0 <= i < |before| && before[i].materialName == Material(y).value.materialName;
            assert after[i] == before[i];
          }
        }
      } else {
        assert after == before;
      }
    }
  }

  const UniqueStream := "bom_unique_materials"

  /** `incremental_bom_unique_materials`. Skipped (False) without the table;
      the first-run rule as for the balances, seeded from the raw BOM
      table's `MAX(h_id)`. With raw rows above the watermark, their named
      materials are inserted unless the name exists and the watermark moves
      to the largest id. */
  method IncrementalBomUniqueMaterials(db: CoreDb, tableExists: bool, bomRows: seq<BomRow>)
    returns (changed: bool)
    modifies db
    ensures db.balances == old(db.balances) && db.variants == old(db.variants)
    ensures !tableExists ==> !changed && db.state == old(db.state) && db.uniques == old(db.uniques)
    ensures tableExists ==>
      var hids := BomHids(bomRows);
      match ResumeFrom(old(db.StateHid(UniqueStream)), old(db.uniques) != [])
      case None =>
        !changed && db.uniques == old(db.uniques)
        && db.state == old(db.state)[UniqueStream := MaxHid(hids)]
      case Some(last) =>
        if MaxHid(Above(hids, last)) <= last then
          !changed && db.state == old(db.state) && db.uniques == old(db.uniques)
        else
          changed && db.uniques == InsertMaterials(old(db.uniques), BomAbove(bomRows, last))
          && db.state == old(db.state)[UniqueStream := MaxHid(Above(hids, last))]
  {
    if !tableExists {
      return false;
    }
    var hids := BomHids(bomRows);
    var stored := db.StateHid(UniqueStream);
    var last: int;
    if stored.None? {
      if db.uniques != [] {
        db.SetStateHid(UniqueStream, MaxHid(hids));
        return false;
      }
      last := 0;
    } else {
      last := stored.value;
    }
    var maxHid := MaxHid(Above(hids, last));
    if maxHid <= last {
      return false;
    }
    db.uniques := InsertMaterials(db.uniques, BomAbove(bomRows, last));
    db.SetStateHid(UniqueStream, maxHid);
    return true;
  }

  /** `ORDER BY transaction_date DESC, h_id DESC`: `a` comes first. */
  predicate Later(a: BomRow, b: BomRow) {
    Before(b.transactionDate, a.transactionDate) || (a.transactionDate == b.transactionDate && a.hId > b.hId)
  }

  function IndexOfName(l: seq<BomRow>, n: string): (i: int)
    ensures -1 <= i < |l|
    ensures i >= 0 ==> l[i].materialName == Some(n)
    ensures i < 0 ==> forall k :: 0 <= k < |l| ==> l[k].materialName != Some(n)
  {
    if l == [] then -1
    else if l[|l| - 1].materialName == Some(n) then |l| - 1
    else IndexOfName(l[..|l| - 1], n)
  }

  /** `SELECT DISTINCT ON (material_name) ... ORDER BY material_name,
      transaction_date DESC, h_id DESC`: per non-empty name, the latest row
      (the first seen among rows that tie). */
  function LatestPerName(rows: seq<BomRow>): seq<BomRow> {
    if rows == [] then []
    else
      var l := LatestPerName(rows[..|rows| - 1]);
      var x := rows[|rows| - 1];
      if Material(x).None? then l
      else
        var i := IndexOfName(l, x.materialName.value);
        if i < 0 then l + [x]
        else if Later(x, l[i]) then l[i := x]
        else l
  }

  predicate DistinctNames(l: seq<BomRow>) {
    forall i, j :: 0 <= i < j < |l| ==> l[i].materialName != l[j].materialName
  }

  /** Some kept row has `x`'s name and is not older than `x`. */
  predicate Covered(x: BomRow, l: seq<BomRow>) {
    exists k :: 0 <= k < |l| && l[k].materialName == x.materialName && !Later(x, l[k])
  }

  /** The rebuild keeps one row per non-empty name, each a row of the input,
      and no row of that name is later than the one kept. */
  lemma {:induction false} LatestPerNameSpec(rows: seq<BomRow>)
    ensures DistinctNames(LatestPerName(rows))
    ensures forall e :: e in LatestPerName(rows) ==> e in rows && Material(e).Some?
    ensures forall x :: x in rows && Material(x).Some? ==> Covered(x, LatestPerName(rows))
    decreases |rows|
  {
    if rows != [] {
      var init := rows[..|rows| - 1];
      var x := rows[|rows| - 1];
      LatestPerNameSpec(init);
      assert rows == init + [x];
      if Material(x).Some? {
        var l := LatestPerName(init);
        var i := IndexOfName(l, x.materialName.value);
        if i < 0 {
          LatestAppendCovers(init, l, x);
        } else if Later(x, l[i]) {
          LatestReplaceCovers(init, l, x, i);
        }
      }
    }
  }

  lemma LatestAppendCovers(init: seq<BomRow>, l: seq<BomRow>, x: BomRow)
    requires forall y :: y in init && Material(y).Some? ==> Covered(y, l)
    ensures forall y :: y in init + [x] && Material(y).Some? ==> Covered(y, l + [x])
  {
    var after := l + [x];
    forall y | y in init + [x] && Material(y).Some?
      ensures Covered(y, after)
    {
      if y == x {
        assert after[|l|] == x;
      } else {
        assert y in init;
        var k :| 0 <= k < |l| && l[k].materialName == y.materialName && !Later(y, l[k]);
        assert after[k] == l[k];
      }
    }
  }

  lemma LatestReplaceCovers(init: seq<BomRow>, l: seq<BomRow>, x: BomRow, i: int)
    requires 0 <= i < |l| && l[i].materialName == x.materialName && Later(x, l[i])
    requires forall y :: y in init && Material(y).Some? ==> Covered(y, l)
    ensures forall y :: y in init + [x] && Material(y).Some? ==> Covered(y, l[i := x])
  {
    var after := l[i := x];
    forall y | y in init + [x] && Material(y).Some?
      ensures Covered(y, after)
    {
      if y == x {
        assert after[i] == x;
      } else {
        assert y in init;
        var k :| 0 <= k < |l| && l[k].materialName == y.materialName && !Later(y, l[k]);
        if k == i {
          LaterTrans(y, x, l[i]);
        }
        assert after[k].materialName == y.materialName && !Later(y, after[k]);
      }
    }
  }

  /** If `y` is not later than `e` and `x` is later than `e`, `y` is not later
      than `x`. */
  lemma LaterTrans(y: BomRow, x: BomRow, e: BomRow)
    requires !Later(y, e) && Later(x, e)
    ensures !Later(y, x)
  {
  }

  function Projected(l: seq<BomRow>): (u: seq<UniqueMaterial>)
    requires forall e :: e in l ==> Material(e).Some?
    ensures |u| == |l| && forall k :: 0 <= k < |l| ==> Some(u[k]) == Material(l[k])
  {
    seq(|l|, k requires 0 <= k < |l| => Material(l[k]).value)
  }

  /** `rebuild_bom_unique_materials`: the table is replaced by the latest row
      of every name and the watermark set to the raw table's `MAX(h_id)`. */
  method RebuildBomUniqueMaterials(db: CoreDb, bomRows: seq<BomRow>)
    modifies db
    ensures db.balances == old(db.balances) && db.variants == old(db.variants)
    ensures forall e :: e in LatestPerName(bomRows) ==> Material(e).Some?
    ensures db.uniques == Projected(LatestPerName(bomRows))
    ensures db.state == old(db.state)[UniqueStream := MaxHid(BomHids(bomRows))]
  {
    LatestPerNameSpec(bomRows);
    db.uniques := Projected(LatestPerName(bomRows));
    db.SetStateHid(UniqueStream, MaxHid(BomHids(bomRows)));
  }
}
