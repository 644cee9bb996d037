/** The rows the sync engine moves: what the Firebird queries return and what
    the destination tables hold. Nullable columns are `Option`s. */
module Records {
  import opened Wrappers
  import opened Dates

  /** A column of a row the engine passes through without looking inside
      (open orders, stock master). */
  datatype Cell = Null | Int(i: int) | Num(r: real) | Str(s: string) | Day(d: Date)

  /** A `raw_bom_consumption` row: the ten columns the backup copies. Rows
      loaded from Firebird carry no colour (`material_color` is not in the
      insert). */
  datatype BomRow = BomRow(
    hId: int, transactionDate: Date, companyCode: Option<string>, documentType: Option<string>,
    materialCategory: Option<string>, materialName: Option<string>, unitOfMeasure: Option<string>,
    quantity: Option<real>, itemNo: Option<string>, materialColor: Option<string>)

  /** A stock movement header: `H_ID, TARIH, TIPI, DURUM, FIRMA, REF_HID`. */
  datatype StockHeader = StockHeader(
    hId: int, date: Date, tipi: Option<string>, durum: Option<string>,
    firma: Option<string>, refHid: Option<int>)

  /** A stock movement line: `HS_ID, H_ID, URUN_TURU, URUN_KODU, BIRIM,
      TOPLAM_MIKTAR, CAT, ITEMNO`. */
  datatype StockLine = StockLine(
    hsId: int, hId: int, urunTuru: Option<string>, urunKodu: Option<string>,
    birim: Option<string>, toplamMiktar: Option<real>, cat: Option<string>, itemNo: Option<string>)

  /** A `raw_stock_movements` row (its thirteen inserted columns). */
  datatype StockMovement = StockMovement(
    hId: int, refHid: Option<int>, hsId: int, transactionDate: Date, companyCode: Option<string>,
    documentType: string, movementStatus: string, materialName: Option<string>,
    materialLabel: Option<string>, materialCategory: Option<string>, itemNo: Option<string>,
    unitOfMeasure: Option<string>, quantity: real)

  /** Python's `str(x)` of a text column: `None` prints as "None". */
  function PyStr(o: Option<string>): (s: string)
    ensures o.Some? ==> s == o.value
  {
    if o.Some? then o.value else "None"
  }

  /** The movement row both stock loaders build from a header id, the header
      and one of its lines; the quantity is `float(toplam_miktar or 0)`. */
  function MovementOf(hId: int, h: StockHeader, l: StockLine): (m: StockMovement)
    ensures m.hId == hId && m.hsId == l.hsId && m.refHid == h.refHid
    ensures m.materialName == l.urunTuru && m.unitOfMeasure == l.birim && m.companyCode == h.firma
    ensures l.toplamMiktar.None? ==> m.quantity == 0.0
    ensures l.toplamMiktar.Some? ==> m.quantity == l.toplamMiktar.value
  {
    StockMovement(hId, h.refHid, l.hsId, h.date, h.firma, PyStr(h.tipi), PyStr(h.durum),
      l.urunTuru, l.urunKodu, l.cat, l.itemNo, l.birim, l.toplamMiktar.GetOr(0.0))
  }

  /** The movements for one header's lines, in the order they were yielded. */
  function MovementsOf(hId: int, h: StockHeader, lines: seq<StockLine>): (ms: seq<StockMovement>)
    ensures |ms| == |lines|
    ensures forall k :: 0 <= k < |lines| ==> ms[k] == MovementOf(hId, h, lines[k])
  {
    seq(|lines|, k requires 0 <= k < |lines| => MovementOf(hId, h, lines[k]))
  }

  /** Why a load raised. */
  datatype SyncError =
    | BackupFailed
    | TruncateFailed
    | DateParseFailed
    | WindowFetchFailed(window: (Date, Date))
    | SourceFetchFailed
    | StatementFailed
}
