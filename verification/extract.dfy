/** Extraction of one bond record from one table row (main.py, the body of
    the loop in `main`). It runs in two stages, as the source does: first
    every raw text is read from the row's attributes and cells (lines
    157-226), then the record is assembled and its numeric fields are
    converted (lines 231-273). Any failure in either stage means no record. */
module Extract {
  import opened Wrappers
  import opened Text
  import opened Dom
  import opened Dates
  import Label
  import Seqs

  /** The style of the blue marker that flags a bond whose conversion price
      may be revised downwards (`repair_flag_style`). */
  const RepairFlagStyle: string := "color:blue"

  /** The tooltip label that precedes the conversion-price-to-book ratio. */
  const CbToPbLabel: string := "（转股价格/每股净资产）："

  /** Yield-to-maturity text for "below -100%", shown for bonds about to
      mature or be redeemed. */
  const ExpireFloorSentinel: string := "<-100"

  /** The value the sentinel is replaced with. */
  const ExpireFloor: real := -100.0

  /** Issue-date text meaning "lists today". */
  const ListsToday: string := "今日上市"

  /** Python's `float()` and `int()` on text, supplied by the caller: a
      number, or `None` where Python raises `ValueError`. */
  datatype Parsers = Parsers(float: string -> Option<real>, integer: string -> Option<int>)

  /** Why a row yields no record. The source turns every one of these into
      the same bare `Exception`; the model keeps the reason. */
  datatype ExtractError =
    | MissingAttribute(name: string)
    | MissingCell(cls: string, index: nat)
    | NoSingleString(cls: string, index: nat)
    | MissingTitle(cls: string, index: nat)
    | MissingMarkerTitle(span: nat)
    | LabelNotFound
    | Unparsable(field: string, text: string)

  /** The outcome of the marker scan over the name cell's spans. */
  datatype RepairMark = RepairMark(flag: bool, remark: string)

  /** The identity attributes of the row (lines 157-164). */
  datatype IdentityTexts = IdentityTexts(
    cbId: Option<string>,
    cbName: Option<string>,
    cbCode: Option<string>,
    stockCode: string,
    market: string,
    stockName: Option<string>,
    price: Option<string>,
    rating: Option<string>)

  /** Price movements, the repair marker and conversion terms (lines 165-186). */
  datatype QuoteTexts = QuoteTexts(
    cbPercent: string,
    mark: RepairMark,
    arbitragePercent: string,
    stockPrice: string,
    stockPercent: string,
    convertStockPrice: string,
    premiumRate: string)

  /** Residual value, listing and the three distances (lines 188-202). */
  datatype TermTexts = TermTexts(
    remainPrice: string,
    remainPriceTax: string,
    isUnlist: Option<string>,
    issueDate: Option<string>,
    dateConvertDistance: string,
    dateRemainDistance: string,
    dateReturnDistance: string)

  /** Scale, valuation, yields and the double-bottom metrics (lines 204-226). */
  datatype ValuationTexts = ValuationTexts(
    remainAmount: Option<string>,
    marketCap: string,
    remainToCap: string,
    pb: string,
    cbToPb: string,
    rateExpire: string,
    rateReturn: string,
    oldStyle: string,
    newStyle: string)

  /** Every text the first stage reads, before any numeric conversion. */
  datatype RawFields = RawFields(
    ident: IdentityTexts,
    quotes: QuoteTexts,
    terms: TermTexts,
    valuation: ValuationTexts)

  /** One bond record, field for field the `item` dictionary of the source.
      `id` is `None` when the run drops it before output. */
  datatype Record = Record(
    id: Option<int>,
    cbId: Option<string>,
    cbCode: Option<string>,
    cbName: Option<string>,
    stockCode: string,
    stockName: Option<string>,
    market: string,
    price: real,
    cbPercent: real,
    stockPrice: real,
    stockPercent: real,
    arbitragePercent: real,
    convertStockPrice: real,
    premiumRate: real,
    pb: real,
    cbToPb: real,
    remainPrice: real,
    remainPriceTax: real,
    isUnlist: Option<string>,
    issueDate: Option<string>,
    dateConvertDistance: string,
    dateRemainDistance: string,
    dateReturnDistance: string,
    remainAmount: real,
    marketCap: int,
    remainToCap: real,
    rateExpire: real,
    rateReturn: string,
    oldStyle: real,
    newStyle: real,
    rating: Option<string>,
    isRepairFlag: string,
    repairFlagRemark: string)

  // ---------------------------------------------------------------------
  // Reading cells

  /** `row.find_all('td', {'class': cls})[i]`. */
  function CellAt(row: Row, cls: string, i: nat): (r: Result<Cell, ExtractError>)
    ensures r.Success? <==> i < |CellsOf(row, cls)|
    ensures r.Success? ==> r.value == CellsOf(row, cls)[i]
  {
    var cells := CellsOf(row, cls);
    if i < |cells| then Success(cells[i]) else Failure(MissingCell(cls, i))
  }

  /** `cell.get_text().strip()`. */
  function TextAt(row: Row, cls: string, i: nat): (r: Result<string, ExtractError>)
    ensures r.Success? <==> i < |CellsOf(row, cls)|
    ensures r.Success? ==> r.value == Strip(CellsOf(row, cls)[i].text)
  {
    var c :- CellAt(row, cls, i);
    Success(Strip(c.text))
  }

  /** `cell.string.strip()`: fails where `.string` is `None`. */
  function StringAt(row: Row, cls: string, i: nat): (r: Result<string, ExtractError>)
    ensures r.Success? <==> i < |CellsOf(row, cls)| && CellsOf(row, cls)[i].singleString
    ensures r.Success? ==> r.value == Strip(CellsOf(row, cls)[i].text)
  {
    var c :- CellAt(row, cls, i);
    if c.singleString then Success(Strip(c.text)) else Failure(NoSingleString(cls, i))
  }

  /** `cell['title'].strip()`: fails where the cell has no title. */
  function TitleAt(row: Row, cls: string, i: nat): (r: Result<string, ExtractError>)
    ensures r.Success? <==> i < |CellsOf(row, cls)| && "title" in CellsOf(row, cls)[i].attrs
    ensures r.Success? ==> r.value == Strip(CellsOf(row, cls)[i].attrs["title"])
  {
    var c :- CellAt(row, cls, i);
    if "title" in c.attrs then Success(Strip(c.attrs["title"])) else Failure(MissingTitle(cls, i))
  }

  // ---------------------------------------------------------------------
  // The repair-flag scan (lines 167-175)

  /** `span.get('style') == repair_flag_style`. */
  predicate IsRepairMarker(s: Span) {
    Get(s.attrs, "style") == Some(RepairFlagStyle)
  }

  /** Span `i` is the first marker among `spans`. */
  predicate FirstMarker(spans: seq<Span>, i: nat) {
    i < |spans| && IsRepairMarker(spans[i]) && forall j :: 0 <= j < i ==> !IsRepairMarker(spans[j])
  }

  /** Scans the spans in order and stops at the first marker, whose
      trimmed title becomes the remark; a marker without a title is an
      error (`None.strip()`). With no marker the flag is off and the remark
      empty. */
  function RepairScan(spans: seq<Span>): (r: Result<RepairMark, ExtractError>)
    ensures (forall j :: 0 <= j < |spans| ==> !IsRepairMarker(spans[j]))
            <==> r == Success(RepairMark(false, ""))
    ensures r.Success? ==> (r.value.flag <==> exists j :: 0 <= j < |spans| && IsRepairMarker(spans[j]))
    ensures r.Success? && r.value.flag ==>
              exists i: nat :: FirstMarker(spans, i) && "title" in spans[i].attrs
                               && r.value.remark == Strip(spans[i].attrs["title"])
    ensures r.Failure? ==>
              exists i: nat :: FirstMarker(spans, i) && "title" !in spans[i].attrs
  {
    match Seqs.FirstWhere(spans, IsRepairMarker)
    case None => Success(RepairMark(false, ""))
    case Some(i) =>
      assert FirstMarker(spans, i);
      match Get(spans[i].attrs, "title")
      case None => Failure(MissingMarkerTitle(i))
      case Some(t) => Success(RepairMark(true, Strip(t)))
  }

  // ---------------------------------------------------------------------
  // Stage one: the raw texts (lines 157-226)

  /** `v` is `t` without its last character, whatever that was (`t[0:-1]`). */
  predicate LastDropped(v: string, t: string) {
    if |t| == 0 then v == [] else |v| + 1 == |t| && v == t[..|v|]
  }

  /** `v` is `t` without its first two characters (`t[2:]`). */
  predicate FirstTwoDropped(v: string, t: string) {
    if |t| <= 2 then v == [] else |v| + 2 == |t| && v == t[2..]
  }

  /** The row has at least `n` cells of class `cls`. */
  predicate HasCells(row: Row, cls: string, n: nat) {
    |CellsOf(row, cls)| >= n
  }

  /** Cell `i` of class `cls` exists and its `.string` is defined. */
  predicate HasSingleString(row: Row, cls: string, i: nat) {
    i < |CellsOf(row, cls)| && CellsOf(row, cls)[i].singleString
  }

  /** Cell `i` of class `cls` exists and carries a title. */
  predicate HasTitle(row: Row, cls: string, i: nat) {
    i < |CellsOf(row, cls)| && "title" in CellsOf(row, cls)[i].attrs
  }

  /** The identity attributes: only the combined stock code is required,
      since it is sliced; the others may be absent. */
  function ReadIdentity(row: Row): (r: Result<IdentityTexts, ExtractError>)
    ensures r.Success? <==> "data-stock_code" in row.attrs
    ensures r.Success? ==>
      var attr := row.attrs["data-stock_code"];
      && r.value.market + r.value.stockCode == attr
      && |r.value.market| == (if |attr| < 2 then |attr| else 2)
    ensures r.Success? ==>
      && r.value.cbId == Get(row.attrs, "data-id")
      && r.value.cbCode == Get(row.attrs, "data-cbcode")
      && r.value.price == Get(row.attrs, "data-cb_price")
    ensures r.Success? ==>
      && r.value.cbName == Get(row.attrs, "data-cb_name")
      && r.value.stockName == Get(row.attrs, "data-stock_name")
      && r.value.rating == Get(row.attrs, "data-rating")
  {
    var cbId := Get(row.attrs, "data-id");
    var cbName := Get(row.attrs, "data-cb_name");
    var cbCode := Get(row.attrs, "data-cbcode");
    var combined :- Need(Get(row.attrs, "data-stock_code"), MissingAttribute("data-stock_code"));
    var stockCode := Drop(combined, 2);
    var market := Take(combined, 2);
    assert market + stockCode == combined by { TakeDropSplit(combined, 2); }
    var stockName := Get(row.attrs, "data-stock_name");
    var price := Get(row.attrs, "data-cb_price");
    var rating := Get(row.attrs, "data-rating");
    Success(IdentityTexts(cbId, cbName, cbCode, stockCode, market, stockName, price, rating))
  }

  /** What `ReadQuotes` needs of a row. */
  predicate QuotesReadable(row: Row) {
    && HasCells(row, "cb_mov2_id", 2)
    && HasCells(row, "cb_name_id", 1)
    && RepairScan(CellsOf(row, "cb_name_id")[0].spans).Success?
    && HasSingleString(row, "stock_price_id", 0)
    && HasCells(row, "cb_mov_id", 1)
    && HasCells(row, "cb_strike_id", 1)
    && HasSingleString(row, "cb_premium_id", 0)
  }

  /** Percent cells lose their last character; the marker scan runs over
      the spans of the name cell. */
  function ReadQuotes(row: Row): (r: Result<QuoteTexts, ExtractError>)
    ensures r.Success? ==> QuotesReadable(row)
    ensures r.Success? ==>
      && LastDropped(r.value.cbPercent, Strip(CellsOf(row, "cb_mov2_id")[0].text))
      && LastDropped(r.value.arbitragePercent, Strip(CellsOf(row, "cb_mov2_id")[1].text))
      && LastDropped(r.value.stockPercent, Strip(CellsOf(row, "cb_mov_id")[0].text))
      && LastDropped(r.value.premiumRate, Strip(CellsOf(row, "cb_premium_id")[0].text))
      && r.value.stockPrice == Strip(CellsOf(row, "stock_price_id")[0].text)
      && r.value.convertStockPrice == Strip(CellsOf(row, "cb_strike_id")[0].text)
    ensures r.Success? ==>
      Success(r.value.mark) == RepairScan(CellsOf(row, "cb_name_id")[0].spans)
  {
    var cbPercent :- TextAt(row, "cb_mov2_id", 0);
    var nameCell :- CellAt(row, "cb_name_id", 0);
    var mark :- RepairScan(nameCell.spans);
    var arbitragePercent :- TextAt(row, "cb_mov2_id", 1);
    var stockPrice :- StringAt(row, "stock_price_id", 0);
    var stockPercent :- TextAt(row, "cb_mov_id", 0);
    var convertStockPrice :- TextAt(row, "cb_strike_id", 0);
    var premiumRate :- StringAt(row, "cb_premium_id", 0);
    Success(QuoteTexts(
      DropLast(cbPercent), mark, DropLast(arbitragePercent), stockPrice,
      DropLast(stockPercent), convertStockPrice, DropLast(premiumRate)))
  }

  /** What `ReadTerms` needs of a row: the date cell only for a listed bond. */
  predicate TermsReadable(row: Row) {
    && HasSingleString(row, "cb_price2_id", 1)
    && HasTitle(row, "cb_price2_id", 1)
    && (Get(row.attrs, "data-unlist") == Some("N") ==> HasCells(row, "bond_date_id", 1))
    && HasSingleString(row, "cb_t_id", 0)
    && HasCells(row, "cb_t_id", 3)
  }

  /** The after-tax residual loses the first two characters of the tooltip;
      the issue date is read only for a listed bond; the distances are kept
      as trimmed text. */
  function ReadTerms(row: Row): (r: Result<TermTexts, ExtractError>)
    ensures r.Success? ==> TermsReadable(row)
    ensures r.Success? ==>
      && r.value.remainPrice == Strip(CellsOf(row, "cb_price2_id")[1].text)
      && FirstTwoDropped(r.value.remainPriceTax, Strip(CellsOf(row, "cb_price2_id")[1].attrs["title"]))
    ensures r.Success? ==>
      && r.value.isUnlist == Get(row.attrs, "data-unlist")
      && (r.value.isUnlist == Some("N") ==> r.value.issueDate == Some(Strip(CellsOf(row, "bond_date_id")[0].text)))
      && (r.value.isUnlist != Some("N") ==> r.value.issueDate.None?)
    ensures r.Success? ==>
      && r.value.dateConvertDistance == Strip(CellsOf(row, "cb_t_id")[0].text)
      && r.value.dateRemainDistance == Strip(CellsOf(row, "cb_t_id")[1].text)
      && r.value.dateReturnDistance == Strip(CellsOf(row, "cb_t_id")[2].text)
  {
    var remainPrice :- StringAt(row, "cb_price2_id", 1);
    var remainPriceTax :- TitleAt(row, "cb_price2_id", 1);
    var isUnlist := Get(row.attrs, "data-unlist");
    var issueDate :- if isUnlist == Some("N") then
                       var t :- TextAt(row, "bond_date_id", 0); Success(Some(t))
                     else Success(None);
    var dateConvertDistance :- StringAt(row, "cb_t_id", 0);
    var dateRemainDistance :- TextAt(row, "cb_t_id", 1);
    var dateReturnDistance :- TextAt(row, "cb_t_id", 2);
    Success(TermTexts(
      remainPrice, Drop(remainPriceTax, 2), isUnlist, issueDate,
      dateConvertDistance, dateRemainDistance, dateReturnDistance))
  }

  /** The converse of `ReadTerms`'s first postcondition: a row that has
      what it needs is read. */
  lemma ReadTermsTotal(row: Row)
    ensures TermsReadable(row) ==> ReadTerms(row).Success?
  {
  }

  /** What `ReadValuation` needs of a row, including the label in the
      price-to-book tooltip. */
  predicate ValuationReadable(row: Row) {
    && HasCells(row, "market_cap", 1)
    && HasCells(row, "cb_to_share", 1)
    && HasTitle(row, "cb_elasticity_id", 0)
    && Label.AfterLabel(Strip(CellsOf(row, "cb_elasticity_id")[0].attrs["title"]), CbToPbLabel).Some?
    && HasCells(row, "cb_BT_id", 1)
    && HasCells(row, "cb_AT_id", 5)
    && HasCells(row, "cb_wa_id", 2)
  }

  /** The converse of `ReadQuotes`'s first postcondition: a row that has
      what it needs is read. */
  lemma ReadQuotesTotal(row: Row)
    ensures QuotesReadable(row) ==> ReadQuotes(row).Success?
  {
  }

  /** The ratio to book value comes from the tooltip, not from the visible
      text; the yields lose their last character. */
  function ReadValuation(row: Row): (r: Result<ValuationTexts, ExtractError>)
    ensures r.Success? ==> ValuationReadable(row)
    ensures r.Success? ==>
      && LastDropped(r.value.remainToCap, Strip(CellsOf(row, "cb_to_share")[0].text))
      && LastDropped(r.value.rateExpire, Strip(CellsOf(row, "cb_BT_id")[0].text))
      && LastDropped(r.value.rateReturn, Strip(CellsOf(row, "cb_AT_id")[4].text))
    ensures r.Success? ==>
      && r.value.pb == Strip(CellsOf(row, "cb_elasticity_id")[0].text)
      && Some(r.value.cbToPb) == Label.AfterLabel(Strip(CellsOf(row, "cb_elasticity_id")[0].attrs["title"]), CbToPbLabel)
    ensures r.Success? ==> r.value.remainAmount == Get(row.attrs, "data-remain_amount")
    ensures r.Success? ==>
      && r.value.marketCap == Strip(CellsOf(row, "market_cap")[0].text)
      && r.value.oldStyle == Strip(CellsOf(row, "cb_wa_id")[0].text)
      && r.value.newStyle == Strip(CellsOf(row, "cb_wa_id")[1].text)
  {
    var remainAmount := Get(row.attrs, "data-remain_amount");
    var marketCap :- TextAt(row, "market_cap", 0);
    var remainToCap :- TextAt(row, "cb_to_share", 0);
    var pbCell :- CellAt(row, "cb_elasticity_id", 0);
    var pb := Strip(pbCell.text);
    var pbTitle :- TitleAt(row, "cb_elasticity_id", 0);
    var cbToPb :- Need(Label.AfterLabel(pbTitle, CbToPbLabel), LabelNotFound);
    var rateExpire :- TextAt(row, "cb_BT_id", 0);
    var rateReturn :- TextAt(row, "cb_AT_id", 4);
    var oldStyle :- TextAt(row, "cb_wa_id", 0);
    var newStyle :- TextAt(row, "cb_wa_id", 1);
    Success(ValuationTexts(
      remainAmount, marketCap, DropLast(remainToCap), pb, cbToPb,
      DropLast(rateExpire), DropLast(rateReturn), oldStyle, newStyle))
  }

  /** The converse of `ReadValuation`'s first postcondition: a row that has
      what it needs is read. */
  lemma ReadValuationTotal(row: Row)
    ensures ValuationReadable(row) ==> ReadValuation(row).Success?
  {
  }

  /** What stage one needs of a row, stated independently of the order in
      which the source reads it. */
  predicate Readable(row: Row) {
    "data-stock_code" in row.attrs && QuotesReadable(row) && TermsReadable(row) && ValuationReadable(row)
  }

  /** Stage one of the loop body, in the source's order: it yields the raw
      texts exactly when the row is readable. */
  function ReadRow(row: Row): (r: Result<RawFields, ExtractError>)
    ensures r.Success? <==> Readable(row)
    ensures r.Success? ==>
      && Success(r.value.ident) == ReadIdentity(row)
      && Success(r.value.quotes) == ReadQuotes(row)
      && Success(r.value.terms) == ReadTerms(row)
      && Success(r.value.valuation) == ReadValuation(row)
  {
    ReadQuotesTotal(row);
    ReadTermsTotal(row);
    ReadValuationTotal(row);
    var ident :- ReadIdentity(row);
    var quotes :- ReadQuotes(row);
    var terms :- ReadTerms(row);
    var valuation :- ReadValuation(row);
    Success(RawFields(ident, quotes, terms, valuation))
  }

  // ---------------------------------------------------------------------
  // Stage two: the record (lines 231-273)

  /** `float(s)`, naming the field on failure. */
  function ParseReal(parse: Parsers, field: string, s: string): (r: Result<real, ExtractError>)
    ensures r.Success? <==> parse.float(s).Some?
    ensures r.Success? ==> parse.float(s) == Some(r.value)
  {
    match parse.float(s)
    case Some(x) => Success(x)
    case None => Failure(Unparsable(field, s))
  }

  /** `float(row.get(name))`: an absent attribute is a `TypeError`. */
  function ParseAttr(parse: Parsers, name: string, o: Option<string>): (r: Result<real, ExtractError>)
    ensures r.Success? <==> o.Some? && parse.float(o.value).Some?
    ensures r.Success? ==> parse.float(o.value) == Some(r.value)
  {
    var s :- Need(o, MissingAttribute(name));
    ParseReal(parse, name, s)
  }

  /** Python's `str(b)` for a boolean. */
  function BoolText(b: bool): (s: string)
    ensures s == "True" || s == "False"
    ensures b <==> s == "True"
  {
    if b then "True" else "False"
  }

  /** The yield to maturity: the floor when the sentinel occurs anywhere in
      the text, whatever else the text says; the parsed number otherwise. */
  function RateExpire(parse: Parsers, s: string): (r: Result<real, ExtractError>)
    ensures Contains(s, ExpireFloorSentinel) ==> r == Success(ExpireFloor)
    ensures !Contains(s, ExpireFloorSentinel) ==>
              (r.Success? <==> parse.float(s).Some?) && (r.Success? ==> parse.float(s) == Some(r.value))
  {
    if Contains(s, ExpireFloorSentinel) then Success(ExpireFloor) else ParseReal(parse, "rate_expire", s)
  }

  /** The issue date stored in the record: absent unless the bond is
      listed; the run date for a bond listing today; the cell text
      otherwise. */
  function IssueDate(isUnlist: Option<string>, text: Option<string>, runDate: Date): (r: Option<string>)
    requires runDate.Valid()
    requires isUnlist == Some("N") <==> text.Some?
    ensures isUnlist != Some("N") ==> r.None?
    ensures isUnlist == Some("N") && text.value == ListsToday ==> r == Some(FormatYYMMDD(runDate))
    ensures isUnlist == Some("N") && text.value != ListsToday ==> r == text
  {
    match text
    case None => None
    case Some(t) => if t == ListsToday then Some(FormatYYMMDD(runDate)) else Some(t)
  }

  /** Every conversion stage two performs succeeds; the yield to maturity
      needs none when it carries the sentinel. */
  predicate Convertible(raw: RawFields, parse: Parsers) {
    var q, t, v := raw.quotes, raw.terms, raw.valuation;
    && raw.ident.price.Some? && parse.float(raw.ident.price.value).Some?
    && parse.float(q.cbPercent).Some?
    && parse.float(q.stockPrice).Some?
    && parse.float(q.stockPercent).Some?
    && parse.float(q.arbitragePercent).Some?
    && parse.float(q.convertStockPrice).Some?
    && parse.float(q.premiumRate).Some?
    && parse.float(v.pb).Some?
    && parse.float(v.cbToPb).Some?
    && parse.float(t.remainPrice).Some?
    && parse.float(t.remainPriceTax).Some?
    && v.remainAmount.Some? && parse.float(v.remainAmount.value).Some?
    && parse.integer(RemoveChar(v.marketCap, ',')).Some?
    && parse.float(v.remainToCap).Some?
    && (Contains(v.rateExpire, ExpireFloorSentinel) || parse.float(v.rateExpire).Some?)
    && parse.float(RemoveChar(v.oldStyle, ',')).Some?
    && parse.float(RemoveChar(v.newStyle, ',')).Some?
  }

  /** Stage two: the `item` dictionary, converting in the source's order.
      It yields a record exactly when every conversion succeeds; the texts
      that are not converted are carried over unchanged. */
  function BuildRecord(raw: RawFields, runDate: Date, id: Option<int>, parse: Parsers): (r: Result<Record, ExtractError>)
    requires runDate.Valid()
    requires raw.terms.isUnlist == Some("N") <==> raw.terms.issueDate.Some?
    ensures r.Success? <==> Convertible(raw, parse)
    ensures r.Success? ==>
      && r.value.id == id
      && r.value.cbId == raw.ident.cbId && r.value.cbCode == raw.ident.cbCode
      && r.value.cbName == raw.ident.cbName && r.value.stockName == raw.ident.stockName
      && r.value.stockCode == raw.ident.stockCode && r.value.market == raw.ident.market
      && r.value.rating == raw.ident.rating && r.value.isUnlist == raw.terms.isUnlist
      && r.value.dateConvertDistance == raw.terms.dateConvertDistance
      && r.value.dateRemainDistance == raw.terms.dateRemainDistance
      && r.value.dateReturnDistance == raw.terms.dateReturnDistance
      && r.value.rateReturn == raw.valuation.rateReturn
    ensures r.Success? ==>
      && parse.float(raw.ident.price.value) == Some(r.value.price)
      && parse.float(raw.valuation.cbToPb) == Some(r.value.cbToPb)
      && parse.float(raw.quotes.premiumRate) == Some(r.value.premiumRate)
      && parse.float(raw.valuation.remainToCap) == Some(r.value.remainToCap)
      && parse.integer(RemoveChar(raw.valuation.marketCap, ',')) == Some(r.value.marketCap)
      && parse.float(RemoveChar(raw.valuation.oldStyle, ',')) == Some(r.value.oldStyle)
      && parse.float(RemoveChar(raw.valuation.newStyle, ',')) == Some(r.value.newStyle)
    ensures r.Success? ==>
      && parse.float(raw.quotes.cbPercent) == Some(r.value.cbPercent)
      && parse.float(raw.quotes.stockPrice) == Some(r.value.stockPrice)
      && parse.float(raw.quotes.stockPercent) == Some(r.value.stockPercent)
      && parse.float(raw.quotes.arbitragePercent) == Some(r.value.arbitragePercent)
      && parse.float(raw.quotes.convertStockPrice) == Some(r.value.convertStockPrice)
      && parse.float(raw.valuation.pb) == Some(r.value.pb)
    ensures r.Success? ==>
      && parse.float(raw.terms.remainPrice) == Some(r.value.remainPrice)
      && parse.float(raw.terms.remainPriceTax) == Some(r.value.remainPriceTax)
      && parse.float(raw.valuation.remainAmount.value) == Some(r.value.remainAmount)
    ensures r.Success? ==>
      && (Contains(raw.valuation.rateExpire, ExpireFloorSentinel) ==> r.value.rateExpire == ExpireFloor)
      && (!Contains(raw.valuation.rateExpire, ExpireFloorSentinel) ==>
            parse.float(raw.valuation.rateExpire) == Some(r.value.rateExpire))
    ensures r.Success? ==>
      && (r.value.isRepairFlag == "True" <==> raw.quotes.mark.flag)
      && (r.value.isRepairFlag == "True" || r.value.isRepairFlag == "False")
      && r.value.repairFlagRemark == raw.quotes.mark.remark
    ensures r.Success? ==>
      r.value.issueDate == IssueDate(raw.terms.isUnlist, raw.terms.issueDate, runDate)
  {
    var q, t, v := raw.quotes, raw.terms, raw.valuation;
    var price :- ParseAttr(parse, "data-cb_price", raw.ident.price);
    var cbPercent :- ParseReal(parse, "cb_percent", q.cbPercent);
    var stockPrice :- ParseReal(parse, "stock_price", q.stockPrice);
    var stockPercent :- ParseReal(parse, "stock_percent", q.stockPercent);
    var arbitragePercent :- ParseReal(parse, "arbitrage_percent", q.arbitragePercent);
    var convertStockPrice :- ParseReal(parse, "convert_stock_price", q.convertStockPrice);
    var premiumRate :- ParseReal(parse, "premium_rate", q.premiumRate);
    var pb :- ParseReal(parse, "pb", v.pb);
    var cbToPb :- ParseReal(parse, "cb_to_pb", v.cbToPb);
    var remainPrice :- ParseReal(parse, "remain_price", t.remainPrice);
    var remainPriceTax :- ParseReal(parse, "remain_price_tax", t.remainPriceTax);
    var remainAmount :- ParseAttr(parse, "data-remain_amount", v.remainAmount);
    var marketCapText := RemoveChar(v.marketCap, ',');
    var marketCap :- Need(parse.integer(marketCapText), Unparsable("market_cap", marketCapText));
    var remainToCap :- ParseReal(parse, "remain_to_cap", v.remainToCap);
    var rateExpire :- RateExpire(parse, v.rateExpire);
    var oldStyle :- ParseReal(parse, "old_style", RemoveChar(v.oldStyle, ','));
    var newStyle :- ParseReal(parse, "new_style", RemoveChar(v.newStyle, ','));
    Success(Record(
      id, raw.ident.cbId, raw.ident.cbCode, raw.ident.cbName, raw.ident.stockCode,
      raw.ident.stockName, raw.ident.market,
      price, cbPercent, stockPrice, stockPercent, arbitragePercent, convertStockPrice,
      premiumRate, pb, cbToPb, remainPrice, remainPriceTax,
      t.isUnlist, IssueDate(t.isUnlist, t.issueDate, runDate),
      t.dateConvertDistance, t.dateRemainDistance, t.dateReturnDistance,
      remainAmount, marketCap, remainToCap, rateExpire, v.rateReturn,
      oldStyle, newStyle, raw.ident.rating, BoolText(q.mark.flag), q.mark.remark))
  }

  /** The whole loop body for one row: no record unless both stages
      succeed. */
  function ExtractRow(row: Row, runDate: Date, id: Option<int>, parse: Parsers): (r: Result<Record, ExtractError>)
    requires runDate.Valid()
    ensures r.Success? <==> Readable(row) && Convertible(ReadRow(row).value, parse)
    ensures r.Success? ==> r.value.id == id
    // the combined stock code splits into market and code, losing nothing
    ensures r.Success? ==>
      r.value.market + r.value.stockCode == row.attrs["data-stock_code"]
  {
    var raw :- ReadRow(row);
    BuildRecord(raw, runDate, id, parse)
  }

  // ---------------------------------------------------------------------
  // Properties of an extracted record, each in terms of the row

  /** The yield to maturity is the floor whenever the trimmed,
      last-character-stripped cell text contains the sentinel, whatever its
      other characters; otherwise it is the parsed number. */
  lemma ExtractRateExpire(row: Row, runDate: Date, id: Option<int>, parse: Parsers)
    requires runDate.Valid()
    requires ExtractRow(row, runDate, id, parse).Success?
    ensures var rec := ExtractRow(row, runDate, id, parse).value;
      var bt := DropLast(Strip(CellsOf(row, "cb_BT_id")[0].text));
      && (Contains(bt, ExpireFloorSentinel) ==> rec.rateExpire == ExpireFloor)
      && (!Contains(bt, ExpireFloorSentinel) ==> parse.float(bt) == Some(rec.rateExpire))
  {
    var raw := ReadRow(row).value;
    RawRateExpire(row);
    assert Success(ExtractRow(row, runDate, id, parse).value) == BuildRecord(raw, runDate, id, parse);
  }

  /** Stage one keeps the yield cell's trimmed text minus its last
      character. */
  lemma RawRateExpire(row: Row)
    requires ReadRow(row).Success?
    ensures ReadRow(row).value.valuation.rateExpire == DropLast(Strip(CellsOf(row, "cb_BT_id")[0].text))
  {
    assert Success(ReadRow(row).value.valuation) == ReadValuation(row);
  }

  /** The identity fields are the row's attributes, absent where the row
      lacks them. */
  lemma ExtractIdentity(row: Row, runDate: Date, id: Option<int>, parse: Parsers)
    requires runDate.Valid()
    requires ExtractRow(row, runDate, id, parse).Success?
    ensures var rec := ExtractRow(row, runDate, id, parse).value;
      && rec.cbId == Get(row.attrs, "data-id")
      && rec.cbCode == Get(row.attrs, "data-cbcode")
      && rec.cbName == Get(row.attrs, "data-cb_name")
      && rec.stockName == Get(row.attrs, "data-stock_name")
      && rec.rating == Get(row.attrs, "data-rating")
  {
    var raw := ReadRow(row).value;
    assert Success(raw.ident) == ReadIdentity(row);
    assert Success(ExtractRow(row, runDate, id, parse).value) == BuildRecord(raw, runDate, id, parse);
  }

  /** The three percentages are the parsed cell texts without their last
      character (the percent sign), and the after-tax residual is the
      parsed tooltip without its first two characters. */
  lemma ExtractPercents(row: Row, runDate: Date, id: Option<int>, parse: Parsers)
    requires runDate.Valid()
    requires ExtractRow(row, runDate, id, parse).Success?
    ensures var rec := ExtractRow(row, runDate, id, parse).value;
      && parse.float(DropLast(Strip(CellsOf(row, "cb_mov2_id")[0].text))) == Some(rec.cbPercent)
      && parse.float(DropLast(Strip(CellsOf(row, "cb_mov2_id")[1].text))) == Some(rec.arbitragePercent)
      && parse.float(DropLast(Strip(CellsOf(row, "cb_mov_id")[0].text))) == Some(rec.stockPercent)
      && parse.float(Drop(Strip(CellsOf(row, "cb_price2_id")[1].attrs["title"]), 2)) == Some(rec.remainPriceTax)
  {
    var raw := ReadRow(row).value;
    RawPercents(row);
    RawRemainPriceTax(row);
    assert Success(ExtractRow(row, runDate, id, parse).value) == BuildRecord(raw, runDate, id, parse);
  }

  /** Stage one keeps the percent cells' trimmed texts minus their last
      character. */
  lemma RawPercents(row: Row)
    requires ReadRow(row).Success?
    ensures var q := ReadRow(row).value.quotes;
      && q.cbPercent == DropLast(Strip(CellsOf(row, "cb_mov2_id")[0].text))
      && q.arbitragePercent == DropLast(Strip(CellsOf(row, "cb_mov2_id")[1].text))
      && q.stockPercent == DropLast(Strip(CellsOf(row, "cb_mov_id")[0].text))
  {
    var q := ReadRow(row).value.quotes;
    assert Success(q) == ReadQuotes(row);
    LastDroppedIsDropLast(q.cbPercent, Strip(CellsOf(row, "cb_mov2_id")[0].text));
    LastDroppedIsDropLast(q.arbitragePercent, Strip(CellsOf(row, "cb_mov2_id")[1].text));
    LastDroppedIsDropLast(q.stockPercent, Strip(CellsOf(row, "cb_mov_id")[0].text));
  }

  /** Stage one keeps the residual tooltip minus its first two characters. */
  lemma RawRemainPriceTax(row: Row)
    requires ReadRow(row).Success?
    ensures ReadRow(row).value.terms.remainPriceTax == Drop(Strip(CellsOf(row, "cb_price2_id")[1].attrs["title"]), 2)
  {
    var t := ReadRow(row).value.terms;
    assert Success(t) == ReadTerms(row);
    FirstTwoDroppedIsDrop(t.remainPriceTax, Strip(CellsOf(row, "cb_price2_id")[1].attrs["title"]));
  }

  /** `LastDropped` characterises `DropLast`. */
  lemma LastDroppedIsDropLast(v: string, t: string)
    requires LastDropped(v, t)
    ensures v == DropLast(t)
  {
  }

  /** `FirstTwoDropped` characterises `Drop(_, 2)`. */
  lemma FirstTwoDroppedIsDrop(v: string, t: string)
    requires FirstTwoDropped(v, t)
    ensures v == Drop(t, 2)
  {
  }

  /** The issue date is absent unless the bond is listed; for a listed bond
      it is the run date when the cell says "lists today" and the trimmed
      cell text otherwise. */
  lemma ExtractIssueDate(row: Row, runDate: Date, id: Option<int>, parse: Parsers)
    requires runDate.Valid()
    requires ExtractRow(row, runDate, id, parse).Success?
    ensures var rec := ExtractRow(row, runDate, id, parse).value;
      var listed := Get(row.attrs, "data-unlist") == Some("N");
      && (!listed ==> rec.issueDate.None?)
      && (listed ==>
            var t := Strip(CellsOf(row, "bond_date_id")[0].text);
            rec.issueDate == Some(if t == ListsToday then FormatYYMMDD(runDate) else t))
  {
  }

  /** The flag is the string "True" exactly when some span of the name cell
      carries the marker style, and "False" otherwise, with an empty remark;
      with the flag on, the remark is the trimmed title of the first
      marker. */
  lemma ExtractRepairFlag(row: Row, runDate: Date, id: Option<int>, parse: Parsers)
    requires runDate.Valid()
    requires ExtractRow(row, runDate, id, parse).Success?
    ensures var rec := ExtractRow(row, runDate, id, parse).value;
      var spans := CellsOf(row, "cb_name_id")[0].spans;
      && (rec.isRepairFlag == "True" <==> exists j :: 0 <= j < |spans| && IsRepairMarker(spans[j]))
      && (rec.isRepairFlag == "True" || rec.isRepairFlag == "False")
      && (rec.isRepairFlag == "False" ==> rec.repairFlagRemark == "")
      && (rec.isRepairFlag == "True" ==>
            exists i: nat :: FirstMarker(spans, i) && "title" in spans[i].attrs
                             && rec.repairFlagRemark == Strip(spans[i].attrs["title"]))
  {
    var raw := ReadRow(row).value;
    var rec := ExtractRow(row, runDate, id, parse).value;
    assert Success(rec) == BuildRecord(raw, runDate, id, parse);
    assert rec.isRepairFlag == "True" <==> raw.quotes.mark.flag;
    assert rec.repairFlagRemark == raw.quotes.mark.remark;
    RepairScanOutcome(CellsOf(row, "cb_name_id")[0].spans, raw.quotes.mark);
  }

  /** What a successful scan says, in terms of its outcome alone. */
  lemma RepairScanOutcome(spans: seq<Span>, m: RepairMark)
    requires RepairScan(spans) == Success(m)
    ensures m.flag <==> exists j :: 0 <= j < |spans| && IsRepairMarker(spans[j])
    ensures !m.flag ==> m.remark == ""
    ensures m.flag ==> exists i: nat :: FirstMarker(spans, i) && "title" in spans[i].attrs
                                        && m.remark == Strip(spans[i].attrs["title"])
  {
  }

  /** The ratio to book value is the number after the first matching
      tooltip label; a tooltip without it yields no record. */
  lemma ExtractCbToPb(row: Row, runDate: Date, id: Option<int>, parse: Parsers)
    requires runDate.Valid()
    ensures HasTitle(row, "cb_elasticity_id", 0) &&
            Label.AfterLabel(Strip(CellsOf(row, "cb_elasticity_id")[0].attrs["title"]), CbToPbLabel).None?
            ==> ExtractRow(row, runDate, id, parse).Failure?
    ensures ExtractRow(row, runDate, id, parse).Success? ==>
      var tip := Strip(CellsOf(row, "cb_elasticity_id")[0].attrs["title"]);
      && Label.AfterLabel(tip, CbToPbLabel).Some?
      && parse.float(Label.AfterLabel(tip, CbToPbLabel).value)
           == Some(ExtractRow(row, runDate, id, parse).value.cbToPb)
  {
  }
}
