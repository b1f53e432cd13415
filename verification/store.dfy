/** The record as the `item` dictionary the source builds (main.py:231-273)
    and its binding to the columns of the upsert statement
    (`store_database`, main.py:108-113). `df.values.tolist()` hands the
    statement each record's values in the dictionary's key order, while the
    statement names its columns in the order of `rename_map`
    (main.py:28-69). */
module Store {
  import opened Wrappers
  import Extract
  import Sql

  /** A cell of the data frame. */
  datatype Value = Null | Text(s: string) | Number(x: real) | Integer(n: int)

  /** An optional text: Python's `None` or the string. */
  function OptText(o: Option<string>): (v: Value)
    ensures o.None? <==> v == Null
    ensures o.Some? ==> v == Text(o.value)
  {
    match o
    case None => Null
    case Some(s) => Text(s)
  }

  /** The keys of the record, one per column of the stored table. */
  datatype Column =
    | Id | CbId | CbCode | CbName | StockCode | StockName | Market | Price | CbPercent
    | StockPrice | StockPercent | ArbitragePercent | ConvertStockPrice | PremiumRate | Pb
    | CbToPb | RemainPrice | RemainPriceTax | IsUnlist | IssueDate | DateConvertDistance
    | DateRemainDistance | DateReturnDistance | RemainAmount | MarketCap | RemainToCap
    | RateExpire | RateReturn | OldStyle | NewStyle | Rating | IsRepairFlag | RepairFlagRemark

  /** The column's name, as a key of `item` and of `rename_map`. */
  function Name(c: Column): string {
    match c
    case Id => "id"
    case CbId => "cb_id"
    case CbCode => "cb_code"
    case CbName => "cb_name"
    case StockCode => "stock_code"
    case StockName => "stock_name"
    case Market => "market"
    case Price => "price"
    case CbPercent => "cb_percent"
    case StockPrice => "stock_price"
    case StockPercent => "stock_percent"
    case ArbitragePercent => "arbitrage_percent"
    case ConvertStockPrice => "convert_stock_price"
    case PremiumRate => "premium_rate"
    case Pb => "pb"
    case CbToPb => "cb_to_pb"
    case RemainPrice => "remain_price"
    case RemainPriceTax => "remain_price_tax"
    case IsUnlist => "is_unlist"
    case IssueDate => "issue_date"
    case DateConvertDistance => "date_convert_distance"
    case DateRemainDistance => "date_remain_distance"
    case DateReturnDistance => "date_return_distance"
    case RemainAmount => "remain_amount"
    case MarketCap => "market_cap"
    case RemainToCap => "remain_to_cap"
    case RateExpire => "rate_expire"
    case RateReturn => "rate_return"
    case OldStyle => "old_style"
    case NewStyle => "new_style"
    case Rating => "rating"
    case IsRepairFlag => "is_repair_flag"
    case RepairFlagRemark => "repair_flag_remark"
  }

  /** The value of one key of `item` for a record. */
  function Field(rec: Extract.Record, c: Column): Value {
    match c
    case Id => match rec.id { case Some(n) => Integer(n) case None => Null }
    case CbId => OptText(rec.cbId)
    case CbCode => OptText(rec.cbCode)
    case CbName => OptText(rec.cbName)
    case StockCode => Text(rec.stockCode)
    case StockName => OptText(rec.stockName)
    case Market => Text(rec.market)
    case Price => Number(rec.price)
    case CbPercent => Number(rec.cbPercent)
    case StockPrice => Number(rec.stockPrice)
    case StockPercent => Number(rec.stockPercent)
    case ArbitragePercent => Number(rec.arbitragePercent)
    case ConvertStockPrice => Number(rec.convertStockPrice)
    case PremiumRate => Number(rec.premiumRate)
    case Pb => Number(rec.pb)
    case CbToPb => Number(rec.cbToPb)
    case RemainPrice => Number(rec.remainPrice)
    case RemainPriceTax => Number(rec.remainPriceTax)
    case IsUnlist => OptText(rec.isUnlist)
    case IssueDate => OptText(rec.issueDate)
    case DateConvertDistance => Text(rec.dateConvertDistance)
    case DateRemainDistance => Text(rec.dateRemainDistance)
    case DateReturnDistance => Text(rec.dateReturnDistance)
    case RemainAmount => Number(rec.remainAmount)
    case MarketCap => Integer(rec.marketCap)
    case RemainToCap => Number(rec.remainToCap)
    case RateExpire => Number(rec.rateExpire)
    case RateReturn => Text(rec.rateReturn)
    case OldStyle => Number(rec.oldStyle)
    case NewStyle => Number(rec.newStyle)
    case Rating => OptText(rec.rating)
    case IsRepairFlag => Text(rec.isRepairFlag)
    case RepairFlagRemark => Text(rec.repairFlagRemark)
  }

  /** The keys `item` and `rename_map` share, in the same order in both,
      from `market` on. */
  const CommonTail: seq<Column> := [
    Market, Price, CbPercent,
    StockPrice, StockPercent, ArbitragePercent, ConvertStockPrice, PremiumRate, Pb,
    CbToPb, RemainPrice, RemainPriceTax, IsUnlist, IssueDate, DateConvertDistance,
    DateRemainDistance, DateReturnDistance, RemainAmount, MarketCap, RemainToCap,
    RateExpire, RateReturn, OldStyle, NewStyle, Rating, IsRepairFlag, RepairFlagRemark]

  /** Which of four runs of consecutive item keys a column falls in: the
      identity keys, the quote numbers, the terms, the valuation. It only
      splits the proof about names into parts. */
  function Part(c: Column): nat {
    match c
    case Id => 0
    case CbId => 0
    case CbCode => 0
    case CbName => 0
    case StockCode => 0
    case StockName => 0
    case Market => 0
    case Price => 1
    case CbPercent => 1
    case StockPrice => 1
    case StockPercent => 1
    case ArbitragePercent => 1
    case ConvertStockPrice => 1
    case PremiumRate => 1
    case Pb => 1
    case CbToPb => 2
    case RemainPrice => 2
    case RemainPriceTax => 2
    case IsUnlist => 2
    case IssueDate => 2
    case DateConvertDistance => 2
    case DateRemainDistance => 2
    case DateReturnDistance => 2
    case RemainAmount => 3
    case MarketCap => 3
    case RemainToCap => 3
    case RateExpire => 3
    case RateReturn => 3
    case OldStyle => 3
    case NewStyle => 3
    case Rating => 3
    case IsRepairFlag => 3
    case RepairFlagRemark => 3
  }

  /** The names of each part are free of commas. */
  lemma NameCommaFree0(c: Column)
    requires Part(c) == 0
    ensures ',' !in Name(c)
  {
  }

  lemma NameCommaFree1(c: Column)
    requires Part(c) == 1
    ensures ',' !in Name(c)
  {
  }

  lemma NameCommaFree2(c: Column)
    requires Part(c) == 2
    ensures ',' !in Name(c)
  {
  }

  lemma NameCommaFree3(c: Column)
    requires Part(c) == 3
    ensures ',' !in Name(c)
  {
  }

  /** No column name contains a comma, so the column list splits back
      into the names. */
  lemma NameCommaFree(c: Column)
    ensures ',' !in Name(c)
  {
    match Part(c)
    case 0 => NameCommaFree0(c);
    case 1 => NameCommaFree1(c);
    case 2 => NameCommaFree2(c);
    case _ => NameCommaFree3(c);
  }

  /** Only `Id` and `CbCode` carry the names the update leaves alone. */
  lemma IgnoredNames(c: Column)
    ensures Name(c) in IgnoredOnUpdate <==> c == Id || c == CbCode
  {
  }

  /** The keys of `item`, in insertion order. */
  const ItemOrder: seq<Column> := [Id, CbId, CbCode, CbName, StockCode, StockName] + CommonTail

  /** Where a column stands in the item: every column is a key of it. */
  function Position(c: Column): (k: nat)
    ensures k < |ItemOrder| && ItemOrder[k] == c
  {
    match c
    case Id => 0
    case CbId => 1
    case CbCode => 2
    case CbName => 3
    case StockCode => 4
    case StockName => 5
    case Market => 6
    case Price => 7
    case CbPercent => 8
    case StockPrice => 9
    case StockPercent => 10
    case ArbitragePercent => 11
    case ConvertStockPrice => 12
    case PremiumRate => 13
    case Pb => 14
    case CbToPb => 15
    case RemainPrice => 16
    case RemainPriceTax => 17
    case IsUnlist => 18
    case IssueDate => 19
    case DateConvertDistance => 20
    case DateRemainDistance => 21
    case DateReturnDistance => 22
    case RemainAmount => 23
    case MarketCap => 24
    case RemainToCap => 25
    case RateExpire => 26
    case RateReturn => 27
    case OldStyle => 28
    case NewStyle => 29
    case Rating => 30
    case IsRepairFlag => 31
    case RepairFlagRemark => 32
  }

  /** The keys of `rename_map`, in insertion order: the column list of the
      statement as the source builds it. */
  const RenameMapOrder: seq<Column> := [Id, CbId, CbName, CbCode, StockName, StockCode] + CommonTail

  /** The table the records are stored in, and the columns an update
      leaves alone. */
  const TableName: string := "convertible_bond"
  const IgnoredOnUpdate: seq<string> := ["id", "cb_code"]

  /** The names of a list of columns. */
  function Names(cs: seq<Column>): (ns: seq<string>)
    ensures |ns| == |cs|
    ensures forall i :: 0 <= i < |cs| ==> ns[i] == Name(cs[i])
  {
    seq(|cs|, i requires 0 <= i < |cs| => Name(cs[i]))
  }

  /** The keys `item` holds: all of them, or all but the id when the run
      deletes it (main.py:274-275). */
  function ItemKeys(rec: Extract.Record): seq<Column> {
    if rec.id.Some? then ItemOrder else ItemOrder[1..]
  }

  /** The `item` dictionary as key-value pairs in insertion order. */
  function Item(rec: Extract.Record): (item: seq<(Column, Value)>)
    ensures |item| == if rec.id.Some? then 33 else 32
    ensures |item| == |ItemKeys(rec)|
    ensures forall i :: 0 <= i < |item| ==> item[i].0 == ItemKeys(rec)[i] && item[i].1 == Field(rec, item[i].0)
  {
    var ks := ItemKeys(rec);
    seq(|ks|, i requires 0 <= i < |ks| => (ks[i], Field(rec, ks[i])))
  }

  /** A row of pairs binds every value to the column of its own key. */
  predicate SelfConsistent(rec: Extract.Record, row: seq<(Column, Value)>) {
    forall i :: 0 <= i < |row| ==> row[i].1 == Field(rec, row[i].0)
  }

  /** `item.keys()`, in order. */
  function Keys(item: seq<(Column, Value)>): (ks: seq<Column>)
    ensures |ks| == |item|
    ensures forall i :: 0 <= i < |item| ==> ks[i] == item[i].0
  {
    seq(|item|, i requires 0 <= i < |item| => item[i].0)
  }

  /** `item.values()`, in order: one row of `df.values.tolist()`. */
  function Values(item: seq<(Column, Value)>): (vs: seq<Value>)
    ensures |vs| == |item|
    ensures forall i :: 0 <= i < |item| ==> vs[i] == item[i].1
  {
    seq(|item|, i requires 0 <= i < |item| => item[i].1)
  }

  /** What the database receives: the i-th column paired with the i-th
      value, as `executemany` binds the placeholders. */
  function Bind(columns: seq<Column>, values: seq<Value>): (row: seq<(Column, Value)>)
    requires |columns| == |values|
    ensures |row| == |columns|
    ensures forall i :: 0 <= i < |row| ==> row[i] == (columns[i], values[i])
  {
    seq(|columns|, i requires 0 <= i < |columns| => (columns[i], values[i]))
  }

  /** `s` with the neighbours at `i` and `i + 1` exchanged. */
  function SwapAt<T>(s: seq<T>, i: nat): (r: seq<T>)
    requires i + 1 < |s|
    ensures |r| == |s| && r[i] == s[i + 1] && r[i + 1] == s[i]
    ensures forall j :: 0 <= j < |s| && j != i && j != i + 1 ==> r[j] == s[j]
  {
    s[..i] + [s[i + 1], s[i]] + s[i + 2..]
  }

  /** Exchanging two neighbours keeps every element and its count. */
  lemma SwapPermutes<T>(s: seq<T>, i: nat)
    requires i + 1 < |s|
    ensures multiset(SwapAt(s, i)) == multiset(s)
  {
    assert s == s[..i] + [s[i], s[i + 1]] + s[i + 2..];
  }

  /** The column list of the source is the item's key list with the bond
      code and name exchanged and the stock code and name exchanged: the
      same columns in another order. */
  lemma SameColumnsOtherOrder()
    ensures RenameMapOrder == SwapAt(SwapAt(ItemOrder, 2), 4)
    ensures ItemOrder != RenameMapOrder
  {
    var u := SwapAt(ItemOrder, 2);
    var t := SwapAt(u, 4);
    forall i | 0 <= i < |t|
      ensures t[i] == RenameMapOrder[i]
    {
      if i < 6 {
        assert RenameMapOrder[..6] == [Id, CbId, CbName, CbCode, StockName, StockCode];
        assert ItemOrder[..6] == [Id, CbId, CbCode, CbName, StockCode, StockName];
      } else {
        assert t[i] == u[i] == ItemOrder[i] == CommonTail[i - 6] == RenameMapOrder[i];
      }
    }
    assert ItemOrder[2] != RenameMapOrder[2];
  }

  /** The statement names the same columns as the item holds, only in
      another order. */
  lemma SameColumns()
    ensures multiset(RenameMapOrder) == multiset(ItemOrder)
  {
    SameColumnsOtherOrder();
    SwapPermutes(ItemOrder, 2);
    SwapPermutes(SwapAt(ItemOrder, 2), 4);
  }

  /** No column name contains a comma. */
  lemma NamesCommaFree()
    ensures Sql.CommaFree(Names(ItemOrder))
  {
    forall c: Column
      ensures ',' !in Name(c)
    {
      NameCommaFree(c);
    }
  }

  /** The store as the source writes it: columns in `rename_map` order,
      values in item order. The run keeps the id whenever it stores. */
  function StoredRowAsWritten(rec: Extract.Record): (row: seq<(Column, Value)>)
    requires rec.id.Some?
    ensures |row| == 33
    ensures Keys(row) == RenameMapOrder
  {
    Bind(RenameMapOrder, Values(Item(rec)))
  }

  /** As written, the bond's code lands in the name column and the name in
      the code column, and likewise for the stock's code and name; so the
      stored row is wrong for every bond whose code and name differ. */
  lemma AsWrittenSwapsCodesAndNames(rec: Extract.Record)
    requires rec.id.Some?
    ensures StoredRowAsWritten(rec)[2] == (CbName, OptText(rec.cbCode))
    ensures StoredRowAsWritten(rec)[3] == (CbCode, OptText(rec.cbName))
    ensures StoredRowAsWritten(rec)[4] == (StockName, Text(rec.stockCode))
    ensures StoredRowAsWritten(rec)[5] == (StockCode, OptText(rec.stockName))
    ensures rec.cbCode != rec.cbName ==> !SelfConsistent(rec, StoredRowAsWritten(rec))
  {
    var row := StoredRowAsWritten(rec);
    if rec.cbCode != rec.cbName {
      assert row[2].1 != Field(rec, row[2].0);
    }
  }

  /** A concrete bond on which the stored row disagrees with the record:
      the column `cb_name` receives "113001", not the bond's name. */
  lemma AsWrittenCounterexample()
    ensures var rec := Extract.Record(
        Some(1), Some("1"), Some("113001"), Some("中行转债"), "601988", Some("中国银行"), "sh",
        100.0, 0.0, 3.0, 0.0, 0.0, 3.5, 10.0, 0.5, 1.6, 110.0, 108.0,
        Some("N"), Some("19-03-11"), "已到", "1年", "回售内",
        100.0, 1000, 11.0, 1.0, "1.0", 120.0, 130.0, Some("AAA"), "False", "");
      && StoredRowAsWritten(rec)[2] == (CbName, Text("113001"))
      && Field(rec, CbName) == Text("中行转债")
      && !SelfConsistent(rec, StoredRowAsWritten(rec))
  {
  }

  /** The corrected store: the columns are the item's own keys, so every
      value is bound to the column of its own name. */
  function StoredRow(rec: Extract.Record): (row: seq<(Column, Value)>)
    ensures Keys(row) == ItemKeys(rec)
    ensures SelfConsistent(rec, row)
  {
    var item := Item(rec);
    Bind(Keys(item), Values(item))
  }

  /** The correction changes only the statement's column list: the values
      handed to the database are the same, in the same order. */
  lemma CorrectionKeepsValues(rec: Extract.Record)
    requires rec.id.Some?
    ensures Values(StoredRow(rec)) == Values(StoredRowAsWritten(rec))
    ensures Keys(StoredRow(rec)) == ItemOrder && Keys(StoredRowAsWritten(rec)) == RenameMapOrder
  {
  }

  /** The corrected statement: built from the item's keys, with the same
      table and ignore list as the source. Its column list reads back as
      those keys, there is one placeholder per key, and the update clause
      assigns every column but `id` and `cb_code`. */
  method StoreStatement() returns (sql: string)
    ensures sql == Sql.Statement(TableName, Sql.Join(Names(ItemOrder), ","),
                                 Sql.Join(Sql.Placeholders(33), ","),
                                 Sql.Join(Sql.Assignments(Names(ItemOrder), IgnoredOnUpdate), ","))
    ensures Sql.Split(Sql.Join(Names(ItemOrder), ","), ',') == Names(ItemOrder)
    ensures forall c :: Sql.Assignment(Name(c)) in Sql.Assignments(Names(ItemOrder), IgnoredOnUpdate)
                        <==> c != Id && c != CbCode
  {
    sql := Sql.GenerateInsertSql(Names(ItemOrder), TableName, IgnoredOnUpdate);
    NamesCommaFree();
    Sql.ColumnsReadBack(Names(ItemOrder));
    UpdatedColumns();
  }

  /** The update clause of the corrected statement assigns every column
      except `id` and `cb_code`. */
  lemma UpdatedColumns()
    ensures forall c :: Sql.Assignment(Name(c)) in Sql.Assignments(Names(ItemOrder), IgnoredOnUpdate)
                        <==> c != Id && c != CbCode
  {
    forall c: Column
      ensures Sql.Assignment(Name(c)) in Sql.Assignments(Names(ItemOrder), IgnoredOnUpdate)
              <==> c != Id && c != CbCode
    {
      Sql.AssignmentsMembers(Names(ItemOrder), IgnoredOnUpdate, Name(c));
      IgnoredNames(c);
      assert Names(ItemOrder)[Position(c)] == Name(c);
    }
  }
}
