/** One run of the screener (main.py, `main`, lines 136-291): every table
    row is extracted in order, and the first row that cannot be extracted
    ends the run. The records then go to the workbook, as the full table and
    the three screened sheets, and to the database when the run stores. */
module Run {
  import opened Wrappers
  import opened Dom
  import opened Dates
  import opened Extract
  import Seqs
  import Screen
  import Store

  /** The two switches of `main` (`is_output`, `is_save_database`). */
  datatype Config = Config(output: bool, saveDatabase: bool)

  /** The id survives unless the run writes the workbook without storing,
      in which case the source deletes it from every record. */
  predicate KeepsId(cfg: Config) {
    !(cfg.output && !cfg.saveDatabase)
  }

  /** The id a record is built with, given the one drawn for its row. */
  function IdFor(cfg: Config, id: int): (r: Option<int>)
    ensures r.Some? <==> KeepsId(cfg)
    ensures r.Some? ==> r.value == id
  {
    if KeepsId(cfg) then Some(id) else None
  }

  /** Why a run stops: a row that cannot be extracted (the source prints
      the row and raises), or a workbook run over no records at all, where
      the data frame has no columns and the first screen's column lookup
      fails. */
  datatype RunError = RowFailed(index: nat, error: ExtractError) | EmptyTable

  /** The i-th row extracts, with the i-th drawn id. */
  predicate RowExtracts(rows: seq<Row>, runDate: Date, ids: seq<int>, cfg: Config, parse: Parsers, i: nat)
    requires runDate.Valid() && i < |rows| && i < |ids|
  {
    ExtractRow(rows[i], runDate, IdFor(cfg, ids[i]), parse).Success?
  }

  /** The loop of `main`: the records of all rows, in row order, or the
      first row that fails. `ids` are the values the id generator hands
      out, one per row in order. */
  method ExtractAll(rows: seq<Row>, runDate: Date, ids: seq<int>, cfg: Config, parse: Parsers)
    returns (r: Result<seq<Record>, RunError>)
    requires runDate.Valid()
    requires |ids| >= |rows|
    ensures r.Success? <==> forall i :: 0 <= i < |rows| ==> RowExtracts(rows, runDate, ids, cfg, parse, i)
    ensures r.Success? ==> |r.value| == |rows|
    ensures r.Success? ==> forall i :: 0 <= i < |rows| ==>
      ExtractRow(rows[i], runDate, IdFor(cfg, ids[i]), parse) == Success(r.value[i])
    ensures r.Failure? ==> r.error.RowFailed? && r.error.index < |rows|
    ensures r.Failure? ==>
      ExtractRow(rows[r.error.index], runDate, IdFor(cfg, ids[r.error.index]), parse) == Failure(r.error.error)
    ensures r.Failure? ==> forall j :: 0 <= j < r.error.index ==> RowExtracts(rows, runDate, ids, cfg, parse, j)
  {
    var pairs := seq(|rows|, i requires 0 <= i < |rows| => (rows[i], ids[i]));
    var step := (p: (Row, int)) => ExtractRow(p.0, runDate, IdFor(cfg, p.1), parse);
    var all := Seqs.CollectAll(pairs, step);
    forall i | 0 <= i < |rows|
      ensures step(pairs[i]) == ExtractRow(rows[i], runDate, IdFor(cfg, ids[i]), parse)
    {
      assert pairs[i] == (rows[i], ids[i]);
    }
    if all.Failure? {
      assert !RowExtracts(rows, runDate, ids, cfg, parse, all.error.0);
      return Failure(RowFailed(all.error.0, all.error.1));
    }
    return Success(all.value);
  }

  /** With increasing ids and the id kept, the records' ids increase in row
      order; with the id deleted, no record has one. */
  lemma RecordIds(rows: seq<Row>, runDate: Date, ids: seq<int>, cfg: Config, parse: Parsers, recs: seq<Record>)
    requires runDate.Valid()
    requires |ids| >= |rows| && |recs| == |rows|
    requires forall i :: 0 <= i < |rows| ==> ExtractRow(rows[i], runDate, IdFor(cfg, ids[i]), parse) == Success(recs[i])
    requires forall i, j :: 0 <= i < j < |ids| ==> ids[i] < ids[j]
    ensures KeepsId(cfg) ==> forall i, j :: 0 <= i < j < |recs| ==>
      recs[i].id.Some? && recs[j].id.Some? && recs[i].id.value < recs[j].id.value
    ensures !KeepsId(cfg) ==> forall i :: 0 <= i < |recs| ==> recs[i].id.None?
  {
  }

  /** Sheet names of the workbook. */
  const AllSheet: string := "All"
  const ProfitDueSheet: string := "到期保底"
  const ReturnLuckySheet: string := "回售摸彩"
  const DoubleLowSheet: string := "低价格低溢价"

  /** One sheet written to the day's workbook. */
  datatype Sheet = Sheet(name: string, records: seq<Record>)

  /** What a run leaves behind: the sheets written, in order, the rows
      stored, and why it stopped early, if it did. */
  datatype Report = Report(sheets: seq<Sheet>, stored: seq<seq<(Store.Column, Store.Value)>>, failure: Option<RunError>)

  /** The rows the corrected store writes, one per record. */
  function StoredRows(recs: seq<Record>): (rows: seq<seq<(Store.Column, Store.Value)>>)
    ensures |rows| == |recs|
    ensures forall i :: 0 <= i < |recs| ==>
      Store.SelfConsistent(recs[i], rows[i]) && Store.Keys(rows[i]) == Store.ItemKeys(recs[i])
  {
    seq(|recs|, i requires 0 <= i < |recs| => Store.StoredRow(recs[i]))
  }

  /** The output and store steps after the loop. The full table is written
      first; over no records the first screen then fails, so neither the
      other sheets nor the store happen. The rows stored are the corrected
      binding, `Store.StoredRow`, not the source's `Store.StoredRowAsWritten`. */
  function Publish(recs: seq<Record>, cfg: Config): (rep: Report)
    ensures cfg.output <==> |rep.sheets| > 0
    ensures cfg.output ==> rep.sheets[0] == Sheet(AllSheet, recs)
    ensures rep.failure.Some? <==> cfg.output && |recs| == 0
    ensures rep.failure.Some? ==> rep.failure.value == EmptyTable && |rep.sheets| == 1
    ensures cfg.output && rep.failure.None? ==> |rep.sheets| == 4
    ensures cfg.output && rep.failure.None? ==> forall k :: 1 <= k < 4 ==>
      Seqs.IsSubseq(rep.sheets[k].records, recs)
    ensures cfg.saveDatabase && rep.failure.None? ==> |rep.stored| == |recs| && forall i :: 0 <= i < |recs| ==>
      Store.SelfConsistent(recs[i], rep.stored[i]) && Store.Keys(rep.stored[i]) == Store.ItemKeys(recs[i])
    ensures !cfg.saveDatabase || rep.failure.Some? ==> rep.stored == []
  {
    var stored := if cfg.saveDatabase then StoredRows(recs) else [];
    if !cfg.output then Report([], stored, None)
    else if |recs| == 0 then Report([Sheet(AllSheet, recs)], [], Some(EmptyTable))
    else
      var sheets := [
        Sheet(AllSheet, recs),
        Sheet(ProfitDueSheet, Screen.FilterProfitDue(recs)),
        Sheet(ReturnLuckySheet, Screen.FilterReturnLucky(recs)),
        Sheet(DoubleLowSheet, Screen.FilterDoubleLow(recs))];
      Report(sheets, stored, None)
  }

  /** Each screened sheet holds, in table order, exactly the records of the
      full table that pass its rule: each screen reads the full table. */
  lemma ScreenedSheets(recs: seq<Record>, cfg: Config)
    requires cfg.output && |recs| > 0
    ensures Publish(recs, cfg).sheets[1] == Sheet(ProfitDueSheet, Seqs.Keep(recs, Screen.ProfitDue))
    ensures Publish(recs, cfg).sheets[2] == Sheet(ReturnLuckySheet, Seqs.Keep(recs, Screen.ReturnLucky))
    ensures Publish(recs, cfg).sheets[3] == Sheet(DoubleLowSheet, Seqs.Keep(recs, Screen.DoubleLow))
  {
    Screen.ProfitDueOrderIrrelevant(recs);
  }

  /** `recs` are the records of `rows`, one per row in order, each
      extracted with its drawn id. */
  predicate ExtractedFrom(recs: seq<Record>, rows: seq<Row>, runDate: Date, ids: seq<int>, cfg: Config, parse: Parsers)
    requires runDate.Valid() && |ids| >= |rows|
  {
    |recs| == |rows| &&
    forall i :: 0 <= i < |rows| ==> ExtractRow(rows[i], runDate, IdFor(cfg, ids[i]), parse) == Success(recs[i])
  }

  /** One run over the rows of the page: whenever every row extracts, what
      it writes and stores is the publication of exactly those records. */
  method RunOnce(rows: seq<Row>, runDate: Date, ids: seq<int>, cfg: Config, parse: Parsers)
    returns (rep: Report)
    requires runDate.Valid()
    requires |ids| >= |rows|
    ensures rep.failure.None? <==>
      (forall i :: 0 <= i < |rows| ==> RowExtracts(rows, runDate, ids, cfg, parse, i))
      && (|rows| > 0 || !cfg.output)
    ensures rep.failure.Some? && rep.failure.value.RowFailed? ==> rep.sheets == [] && rep.stored == []
    ensures rep.failure.Some? && rep.failure.value.RowFailed? ==>
      var k := rep.failure.value.index;
      && k < |rows|
      && ExtractRow(rows[k], runDate, IdFor(cfg, ids[k]), parse) == Failure(rep.failure.value.error)
      && forall j :: 0 <= j < k ==> RowExtracts(rows, runDate, ids, cfg, parse, j)
    ensures rep.failure.None? && cfg.saveDatabase ==> |rep.stored| == |rows|
    ensures rep.failure.None? && cfg.output ==> |rep.sheets| == 4 && |rep.sheets[0].records| == |rows|
    ensures rep.failure.None? || rep.failure.value.EmptyTable? ==>
      exists recs :: ExtractedFrom(recs, rows, runDate, ids, cfg, parse) && rep == Publish(recs, cfg)
  {
    var extracted := ExtractAll(rows, runDate, ids, cfg, parse);
    if extracted.Failure? {
      return Report([], [], Some(extracted.error));
    }
    rep := Publish(extracted.value, cfg);
    assert ExtractedFrom(extracted.value, rows, runDate, ids, cfg, parse);
  }
}
