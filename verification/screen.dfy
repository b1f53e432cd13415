/** The three screening rules (main.py, `filter_profit_due`,
    `filter_return_lucky`, `filter_double_low`). Each keeps, in table order,
    the records that pass a conjunction of threshold and equality tests; the
    first rule then drops records whose remark carries either of two
    disclaimers. Each rule reads the full table, never another rule's
    output. */
module Screen {
  import opened Text
  import opened Extract
  import Seqs

  /** Conversion-distance text meaning "already reached". */
  const AlreadyReached: string := "已到"

  /** Putback-distance text meaning "within the putback window". */
  const InPutbackWindow: string := "回售内"

  /** Remark disclaimer: the issuer declines to revise for now. */
  const DeclinesRevision: string := "暂不行使下修权利"

  /** Remark disclaimer: a no-revision promise is still running. */
  const NoRevisionPromise: string := "距离不下修承诺"

  /** The mask of `filter_profit_due` (main.py:297-303). */
  predicate ProfitDueMask(r: Record) {
    && r.rateExpire > 0.0
    && r.price < 115.0
    && r.dateConvertDistance == AlreadyReached
    && r.cbToPb > 1.5
    && r.isRepairFlag == "True"
    && r.remainToCap > 10.0
  }

  /** `my_filter` of `filter_profit_due` rejects the record (main.py:306-309). */
  predicate Disclaimed(r: Record) {
    Contains(r.repairFlagRemark, DeclinesRevision) || Contains(r.repairFlagRemark, NoRevisionPromise)
  }

  /** A record belongs on the "到期保底" sheet. */
  predicate ProfitDue(r: Record) {
    ProfitDueMask(r) && !Disclaimed(r)
  }

  /** The mask of `filter_return_lucky` (main.py:315-320). */
  predicate ReturnLucky(r: Record) {
    && r.price < 115.0
    && r.dateReturnDistance == InPutbackWindow
    && r.cbToPb > 1.5
    && r.isRepairFlag == "True"
    && r.remainToCap > 10.0
  }

  /** The mask of `filter_double_low` (main.py:325-330). */
  predicate DoubleLow(r: Record) {
    && r.price < 130.0
    && r.dateConvertDistance == AlreadyReached
    && r.cbToPb > 1.5
    && r.remainToCap > 10.0
    && r.premiumRate < 10.0
  }

  /** `my_filter` of `filter_profit_due` keeps the record. */
  predicate NotDisclaimed(r: Record) {
    !Disclaimed(r)
  }

  /** `filter_profit_due`: the mask first, then the disclaimer post-filter
      on what the mask kept. The result is the subsequence of exactly the
      records that pass both. */
  function FilterProfitDue(rs: seq<Record>): (out: seq<Record>)
    ensures Seqs.IsSubseq(out, rs)
    ensures forall k :: 0 <= k < |out| ==> ProfitDueMask(out[k]) && !Disclaimed(out[k])
    ensures forall i :: 0 <= i < |rs| && ProfitDueMask(rs[i]) && !Disclaimed(rs[i]) ==> rs[i] in out
    ensures |out| == Seqs.CountWhere(rs, ProfitDue)
  {
    var masked := Seqs.Keep(rs, ProfitDueMask);
    var out := Seqs.Keep(masked, NotDisclaimed);
    Seqs.KeepKeep(rs, ProfitDueMask, NotDisclaimed, ProfitDue);
    out
  }

  /** `filter_return_lucky`. */
  function FilterReturnLucky(rs: seq<Record>): (out: seq<Record>)
    ensures Seqs.IsSubseq(out, rs)
    ensures forall k :: 0 <= k < |out| ==> ReturnLucky(out[k])
    ensures forall i :: 0 <= i < |rs| && ReturnLucky(rs[i]) ==> rs[i] in out
    ensures |out| == Seqs.CountWhere(rs, ReturnLucky)
  {
    Seqs.Keep(rs, ReturnLucky)
  }

  /** `filter_double_low`. */
  function FilterDoubleLow(rs: seq<Record>): (out: seq<Record>)
    ensures Seqs.IsSubseq(out, rs)
    ensures forall k :: 0 <= k < |out| ==> DoubleLow(out[k])
    ensures forall i :: 0 <= i < |rs| && DoubleLow(rs[i]) ==> rs[i] in out
    ensures |out| == Seqs.CountWhere(rs, DoubleLow)
  {
    Seqs.Keep(rs, DoubleLow)
  }

  /** A record that passes the mask but whose remark carries a disclaimer
      is left off the sheet, though it stays in the full table. */
  lemma DisclaimerExcludes(rs: seq<Record>, r: Record)
    requires r in rs
    requires Contains(r.repairFlagRemark, DeclinesRevision)
    ensures r !in FilterProfitDue(rs)
  {
  }

  /** Running the disclaimer test before the mask, or both at once, picks
      the same records as the source's mask-then-post-filter order. */
  lemma ProfitDueOrderIrrelevant(rs: seq<Record>)
    ensures FilterProfitDue(rs) == Seqs.Keep(Seqs.Keep(rs, NotDisclaimed), ProfitDueMask)
    ensures FilterProfitDue(rs) == Seqs.Keep(rs, ProfitDue)
  {
    Seqs.KeepKeep(rs, ProfitDueMask, NotDisclaimed, ProfitDue);
    Seqs.KeepKeep(rs, NotDisclaimed, ProfitDueMask, ProfitDue);
  }
}
