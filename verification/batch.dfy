/**
 * The batch runner: the row loop of `main` (console) and of `processar`
 * (desktop window). It finds the identifier column once, then walks the rows in
 * order, skips rows whose identifier does not normalise, looks the others up
 * and collects one record per lookup.
 */
module Batch {
  import opened Wrappers
  import opened Normalizer
  import opened Columns
  import opened Response
  import opened Lookup
  import opened Flags

  /** The input spreadsheet: its column names and, per row, the cell under each name. */
  datatype Sheet = Sheet(columns: seq<string>, rows: seq<map<string, Cell>>)

  /** Every row has a cell under every column, as in a data frame. */
  predicate WellFormed(sheet: Sheet) {
    forall i :: 0 <= i < |sheet.rows| ==> forall c :: c in sheet.columns ==> c in sheet.rows[i]
  }

  /** How a run ends. */
  datatype RunResult =
    /** No column name contains "cnpj"; nothing was looked up. */
    | NoColumn(available: seq<string>)
    /** Every row was handled; `records` is what the output file receives. */
    | Completed(records: seq<Record>)
    /** A lookup crashed or is still retrying; no output file is written. */
    | Halted(outcome: LookupOutcome)

  /** The cells of one column, top to bottom (`row[coluna_cnpj]` for each row). */
  function CellsOf(sheet: Sheet, col: string): (cells: seq<Cell>)
    requires WellFormed(sheet) && col in sheet.columns
    ensures |cells| == |sheet.rows|
    ensures forall i :: 0 <= i < |cells| ==> cells[i] == sheet.rows[i][col]
  {
    seq(|sheet.rows|, i requires 0 <= i < |sheet.rows| => sheet.rows[i][col])
  }

  // ----- Which rows are looked up -----

  /** `padronizar_cnpj` applied to every cell of a column. */
  function NormalizeAll(cells: seq<Cell>): (opts: seq<Option<string>>)
    ensures |opts| == |cells|
  {
    if cells == [] then [] else NormalizeAll(cells[..|cells| - 1]) + [Normalize(cells[|cells| - 1])]
  }

  /** Each cell is normalised on its own. */
  lemma {:induction false} NormalizeAllAt(cells: seq<Cell>)
    ensures forall i :: 0 <= i < |cells| ==> NormalizeAll(cells)[i] == Normalize(cells[i])
  {
    if cells != [] {
      var init := cells[..|cells| - 1];
      NormalizeAllAt(init);
      assert forall i :: 0 <= i < |init| ==> init[i] == cells[i];
    }
  }

  /** A present value as a one-element sequence; nothing for None. */
  function Present(o: Option<string>): seq<string> {
    if o.Some? then [o.value] else []
  }

  /** The present values, in order: the rows the loop does not `continue` past. */
  function Accepted(opts: seq<Option<string>>): (ids: seq<string>)
    ensures |ids| <= |opts|
  {
    if opts == [] then []
    else
      var earlier := Accepted(opts[..|opts| - 1]);
      match opts[|opts| - 1]
      case Some(id) => earlier + [id]
      case None => earlier
  }

  /** The indices of the present values, increasing. */
  function AcceptedRows(opts: seq<Option<string>>): (rows: seq<nat>)
    ensures forall k :: 0 <= k < |rows| ==> rows[k] < |opts| && opts[rows[k]].Some?
    ensures forall k, l :: 0 <= k < l < |rows| ==> rows[k] < rows[l]
    ensures forall i :: 0 <= i < |opts| && opts[i].Some? ==> i in rows
  {
    if opts == [] then []
    else
      var init := opts[..|opts| - 1];
      var earlier := AcceptedRows(init);
      assert forall i :: 0 <= i < |init| ==> init[i] == opts[i];
      if opts[|opts| - 1].Some? then earlier + [|opts| - 1] else earlier
  }

  /** The k-th accepted value is the value at the k-th accepted index. */
  lemma {:induction false} AcceptedFollowsRows(opts: seq<Option<string>>)
    ensures |Accepted(opts)| == |AcceptedRows(opts)|
    ensures forall k :: 0 <= k < |Accepted(opts)| ==> opts[AcceptedRows(opts)[k]] == Some(Accepted(opts)[k])
  {
    if opts != [] {
      var init := opts[..|opts| - 1];
      AcceptedFollowsRows(init);
      forall k | 0 <= k < |AcceptedRows(init)| ensures opts[AcceptedRows(init)[k]] == init[AcceptedRows(init)[k]] {
      }
    }
  }

  /** Values are handled one by one: what comes first never changes what comes after. */
  lemma {:induction false} AcceptedAppend(a: seq<Option<string>>, b: seq<Option<string>>)
    ensures Accepted(a + b) == Accepted(a) + Accepted(b)
    decreases |b|
  {
    if b == [] {
      assert a + b == a;
    } else {
      var bInit := b[..|b| - 1];
      assert (a + b)[..|a + b| - 1] == a + bInit;
      assert (a + b)[|a + b| - 1] == b[|b| - 1];
      AcceptedAppend(a, bInit);
    }
  }

  /** The identifiers the rows normalise to, in row order, invalid rows left out. */
  function ValidIds(cells: seq<Cell>): (ids: seq<string>)
    ensures |ids| <= |cells|
  {
    Accepted(NormalizeAll(cells))
  }

  /** The indices of the rows whose identifier normalises. */
  function ValidRows(cells: seq<Cell>): seq<nat> {
    AcceptedRows(NormalizeAll(cells))
  }

  /**
   * Filter and map: the rows that normalise are exactly those listed by
   * ValidRows, in increasing order, and the k-th identifier is what the k-th
   * of them normalises to. So the output holds one identifier per valid row,
   * in row order, and every invalid row is skipped.
   */
  lemma ValidIdsFollowValidRows(cells: seq<Cell>)
    ensures |ValidIds(cells)| == |ValidRows(cells)|
    ensures forall k, l :: 0 <= k < l < |ValidRows(cells)| ==> ValidRows(cells)[k] < ValidRows(cells)[l]
    ensures forall i :: 0 <= i < |cells| ==> (Normalize(cells[i]).Some? <==> i in ValidRows(cells))
    ensures forall k :: 0 <= k < |ValidIds(cells)| ==>
      ValidRows(cells)[k] < |cells| && Normalize(cells[ValidRows(cells)[k]]) == Some(ValidIds(cells)[k])
  {
    AcceptedFollowsRows(NormalizeAll(cells));
    NormalizeAllAt(cells);
  }

  /** Every identifier the batch looks up is a well-formed CNPJ. */
  lemma ValidIdsAreCnpjs(cells: seq<Cell>)
    ensures forall k :: 0 <= k < |ValidIds(cells)| ==> IsCnpj(ValidIds(cells)[k])
  {
    ValidIdsFollowValidRows(cells);
    forall k | 0 <= k < |ValidIds(cells)| ensures IsCnpj(ValidIds(cells)[k]) {
      NormalizeGivesCnpj(cells[ValidRows(cells)[k]]);
    }
  }

  /** Rows are handled independently: a rejected row never affects later rows. */
  lemma ValidIdsAppend(a: seq<Cell>, b: seq<Cell>)
    ensures ValidIds(a + b) == ValidIds(a) + ValidIds(b)
  {
    NormalizeAllAt(a);
    NormalizeAllAt(b);
    NormalizeAllAt(a + b);
    assert NormalizeAll(a + b) == NormalizeAll(a) + NormalizeAll(b);
    AcceptedAppend(NormalizeAll(a), NormalizeAll(b));
  }

  /** Taking one more row adds its identifier when it normalises, and nothing otherwise. */
  lemma ValidIdsStep(cells: seq<Cell>, i: nat)
    requires i < |cells|
    ensures ValidIds(cells[..i + 1]) == ValidIds(cells[..i]) + Present(Normalize(cells[i]))
  {
    var upto := cells[..i + 1];
    assert upto[..i] == cells[..i] && upto[i] == cells[i];
    assert NormalizeAll(upto) == NormalizeAll(cells[..i]) + [Normalize(cells[i])];
  }

  /** The identifiers of the first i rows are a prefix of those of all rows. */
  lemma PrefixOfValidIds(cells: seq<Cell>, i: nat)
    requires i <= |cells|
    ensures ValidIds(cells[..i]) <= ValidIds(cells)
  {
    assert cells[..i] + cells[i..] == cells;
    ValidIdsAppend(cells[..i], cells[i..]);
    var head, tail := ValidIds(cells[..i]), ValidIds(cells[i..]);
    assert ValidIds(cells) == head + tail;
    assert (head + tail)[..|head|] == head;
  }

  /** Three rows whose second identifier is invalid give two identifiers, in order. */
  lemma SkipsInvalidRow(first: string, third: string)
    requires IsCnpj(first) && IsCnpj(third)
    ensures ValidIds([Text(first), Text("123"), Text(third)]) == [first, third]
  {
    NormalizeAcceptsCnpj(first);
    NormalizeAcceptsCnpj(third);
    NormalizeRejects("123");
    var cells := [Text(first), Text("123"), Text(third)];
    var opts := NormalizeAll(cells);
    NormalizeAllAt(cells);
    assert opts == [Some(first), None, Some(third)];
    assert opts[..2] == [Some(first), None] && opts[..2][..1] == [Some(first)];
    assert Accepted([Some(first)]) == [first] by {
      assert [Some(first)][..0] == [];
    }
    assert Accepted(opts[..2]) == [first];
  }

  // ----- What the lookups return -----

  /** The answers the service gives to the k-th lookup of the run; none beyond the script. */
  function Net(network: seq<seq<Attempt>>, k: nat): seq<Attempt> {
    if k < |network| then network[k] else []
  }

  /** The outcomes of looking up `ids` one after the other, the k-th against `network[k]`. */
  function Lookups(ids: seq<string>, network: seq<seq<Attempt>>): (outs: seq<LookupOutcome>)
    ensures |outs| == |ids|
  {
    if ids == [] then []
    else Lookups(ids[..|ids| - 1], network) + [Consult(ids[|ids| - 1], Net(network, |ids| - 1))]
  }

  /** The k-th outcome is the lookup of the k-th identifier. */
  lemma {:induction false} LookupsAt(ids: seq<string>, network: seq<seq<Attempt>>)
    ensures forall k :: 0 <= k < |ids| ==> Lookups(ids, network)[k] == Consult(ids[k], Net(network, k))
  {
    if ids != [] {
      var init := ids[..|ids| - 1];
      LookupsAt(init, network);
      forall k | 0 <= k < |init|
        ensures Lookups(ids, network)[k] == Consult(ids[k], Net(network, k))
      {
        assert init[k] == ids[k];
        assert Lookups(ids, network)[k] == Lookups(init, network)[k];
      }
    }
  }

  /** Lookups made so far never change when more identifiers follow. */
  lemma LookupsPrefix(a: seq<string>, b: seq<string>, network: seq<seq<Attempt>>)
    requires a <= b
    ensures Lookups(a, network) <= Lookups(b, network)
  {
    LookupsAt(a, network);
    LookupsAt(b, network);
    assert forall k :: 0 <= k < |a| ==> a[k] == b[k];
  }

  /** Every lookup of `ids`, made in order, returns a record. */
  predicate AllFound(ids: seq<string>, network: seq<seq<Attempt>>) {
    forall k :: 0 <= k < |ids| ==> Lookups(ids, network)[k].Found?
  }

  /** Each record wrapped as a successful outcome. */
  function Founds(records: seq<Record>): (outs: seq<LookupOutcome>)
    ensures |outs| == |records|
  {
    if records == [] then [] else Founds(records[..|records| - 1]) + [Found(records[|records| - 1])]
  }

  /** The k-th wrapped outcome holds the k-th record. */
  lemma {:induction false} FoundsAt(records: seq<Record>)
    ensures forall k :: 0 <= k < |records| ==> Founds(records)[k] == Found(records[k])
  {
    if records != [] {
      var init := records[..|records| - 1];
      FoundsAt(init);
      assert forall k :: 0 <= k < |init| ==> init[k] == records[k];
    }
  }

  /** The outcomes end with `o`, which is not a record, and every outcome before it is a record. */
  predicate FirstFailure(outs: seq<LookupOutcome>, o: LookupOutcome) {
    && outs != [] && outs[|outs| - 1] == o && !o.Found?
    && forall k :: 0 <= k < |outs| - 1 ==> outs[k].Found?
  }

  /** AllFound in terms of the single lookups. */
  lemma AllFoundMeans(ids: seq<string>, network: seq<seq<Attempt>>)
    ensures AllFound(ids, network) <==> forall k :: 0 <= k < |ids| ==> Consult(ids[k], Net(network, k)).Found?
  {
    LookupsAt(ids, network);
  }

  /** The records of a completed run carry, in order, the identifiers looked up, with well-formed flags. */
  lemma CompletedRecords(ids: seq<string>, records: seq<Record>, network: seq<seq<Attempt>>)
    requires |records| == |ids|
    requires forall k :: 0 <= k < |ids| ==> Lookups(ids, network)[k] == Found(records[k])
    ensures forall k :: 0 <= k < |ids| ==>
      records[k].cnpj == ids[k] && IsFlag(records[k].simplesNacional) && IsFlag(records[k].mei)
  {
    LookupsAt(ids, network);
  }

  /** One lookup that does not return a record is enough for the run not to complete. */
  lemma LookupFailureBreaksAllFound(ids: seq<string>, queried: seq<string>, network: seq<seq<Attempt>>)
    requires queried <= ids && queried != []
    requires !Lookups(queried, network)[|queried| - 1].Found?
    ensures !AllFound(ids, network)
  {
    LookupsPrefix(queried, ids, network);
    assert Lookups(ids, network)[|queried| - 1] == Lookups(queried, network)[|queried| - 1];
  }

  /** A run that stops after records for all but its last lookup stopped at its first failure. */
  lemma HaltedAtFirstFailure(queried: seq<string>, network: seq<seq<Attempt>>, outcome: LookupOutcome)
    requires queried != [] && !outcome.Found?
    requires outcome == Lookups(queried, network)[|queried| - 1]
    requires AllFound(queried[..|queried| - 1], network)
    ensures FirstFailure(Lookups(queried, network), outcome)
  {
    var earlier := queried[..|queried| - 1];
    LookupsPrefix(earlier, queried, network);
    assert forall k :: 0 <= k < |earlier| ==> Lookups(queried, network)[k] == Lookups(earlier, network)[k];
  }

  /** What the loop's result says about the lookups of all the identifiers of the column. */
  lemma CollectedMeans(ids: seq<string>, network: seq<seq<Attempt>>, r: RunResult, queried: seq<string>)
    requires !r.NoColumn? && queried <= ids
    requires r.Completed? ==> queried == ids && |r.records| == |queried|
    requires r.Completed? ==> Lookups(queried, network) == Founds(r.records)
    requires r.Halted? ==> queried != [] && !r.outcome.Found?
    requires r.Halted? ==> r.outcome == Lookups(queried, network)[|queried| - 1]
    requires r.Halted? ==> AllFound(queried[..|queried| - 1], network)
    ensures r.Completed? <==> AllFound(ids, network)
    ensures r.Completed? ==> forall k :: 0 <= k < |ids| ==>
      r.records[k].cnpj == ids[k] && IsFlag(r.records[k].simplesNacional) && IsFlag(r.records[k].mei)
    ensures r.Halted? ==> FirstFailure(Lookups(queried, network), r.outcome)
    ensures r.Halted? ==> r.outcome == Consult(queried[|queried| - 1], Net(network, |queried| - 1))
  {
    if r.Halted? {
      LookupFailureBreaksAllFound(ids, queried, network);
      LookupsAt(queried, network);
      HaltedAtFirstFailure(queried, network, r.outcome);
    } else {
      FoundsAt(r.records);
      CompletedRecords(queried, r.records, network);
    }
  }

  // ----- The loop -----

  /** The lookup of `id`, made after those of `earlier`: `consultar_cnpj_com_backoff(cnpj)`. */
  method LookUp(earlier: seq<string>, id: string, network: seq<seq<Attempt>>) returns (outcome: LookupOutcome)
    ensures Lookups(earlier + [id], network) == Lookups(earlier, network) + [outcome]
  {
    var slept;
    outcome, slept := ConsultWithBackoff(id, Net(network, |earlier|));
    assert (earlier + [id])[..|earlier|] == earlier;
  }

  /**
   * The row loop, given the cells of the identifier column top to bottom
   * (`row[coluna_cnpj]` for each row). `queried` lists the identifiers sent
   * to the service, in order; `network[k]` scripts the service's answers to
   * the k-th lookup.
   */
  method Collect(cells: seq<Cell>, network: seq<seq<Attempt>>) returns (r: RunResult, queried: seq<string>)
    ensures !r.NoColumn?
    ensures queried <= ValidIds(cells)
    ensures r.Completed? ==> queried == ValidIds(cells) && |r.records| == |queried|
    ensures r.Completed? ==> Lookups(queried, network) == Founds(r.records)
    ensures r.Halted? ==> queried != [] && !r.outcome.Found?
    ensures r.Halted? ==> r.outcome == Lookups(queried, network)[|queried| - 1]
    ensures r.Halted? ==> AllFound(queried[..|queried| - 1], network)
  {
    var records: seq<Record> := [];
    queried := [];
    var i := 0;
    while i < |cells|
      invariant 0 <= i <= |cells|
      invariant queried == ValidIds(cells[..i])
      invariant |records| == |queried|
      invariant Lookups(queried, network) == Founds(records)
    {
      var cnpj := Normalize(cells[i]);
      ValidIdsStep(cells, i);
      i := i + 1;
      if cnpj.None? {
        continue;
      }
      var outcome := LookUp(queried, cnpj.value, network);
      ghost var earlier := queried;
      queried := queried + [cnpj.value];
      if !outcome.Found? {
        PrefixOfValidIds(cells, i);
        FoundsAt(records);
        assert queried[..|queried| - 1] == earlier;
        return Halted(outcome), queried;
      }
      ghost var collected := records;
      records := records + [outcome.record];
      assert records[..|collected|] == collected;
    }
    assert cells[..i] == cells;
    r := Completed(records);
  }

  /**
   * `main` / `processar`: resolve the identifier column once, giving up before
   * any lookup when there is none, then run the row loop.
   */
  method Run(sheet: Sheet, network: seq<seq<Attempt>>) returns (r: RunResult, queried: seq<string>)
    requires WellFormed(sheet)
    ensures FindCnpjColumn(sheet.columns).None? <==> r.NoColumn?
    ensures r.NoColumn? ==> r.available == sheet.columns && queried == []
    ensures FindCnpjColumn(sheet.columns).Some? ==>
      var ids := ValidIds(CellsOf(sheet, FindCnpjColumn(sheet.columns).value));
      && queried <= ids
      && (r.Completed? <==> AllFound(ids, network))
      && (r.Completed? ==> queried == ids && Lookups(ids, network) == Founds(r.records))
      && (r.Halted? ==> FirstFailure(Lookups(queried, network), r.outcome))
  {
    var column := FindCnpjColumn(sheet.columns);
    if column.None? {
      return NoColumn(sheet.columns), [];
    }
    var cells := CellsOf(sheet, column.value);
    r, queried := Collect(cells, network);
    CollectedMeans(ValidIds(cells), network, r, queried);
  }
}
