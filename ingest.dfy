/**
 * `processCSVData` (src/App.js): the rows decoded from the CSV file are
 * filtered, each kept row is turned into a candidate object, and each
 * candidate is normalised against the case template. CSV decoding is done by
 * a library upstream of this code; here a row is the dictionary it yields.
 * `parse` stands for JSON.parse and `numText` for JavaScript's rendering of a
 * number as a string.
 */
module Ingest {
  import opened JsValues
  import opened SafeJson
  import opened Normalizer

  type Row = map<string, Value>

  /** `Object.keys(row).length > 1 && row.model` */
  predicate KeepRow(row: Row) {
    |row| > 1 && Truthy(Get(row, "model"))
  }

  /** `row[k] || ''` */
  function TextCell(row: Row, k: string): Value {
    Or(Get(row, k), Str(""))
  }

  /** `row[k] ? String(row[k]) : ''` */
  function SizeCell(row: Row, k: string, numText: real -> string): Value {
    var v := Get(row, k);
    if Truthy(v) then Str(JsString(v, numText)) else Str("")
  }

  /** `safeJSONParse(row[k])` */
  function ObjectCell(row: Row, k: string, parse: string -> Option<Value>): Value {
    SafeJsonParse(Get(row, k), parse)
  }

  /** The columns that go through `safeJSONParse`. */
  function ObjectColumns(): set<string> {
    {"arterial_variations", "artery", "inferior_vena_cava", "aorta", "branches_and_other",
     "vein", "regional_lymph_node", "distant_lymph_node", "bile_duct", "main_pancreatic_duct"}
  }

  /** The columns copied as `row[k] || ''`. */
  function TextColumns(): set<string> {
    {"model", "tumor_morphology", "adjacent_organ_invasion", "tumor_location",
     "peritoneal_seeding", "final_hematogenous_metastasis_status", "hematogenous_metastasis",
     "final_peritoneal_seeding_status"}
  }

  /** `processedRow[k]` */
  function CandidateField(row: Row, k: string, parse: string -> Option<Value>, numText: real -> string): Value {
    if k == "tumor_size" then SizeCell(row, k, numText)
    else if k in ObjectColumns() then ObjectCell(row, k, parse)
    else TextCell(row, k)
  }

  /** The `processedRow` object built from one kept row (src/App.js:83-103). */
  function Candidate(row: Row, parse: string -> Option<Value>, numText: real -> string): Value {
    Obj(map k | k in ObjectColumns() + TextColumns() + {"tumor_size"} :: CandidateField(row, k, parse, numText))
  }

  /** The normalised case record of one row. */
  function BuildRecord(row: Row, parse: string -> Option<Value>, numText: real -> string): Value {
    EnsureDataStructure(Candidate(row, parse, numText))
  }

  /** `csvData.filter(row => ...)` */
  function KeptRows(rows: seq<Row>): seq<Row> {
    if rows == [] then []
    else (if KeepRow(rows[0]) then [rows[0]] else []) + KeptRows(rows[1..])
  }

  /** `.map(row => ensureDataStructure(processedRow))` */
  function Records(kept: seq<Row>, parse: string -> Option<Value>, numText: real -> string): seq<Value> {
    if kept == [] then []
    else [BuildRecord(kept[0], parse, numText)] + Records(kept[1..], parse, numText)
  }

  /** `processCSVData(csvData)`: the sequence it stores with `setJsonData`. */
  function ProcessCsvData(rows: seq<Row>, parse: string -> Option<Value>, numText: real -> string): seq<Value> {
    Records(KeptRows(rows), parse, numText)
  }

  /** The number of rows that pass the filter. */
  function CountKept(rows: seq<Row>): nat {
    if rows == [] then 0
    else (if KeepRow(rows[0]) then 1 else 0) + CountKept(rows[1..])
  }

  lemma {:induction false} KeptRowsAppend(a: seq<Row>, b: seq<Row>)
    ensures KeptRows(a + b) == KeptRows(a) + KeptRows(b)
  {
    if a == [] {
      assert a + b == b;
    } else {
      assert (a + b)[1..] == a[1..] + b;
      KeptRowsAppend(a[1..], b);
    }
  }

  lemma {:induction false} KeptRowsCount(rows: seq<Row>)
    ensures |KeptRows(rows)| == CountKept(rows)
    ensures forall r :: r in KeptRows(rows) <==> r in rows && KeepRow(r)
  {
    if rows != [] {
      KeptRowsCount(rows[1..]);
      assert rows == [rows[0]] + rows[1..];
    }
  }

  lemma RecordsAppend(a: seq<Row>, b: seq<Row>, parse: string -> Option<Value>, numText: real -> string)
    ensures Records(a + b, parse, numText) == Records(a, parse, numText) + Records(b, parse, numText)
  {
    var ra, rb, rab := Records(a, parse, numText), Records(b, parse, numText), Records(a + b, parse, numText);
    RecordsAt(a, parse, numText);
    RecordsAt(b, parse, numText);
    RecordsAt(a + b, parse, numText);
    forall i | 0 <= i < |rab| ensures rab[i] == (ra + rb)[i] {
      if i < |a| {
        assert (a + b)[i] == a[i];
      } else {
        assert (a + b)[i] == b[i - |a|];
      }
    }
  }

  lemma {:induction false} RecordsAt(kept: seq<Row>, parse: string -> Option<Value>, numText: real -> string)
    ensures |Records(kept, parse, numText)| == |kept|
    ensures forall i :: 0 <= i < |kept| ==> Records(kept, parse, numText)[i] == BuildRecord(kept[i], parse, numText)
  {
    if kept != [] {
      RecordsAt(kept[1..], parse, numText);
    }
  }

  /** The pipeline works row by row: processing a concatenation processes each
      part, in order. */
  lemma ProcessAppend(a: seq<Row>, b: seq<Row>, parse: string -> Option<Value>, numText: real -> string)
    ensures ProcessCsvData(a + b, parse, numText)
         == ProcessCsvData(a, parse, numText) + ProcessCsvData(b, parse, numText)
  {
    KeptRowsAppend(a, b);
    RecordsAppend(KeptRows(a), KeptRows(b), parse, numText);
  }

  /** A single row yields its record when it passes the filter and nothing
      otherwise. */
  lemma ProcessOne(row: Row, parse: string -> Option<Value>, numText: real -> string)
    ensures ProcessCsvData([row], parse, numText)
         == if KeepRow(row) then [BuildRecord(row, parse, numText)] else []
  {
    assert [row][1..] == [];
    assert KeptRows([row]) == if KeepRow(row) then [row] else [];
    assert Records([row], parse, numText) == [BuildRecord(row, parse, numText)];
  }

  /** One record per row that has more than one column and a truthy `model`,
      and nothing else: the output's length is the number of such rows, every
      kept row's record is in the output, and every output record comes from a
      kept row. */
  lemma ProcessSelectsKeptRows(rows: seq<Row>, parse: string -> Option<Value>, numText: real -> string)
    ensures |ProcessCsvData(rows, parse, numText)| == CountKept(rows)
    ensures forall r :: r in rows && KeepRow(r) ==> BuildRecord(r, parse, numText) in ProcessCsvData(rows, parse, numText)
    ensures forall j :: 0 <= j < |ProcessCsvData(rows, parse, numText)| ==>
              exists r :: r in rows && KeepRow(r) && ProcessCsvData(rows, parse, numText)[j] == BuildRecord(r, parse, numText)
  {
    KeptRowsCount(rows);
    var kept := KeptRows(rows);
    RecordsAt(kept, parse, numText);
    var out := ProcessCsvData(rows, parse, numText);
    forall r | r in rows && KeepRow(r) ensures BuildRecord(r, parse, numText) in out {
      var i :| 0 <= i < |kept| && kept[i] == r;
      assert out[i] == BuildRecord(r, parse, numText);
    }
    forall j | 0 <= j < |out|
      ensures exists r :: r in rows && KeepRow(r) && out[j] == BuildRecord(r, parse, numText)
    {
      assert kept[j] in kept;
    }
  }

  /** Every output record is fully shaped and carries its row's truthy `model`. */
  lemma ProcessedRecordsAreShaped(rows: seq<Row>, parse: string -> Option<Value>, numText: real -> string)
    ensures IsTemplate(CaseTemplate())
    ensures forall x :: x in ProcessCsvData(rows, parse, numText) ==>
              HasShape(x, CaseTemplate()) && Truthy(Prop(x, "model"))
  {
    CaseTemplateIsTemplate();
    KeptRowsCount(rows);
    var kept := KeptRows(rows);
    RecordsAt(kept, parse, numText);
    forall x | x in ProcessCsvData(rows, parse, numText)
      ensures HasShape(x, CaseTemplate()) && Truthy(Prop(x, "model"))
    {
      var i :| 0 <= i < |kept| && x == BuildRecord(kept[i], parse, numText);
      assert kept[i] in kept;
      RecordOfKeptRow(kept[i], parse, numText);
    }
  }

  /** The record of one kept row is fully shaped and has a truthy `model`. */
  lemma RecordOfKeptRow(row: Row, parse: string -> Option<Value>, numText: real -> string)
    requires KeepRow(row)
    ensures IsTemplate(CaseTemplate())
    ensures HasShape(BuildRecord(row, parse, numText), CaseTemplate())
    ensures Truthy(Prop(BuildRecord(row, parse, numText), "model"))
  {
    RecordHasCaseShape(Candidate(row, parse, numText));
    TextFieldOfRecord(row, "model", parse, numText);
  }

  /** A text column of a record holds `row[k] || ''`; for `model` of a kept row
      that is the row's own value. */
  lemma TextFieldOfRecord(row: Row, k: string, parse: string -> Option<Value>, numText: real -> string)
    requires k in TextColumns()
    ensures k in BuildRecord(row, parse, numText).fields
    ensures Prop(BuildRecord(row, parse, numText), k) == Or(Get(row, k), Str(""))
    ensures k == "model" && KeepRow(row) ==> Prop(BuildRecord(row, parse, numText), k) == Get(row, k)
  {
    CaseTemplateIsTemplate();
    TextColumnIsText(k);
    TextKeyDefault(k);
    var c := Candidate(row, parse, numText);
    CandidateAt(row, k, parse, numText);
    ScalarKey(c, CaseTemplate(), k);
  }

  /** A text column is neither `tumor_size` nor an embedded-object column, and
      the template gives it the default `''`. */
  lemma TextColumnIsText(k: string)
    requires k in TextColumns()
    ensures k != "tumor_size" && k !in ObjectColumns() && k in TextKeys()
  {
    if k == "model" {} else if k == "tumor_morphology" {} else if k == "adjacent_organ_invasion" {}
    else if k == "tumor_location" {} else if k == "peritoneal_seeding" {}
    else if k == "final_hematogenous_metastasis_status" {} else if k == "hematogenous_metastasis" {}
  }

  lemma CandidateAt(row: Row, k: string, parse: string -> Option<Value>, numText: real -> string)
    requires k in ObjectColumns() + TextColumns() + {"tumor_size"}
    ensures Prop(Candidate(row, parse, numText), k) == CandidateField(row, k, parse, numText)
  {
  }

  /** `tumor_size` holds `String(row.tumor_size)` when that cell is truthy and
      `''` otherwise. */
  lemma SizeFieldOfRecord(row: Row, parse: string -> Option<Value>, numText: real -> string)
    ensures "tumor_size" in BuildRecord(row, parse, numText).fields
    ensures var v := Get(row, "tumor_size");
      Prop(BuildRecord(row, parse, numText), "tumor_size")
        == if Truthy(v) then Str(JsString(v, numText)) else Str("")
  {
    CaseTemplateIsTemplate();
    TextKeyDefault("tumor_size");
    var c := Candidate(row, parse, numText);
    assert Prop(c, "tumor_size") == SizeCell(row, "tumor_size", numText);
    ScalarKey(c, CaseTemplate(), "tumor_size");
  }

  /** A column holding an embedded object is decoded and then normalised
      against its own sub-template, independently of every other column. */
  lemma ObjectFieldOfRecord(row: Row, k: string, parse: string -> Option<Value>, numText: real -> string)
    requires k in FindingKeys() || k == "artery" || k == "vein"
    ensures IsTemplate(CaseDefault(k))
    ensures k in BuildRecord(row, parse, numText).fields
    ensures Prop(BuildRecord(row, parse, numText), k)
         == StrictClean(SafeJsonParse(Get(row, k), parse), CaseDefault(k))
  {
    CaseTemplateIsTemplate();
    ObjectColumn(k);
    var c := Candidate(row, parse, numText);
    CandidateAt(row, k, parse, numText);
    ObjectKey(c, CaseTemplate(), k);
  }

  /** The columns whose template default is an object all go through
      `safeJSONParse`. */
  lemma ObjectColumn(k: string)
    requires k in FindingKeys() || k == "artery" || k == "vein"
    ensures k in ObjectColumns() && k != "tumor_size"
    ensures k in CaseTemplate().fields && CaseTemplate().fields[k] == CaseDefault(k)
    ensures IsTemplate(CaseDefault(k)) && CaseDefault(k).Obj?
  {
    CaseTemplateIsTemplate();
    if k in FindingKeys() {
      FindingKeyDefault(k);
    } else {
      GroupDefaults();
    }
  }
}
