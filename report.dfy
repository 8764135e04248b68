/**
 * The classification engine of src/PancreasCancerReport.js: the code-to-label
 * table, the vascular and distant-spread classifiers, the overall verdict and
 * the list of causes shown beside it. The functions work on the same strings
 * the source returns ("Resectable", "Locally Advanced", ...); status codes are
 * whatever values the normalised record holds.
 */
module Report {
  import opened JsValues

  // The verdict strings of the source.
  const Resectable := "Resectable"
  const Borderline := "Borderline"
  const LocallyAdvanced := "Locally Advanced"
  const Indeterminate := "Indeterminate"
  const Unresectable := "Unresectable"
  const PotentiallyBorderline := "Potentially Borderline"
  const PotentiallyResectable := "Potentially Resectable"

  // The causes of the source.
  const VascularInvolvement := "Vascular Involvement"
  const DistantNodeInvolvement := "Distant Lymph Node Involvement"
  const HematogenousMetastasis := "Hematogenous Metastasis"
  const PeritonealSeeding := "Peritoneal Seeding"
  const IndeterminateDistantNode := "Indeterminate Distant Lymph Node Involvement"
  const IndeterminateHematogenous := "Indeterminate Hematogenous Metastasis"
  const IndeterminatePeritoneal := "Indeterminate Peritoneal Seeding"

  /** `statusMapping`: the display label of every known code. */
  function StatusMapping(): map<string, string> {
    map[
      "D0" := "Negative", "D1" := "Positive",
      "A0" := "Resectable", "A1" := "Borderline", "A2" := "Locally Advanced", "A9" := "Resectable",
      "V0" := "Resectable", "V1" := "Borderline", "V2" := "Locally Advanced", "V9" := "Resectable",
      "I0" := "Resectable", "I1" := "Borderline", "I2" := "Locally Advanced", "I9" := "Resectable",
      "VAR1" := "Present", "VAR9" := "Absent",
      "LN0" := "Negative", "LN1" := "Indeterminate", "LN2" := "Positive",
      "H0" := "Negative", "H1" := "Indeterminate", "H2" := "Positive",
      "P0" := "Negative", "P1" := "Indeterminate", "P2" := "Positive"]
  }

  /** The 25 known codes. */
  lemma StatusMappingIsComplete()
    ensures StatusMapping().Keys ==
      {"D0", "D1", "A0", "A1", "A2", "A9", "V0", "V1", "V2", "V9", "I0", "I1", "I2", "I9",
       "VAR1", "VAR9", "LN0", "LN1", "LN2", "H0", "H1", "H2", "P0", "P1", "P2"}
  {
  }

  /** Every label in the table is non-empty, hence truthy. */
  lemma StatusLabelsNonEmpty()
    ensures forall c :: c in StatusMapping() ==> StatusMapping()[c] != ""
  {
  }

  /** `getStatusDisplay(statusCode)`: `statusMapping[statusCode] || statusCode || 'N/A'`. */
  function GetStatusDisplay(code: Value): (r: Value)
    ensures code.Str? && code.s in StatusMapping() ==> r == Str(StatusMapping()[code.s])
    ensures !(code.Str? && code.s in StatusMapping()) && Truthy(code) ==> r == code
    ensures !Truthy(code) ==> r == Str("N/A")
  {
    var mapped := if code.Str? && code.s in StatusMapping() then Str(StatusMapping()[code.s]) else Undefined;
    StatusLabelsNonEmpty();
    Or(Or(mapped, code), Str("N/A"))
  }

  /** `statuses.some(pred)` */
  predicate Any(statuses: seq<Value>, pred: Value -> bool)
    ensures Any(statuses, pred) <==> exists i :: 0 <= i < |statuses| && pred(statuses[i])
  {
    if statuses == [] then false
    else pred(statuses[0]) || Any(statuses[1..], pred)
  }

  predicate IsLocallyAdvancedCode(s: Value) { s == Str("A2") || s == Str("V2") || s == Str("I2") }
  predicate IsBorderlineCode(s: Value) { s == Str("A1") || s == Str("V1") || s == Str("I1") }
  predicate IsPositiveSpreadCode(s: Value) { s == Str("LN2") || s == Str("H2") || s == Str("P2") }
  predicate IsIndeterminateSpreadCode(s: Value) { s == Str("LN1") || s == Str("H1") || s == Str("P1") }

  /** `getResectabilityStatus(statuses)` */
  function GetResectabilityStatus(statuses: seq<Value>): (r: string)
    ensures r == LocallyAdvanced <==> exists i :: 0 <= i < |statuses| && IsLocallyAdvancedCode(statuses[i])
    ensures r == Borderline <==>
              (forall i :: 0 <= i < |statuses| ==> !IsLocallyAdvancedCode(statuses[i])) &&
              (exists i :: 0 <= i < |statuses| && IsBorderlineCode(statuses[i]))
    ensures r == Resectable <==>
              forall i :: 0 <= i < |statuses| ==> !IsLocallyAdvancedCode(statuses[i]) && !IsBorderlineCode(statuses[i])
  {
    if Any(statuses, IsLocallyAdvancedCode) then LocallyAdvanced
    else if Any(statuses, IsBorderlineCode) then Borderline
    else Resectable
  }

  /** `getMetastasisStatus(statuses)` */
  function GetMetastasisStatus(statuses: seq<Value>): (r: string)
    ensures r == Unresectable <==> exists i :: 0 <= i < |statuses| && IsPositiveSpreadCode(statuses[i])
    ensures r == Indeterminate <==>
              (forall i :: 0 <= i < |statuses| ==> !IsPositiveSpreadCode(statuses[i])) &&
              (exists i :: 0 <= i < |statuses| && IsIndeterminateSpreadCode(statuses[i]))
    ensures r == Resectable <==>
              forall i :: 0 <= i < |statuses| ==> !IsPositiveSpreadCode(statuses[i]) && !IsIndeterminateSpreadCode(statuses[i])
  {
    if Any(statuses, IsPositiveSpreadCode) then Unresectable
    else if Any(statuses, IsIndeterminateSpreadCode) then Indeterminate
    else Resectable
  }

  /** `getOverallResectability(vascular, metastasis)` */
  function GetOverallResectability(vascular: string, metastasis: string): string {
    if vascular == LocallyAdvanced || metastasis == Unresectable then Unresectable
    else if metastasis == Indeterminate then
      (if vascular == Borderline then PotentiallyBorderline else PotentiallyResectable)
    else vascular
  }

  // Severity ranks, for stating monotonicity.
  function VascularRank(v: string): nat {
    if v == LocallyAdvanced then 2 else if v == Borderline then 1 else 0
  }

  function MetastasisRank(m: string): nat {
    if m == Unresectable then 2 else if m == Indeterminate then 1 else 0
  }

  function OverallRank(o: string): nat {
    if o == Unresectable then 4
    else if o == PotentiallyBorderline then 3
    else if o == Borderline then 2
    else if o == PotentiallyResectable then 1
    else 0
  }

  /** Both classifiers depend only on which codes occur: a list whose codes all
      occur in another list is never more severe. */
  lemma ClassifiersMonotone(s1: seq<Value>, s2: seq<Value>)
    requires forall x :: x in s1 ==> x in s2
    ensures VascularRank(GetResectabilityStatus(s1)) <= VascularRank(GetResectabilityStatus(s2))
    ensures MetastasisRank(GetMetastasisStatus(s1)) <= MetastasisRank(GetMetastasisStatus(s2))
  {
    forall i | 0 <= i < |s1| ensures exists j :: 0 <= j < |s2| && s2[j] == s1[i] {
      assert s1[i] in s2;
    }
  }

  /** Order and duplicates are irrelevant: lists with the same codes classify alike. */
  lemma ClassifiersSeeOnlyTheSetOfCodes(s1: seq<Value>, s2: seq<Value>)
    requires forall x :: x in s1 <==> x in s2
    ensures GetResectabilityStatus(s1) == GetResectabilityStatus(s2)
    ensures GetMetastasisStatus(s1) == GetMetastasisStatus(s2)
  {
    ClassifiersMonotone(s1, s2);
    ClassifiersMonotone(s2, s1);
  }

  /** Appending a code never lowers either severity. */
  lemma AppendNeverLowers(s: seq<Value>, c: Value)
    ensures VascularRank(GetResectabilityStatus(s)) <= VascularRank(GetResectabilityStatus(s + [c]))
    ensures MetastasisRank(GetMetastasisStatus(s)) <= MetastasisRank(GetMetastasisStatus(s + [c]))
  {
    ClassifiersMonotone(s, s + [c]);
  }

  /** The overall verdict is monotone in both axes: a more severe vascular or
      spread status never yields a less severe verdict. */
  lemma OverallMonotone(v1: string, v2: string, m1: string, m2: string)
    requires v1 in {Resectable, Borderline, LocallyAdvanced} && v2 in {Resectable, Borderline, LocallyAdvanced}
    requires m1 in {Resectable, Indeterminate, Unresectable} && m2 in {Resectable, Indeterminate, Unresectable}
    requires VascularRank(v1) <= VascularRank(v2) && MetastasisRank(m1) <= MetastasisRank(m2)
    ensures OverallRank(GetOverallResectability(v1, m1)) <= OverallRank(GetOverallResectability(v2, m2))
  {
  }

  /** The lattice of verdicts: "Locally Advanced" and "Unresectable" absorb
      everything; otherwise an indeterminate spread turns the vascular reading
      into its "Potentially" form; otherwise the vascular reading is the verdict. */
  lemma OverallLattice(v: string, m: string)
    requires v in {Resectable, Borderline, LocallyAdvanced}
    requires m in {Resectable, Indeterminate, Unresectable}
    ensures var o := GetOverallResectability(v, m);
      && (o == Unresectable <==> v == LocallyAdvanced || m == Unresectable)
      && (o == PotentiallyBorderline <==> v == Borderline && m == Indeterminate)
      && (o == PotentiallyResectable <==> v == Resectable && m == Indeterminate)
      && (m == Resectable && v != LocallyAdvanced ==> o == v)
  {
  }

  /** `[...].filter(Boolean)` */
  function FilterTruthy(s: seq<Value>): (r: seq<Value>)
    ensures forall x :: x in r <==> x in s && Truthy(x)
  {
    if s == [] then []
    else (if Truthy(s[0]) then [s[0]] else []) + FilterTruthy(s[1..])
  }

  /** Dropping falsy entries cannot change whether some entry passes a test
      that only truthy values pass. */
  lemma AnyIgnoresFalsy(s: seq<Value>, pred: Value -> bool)
    requires forall x :: pred(x) ==> Truthy(x)
    ensures Any(FilterTruthy(s), pred) == Any(s, pred)
  {
    var f := FilterTruthy(s);
    if Any(s, pred) {
      var i :| 0 <= i < |s| && pred(s[i]);
      assert s[i] in f;
      var j :| 0 <= j < |f| && f[j] == s[i];
    }
    if Any(f, pred) {
      var j :| 0 <= j < |f| && pred(f[j]);
      assert f[j] in s;
    }
  }

  /** Dropping empty or absent statuses affects neither classifier. */
  lemma FilteringIsInvisible(s: seq<Value>)
    ensures GetResectabilityStatus(FilterTruthy(s)) == GetResectabilityStatus(s)
    ensures GetMetastasisStatus(FilterTruthy(s)) == GetMetastasisStatus(s)
  {
    AnyIgnoresFalsy(s, IsLocallyAdvancedCode);
    AnyIgnoresFalsy(s, IsBorderlineCode);
    AnyIgnoresFalsy(s, IsPositiveSpreadCode);
    AnyIgnoresFalsy(s, IsIndeterminateSpreadCode);
  }

  function Status(finding: Value): Value { Prop(finding, "status") }

  function DistantNodeStatus(data: Value): Value { Status(Prop(data, "distant_lymph_node")) }
  function HematogenousStatus(data: Value): Value { Prop(data, "final_hematogenous_metastasis_status") }
  function PeritonealStatus(data: Value): Value { Prop(data, "final_peritoneal_seeding_status") }

  /** The seven vascular slots, before filtering (src/PancreasCancerReport.js:79-86). */
  function VascularSlots(data: Value): seq<Value> {
    var artery, vein := Prop(data, "artery"), Prop(data, "vein");
    [Status(Prop(artery, "celiac_axis")),
     Status(Prop(artery, "common_hepatic_artery")),
     Status(Prop(artery, "superior_mesenteric_artery")),
     Status(Prop(vein, "main_portal_vein")),
     Status(Prop(vein, "superior_mesenteric_vein")),
     Status(Prop(data, "inferior_vena_cava")),
     Status(Prop(data, "aorta"))]
  }

  /** The three spread slots, before filtering (src/PancreasCancerReport.js:90-93). */
  function MetastasisSlots(data: Value): seq<Value> {
    [DistantNodeStatus(data), HematogenousStatus(data), PeritonealStatus(data)]
  }

  /** The causes whose guard holds, in the order given. */
  function Guarded(entries: seq<(string, bool)>): seq<string> {
    if entries == [] then []
    else Keep(entries[0]) + Guarded(entries[1..])
  }

  function Keep(entry: (string, bool)): seq<string> {
    if entry.1 then [entry.0] else []
  }

  lemma GuardedOfThree(a: (string, bool), b: (string, bool), c: (string, bool))
    ensures Guarded([a, b, c]) == Keep(a) + Keep(b) + Keep(c)
  {
    assert [a, b, c][1..] == [b, c];
    assert [b, c][1..] == [c];
    assert [c][1..] == [];
    assert Guarded([c]) == Keep(c);
    assert Guarded([b, c]) == Keep(b) + Keep(c);
  }

  lemma GuardedOfFour(a: (string, bool), b: (string, bool), c: (string, bool), d: (string, bool))
    ensures Guarded([a, b, c, d]) == Keep(a) + Keep(b) + Keep(c) + Keep(d)
  {
    assert [a, b, c, d][1..] == [b, c, d];
    GuardedOfThree(b, c, d);
  }

  /** `getResectabilityCauses()`, as a specification: each branch keeps the
      entries of a fixed, ordered list whose own test holds. */
  function ResectabilityCauses(data: Value, vascular: string, overall: string): seq<string> {
    if overall == Unresectable then
      Guarded([(VascularInvolvement, vascular == LocallyAdvanced),
               (DistantNodeInvolvement, DistantNodeStatus(data) == Str("LN2")),
               (HematogenousMetastasis, HematogenousStatus(data) == Str("H2")),
               (PeritonealSeeding, PeritonealStatus(data) == Str("P2"))])
    else if overall == Borderline then
      [VascularInvolvement]
    else if overall == PotentiallyBorderline || overall == PotentiallyResectable then
      Guarded([(IndeterminateDistantNode, DistantNodeStatus(data) == Str("LN1")),
               (IndeterminateHematogenous, HematogenousStatus(data) == Str("H1")),
               (IndeterminatePeritoneal, PeritonealStatus(data) == Str("P1"))])
    else []
  }

  /** `getResectabilityCauses()`: a local `causes` array filled by `push`. */
  method GetResectabilityCauses(data: Value, vascular: string, overall: string) returns (causes: seq<string>)
    ensures causes == ResectabilityCauses(data, vascular, overall)
  {
    var ln, h, p := DistantNodeStatus(data), HematogenousStatus(data), PeritonealStatus(data);
    if overall == Unresectable {
      ghost var e1, e2, e3, e4 := (VascularInvolvement, vascular == LocallyAdvanced),
        (DistantNodeInvolvement, ln == Str("LN2")), (HematogenousMetastasis, h == Str("H2")),
        (PeritonealSeeding, p == Str("P2"));
      causes := [];
      if vascular == LocallyAdvanced { causes := causes + [VascularInvolvement]; }
      assert causes == Keep(e1);
      if ln == Str("LN2") { causes := causes + [DistantNodeInvolvement]; }
      assert causes == Keep(e1) + Keep(e2);
      if h == Str("H2") { causes := causes + [HematogenousMetastasis]; }
      assert causes == Keep(e1) + Keep(e2) + Keep(e3);
      if p == Str("P2") { causes := causes + [PeritonealSeeding]; }
      assert causes == Keep(e1) + Keep(e2) + Keep(e3) + Keep(e4);
      GuardedOfFour(e1, e2, e3, e4);
    } else if overall == Borderline {
      causes := [VascularInvolvement];
    } else if overall == PotentiallyBorderline || overall == PotentiallyResectable {
      ghost var e1, e2, e3 := (IndeterminateDistantNode, ln == Str("LN1")),
        (IndeterminateHematogenous, h == Str("H1")), (IndeterminatePeritoneal, p == Str("P1"));
      causes := [];
      if ln == Str("LN1") { causes := causes + [IndeterminateDistantNode]; }
      assert causes == Keep(e1);
      if h == Str("H1") { causes := causes + [IndeterminateHematogenous]; }
      assert causes == Keep(e1) + Keep(e2);
      if p == Str("P1") { causes := causes + [IndeterminatePeritoneal]; }
      assert causes == Keep(e1) + Keep(e2) + Keep(e3);
      GuardedOfThree(e1, e2, e3);
    } else {
      causes := [];
    }
  }

  /** `a` is `b` with some entries left out, order kept. */
  predicate IsSubsequence(a: seq<string>, b: seq<string>) {
    a == [] ||
    (b != [] && ((a[0] == b[0] && IsSubsequence(a[1..], b[1..])) || IsSubsequence(a, b[1..])))
  }

  function Names(entries: seq<(string, bool)>): seq<string> {
    if entries == [] then [] else [entries[0].0] + Names(entries[1..])
  }

  /** The guarded list keeps the entries' order and holds a name exactly when
      an entry carrying it passes its test. */
  lemma {:induction false} GuardedKeepsOrder(entries: seq<(string, bool)>)
    ensures IsSubsequence(Guarded(entries), Names(entries))
    ensures forall n :: n in Guarded(entries) <==> exists i :: 0 <= i < |entries| && entries[i] == (n, true)
  {
    if entries != [] {
      var tail := entries[1..];
      GuardedKeepsOrder(tail);
      var rest := Guarded(tail);
      assert Names(entries)[1..] == Names(tail);
      var names := Names(entries);
      if entries[0].1 {
        var g := Guarded(entries);
        assert g == [entries[0].0] + rest;
        assert g[1..] == rest && g[0] == names[0];
        assert IsSubsequence(g[1..], names[1..]);
      } else {
        assert Guarded(entries) == rest;
        assert IsSubsequence(rest, names[1..]);
      }
      forall n | n in Guarded(entries) ensures exists i :: 0 <= i < |entries| && entries[i] == (n, true) {
        if n in rest {
          var i :| 0 <= i < |tail| && tail[i] == (n, true);
          assert entries[i + 1] == (n, true);
        } else {
          assert entries[0] == (n, true);
        }
      }
      forall n | exists i :: 0 <= i < |entries| && entries[i] == (n, true) ensures n in Guarded(entries) {
        var i :| 0 <= i < |entries| && entries[i] == (n, true);
        if i > 0 {
          assert tail[i - 1] == (n, true);
        }
      }
    }
  }

  /** The fixed cause orders of the two enumerating branches. */
  function SpreadCauseOrder(): seq<string> {
    [VascularInvolvement, DistantNodeInvolvement, HematogenousMetastasis, PeritonealSeeding]
  }

  function IndeterminateCauseOrder(): seq<string> {
    [IndeterminateDistantNode, IndeterminateHematogenous, IndeterminatePeritoneal]
  }

  /** For an "Unresectable" verdict the causes keep the fixed order and each
      cause is listed exactly when its own test holds. */
  lemma UnresectableCauses(data: Value, vascular: string)
    ensures var c := ResectabilityCauses(data, vascular, Unresectable);
      && IsSubsequence(c, SpreadCauseOrder())
      && (VascularInvolvement in c <==> vascular == LocallyAdvanced)
      && (DistantNodeInvolvement in c <==> DistantNodeStatus(data) == Str("LN2"))
      && (HematogenousMetastasis in c <==> HematogenousStatus(data) == Str("H2"))
      && (PeritonealSeeding in c <==> PeritonealStatus(data) == Str("P2"))
      && (c == [] <==> vascular != LocallyAdvanced && DistantNodeStatus(data) != Str("LN2") &&
                       HematogenousStatus(data) != Str("H2") && PeritonealStatus(data) != Str("P2"))
  {
    assert |VascularInvolvement| == 20 && |DistantNodeInvolvement| == 30;
    assert |HematogenousMetastasis| == 23 && |PeritonealSeeding| == 18;
    GuardedOfFourDistinct((VascularInvolvement, vascular == LocallyAdvanced),
      (DistantNodeInvolvement, DistantNodeStatus(data) == Str("LN2")),
      (HematogenousMetastasis, HematogenousStatus(data) == Str("H2")),
      (PeritonealSeeding, PeritonealStatus(data) == Str("P2")));
  }

  /** Four entries with distinct names: the guarded list keeps their order and
      holds each name exactly when its test passes. */
  lemma GuardedOfFourDistinct(a: (string, bool), b: (string, bool), c: (string, bool), d: (string, bool))
    requires a.0 != b.0 && a.0 != c.0 && a.0 != d.0 && b.0 != c.0 && b.0 != d.0 && c.0 != d.0
    ensures var g := Guarded([a, b, c, d]);
      && IsSubsequence(g, [a.0, b.0, c.0, d.0])
      && (a.0 in g <==> a.1) && (b.0 in g <==> b.1) && (c.0 in g <==> c.1) && (d.0 in g <==> d.1)
      && (g == [] <==> !a.1 && !b.1 && !c.1 && !d.1)
  {
    var e := [a, b, c, d];
    GuardedKeepsOrder(e);
    NamesOfFour(a, b, c, d);
    var g := Guarded(e);
    if g != [] {
      assert g[0] in g;
    }
    assert e[0] == a && e[1] == b && e[2] == c && e[3] == d;
  }

  /** Three entries with distinct names, likewise. */
  lemma GuardedOfThreeDistinct(a: (string, bool), b: (string, bool), c: (string, bool))
    requires a.0 != b.0 && a.0 != c.0 && b.0 != c.0
    ensures var g := Guarded([a, b, c]);
      && IsSubsequence(g, [a.0, b.0, c.0])
      && (a.0 in g <==> a.1) && (b.0 in g <==> b.1) && (c.0 in g <==> c.1)
      && (g == [] <==> !a.1 && !b.1 && !c.1)
  {
    var e := [a, b, c];
    GuardedKeepsOrder(e);
    NamesOfThree(a, b, c);
    var g := Guarded(e);
    if g != [] {
      assert g[0] in g;
    }
    assert e[0] == a && e[1] == b && e[2] == c;
  }

  lemma NamesOfThree(a: (string, bool), b: (string, bool), c: (string, bool))
    ensures Names([a, b, c]) == [a.0, b.0, c.0]
  {
    assert [a, b, c][1..] == [b, c];
    assert [b, c][1..] == [c];
    assert [c][1..] == [];
    assert Names([c]) == [c.0];
  }

  lemma NamesOfFour(a: (string, bool), b: (string, bool), c: (string, bool), d: (string, bool))
    ensures Names([a, b, c, d]) == [a.0, b.0, c.0, d.0]
  {
    assert [a, b, c, d][1..] == [b, c, d];
    NamesOfThree(b, c, d);
  }

  /** For a "Potentially ..." verdict the causes are the indeterminate ones,
      in the fixed order, each listed exactly when its own test holds. */
  lemma PotentialCauses(data: Value, vascular: string, overall: string)
    requires overall == PotentiallyBorderline || overall == PotentiallyResectable
    ensures var c := ResectabilityCauses(data, vascular, overall);
      && IsSubsequence(c, IndeterminateCauseOrder())
      && (IndeterminateDistantNode in c <==> DistantNodeStatus(data) == Str("LN1"))
      && (IndeterminateHematogenous in c <==> HematogenousStatus(data) == Str("H1"))
      && (IndeterminatePeritoneal in c <==> PeritonealStatus(data) == Str("P1"))
      && (c == [] <==> DistantNodeStatus(data) != Str("LN1") && HematogenousStatus(data) != Str("H1") &&
                       PeritonealStatus(data) != Str("P1"))
  {
    assert |IndeterminateDistantNode| == 44 && |IndeterminateHematogenous| == 37;
    assert |IndeterminatePeritoneal| == 32;
    GuardedOfThreeDistinct((IndeterminateDistantNode, DistantNodeStatus(data) == Str("LN1")),
      (IndeterminateHematogenous, HematogenousStatus(data) == Str("H1")),
      (IndeterminatePeritoneal, PeritonealStatus(data) == Str("P1")));
  }

  /** The "Borderline" verdict always names the one generic cause, whichever
      vessel triggered it, and a "Resectable" verdict names none. */
  lemma FixedCauses(data: Value, vascular: string)
    ensures ResectabilityCauses(data, vascular, Borderline) == [VascularInvolvement]
    ensures ResectabilityCauses(data, vascular, Resectable) == []
  {
  }

  /** What the report shows for one case record. */
  datatype Verdict = Verdict(vascular: string, metastasis: string, overall: string, causes: seq<string>)

  /** The verdict of a record: the slots are collected and filtered, classified
      on both axes, combined, and explained. */
  function Classify(data: Value): Verdict {
    var vascular := GetResectabilityStatus(FilterTruthy(VascularSlots(data)));
    var metastasis := GetMetastasisStatus(FilterTruthy(MetastasisSlots(data)));
    var overall := GetOverallResectability(vascular, metastasis);
    Verdict(vascular, metastasis, overall, ResectabilityCauses(data, vascular, overall))
  }

  /** The filter in front of the classifiers can be ignored: the verdict is read
      straight off the raw slots. */
  lemma ClassifyReadsRawSlots(data: Value)
    ensures Classify(data).vascular == GetResectabilityStatus(VascularSlots(data))
    ensures Classify(data).metastasis == GetMetastasisStatus(MetastasisSlots(data))
    ensures Classify(data).vascular in {Resectable, Borderline, LocallyAdvanced}
    ensures Classify(data).metastasis in {Resectable, Indeterminate, Unresectable}
    ensures Classify(data).overall in {Resectable, Borderline, Unresectable, PotentiallyBorderline, PotentiallyResectable}
  {
    FilteringIsInvisible(VascularSlots(data));
    FilteringIsInvisible(MetastasisSlots(data));
  }

  /** The spread classifier looks at every slot for every positive code, while
      the causes look at each slot for its own code only. So an "Unresectable"
      verdict comes with no cause exactly when no vessel is locally advanced,
      some spread slot holds a positive code, and none holds its own. */
  lemma UnresectableWithoutCauses(data: Value)
    ensures var v := Classify(data);
      v.overall == Unresectable && v.causes == [] <==>
        && v.vascular != LocallyAdvanced
        && (exists i :: 0 <= i < |MetastasisSlots(data)| && IsPositiveSpreadCode(MetastasisSlots(data)[i]))
        && DistantNodeStatus(data) != Str("LN2")
        && HematogenousStatus(data) != Str("H2")
        && PeritonealStatus(data) != Str("P2")
  {
    var v := Classify(data);
    ClassifyReadsRawSlots(data);
    OverallLattice(v.vascular, v.metastasis);
    assert v.causes == ResectabilityCauses(data, v.vascular, v.overall);
    UnresectableCauses(data, v.vascular);
  }

  /** A record whose hematogenous slot holds the code "LN2" is "Unresectable"
      with an empty cause list. */
  lemma CrossFamilyCodeGivesNoCause(data: Value)
    requires data == Obj(map["final_hematogenous_metastasis_status" := Str("LN2")])
    ensures Classify(data).overall == Unresectable
    ensures Classify(data).causes == []
  {
    CrossFamilySlots(data);
    ClassifyReadsRawSlots(data);
    assert Classify(data).vascular == Resectable;
    assert IsPositiveSpreadCode(MetastasisSlots(data)[1]);
    UnresectableWithoutCauses(data);
  }

  lemma CrossFamilySlots(data: Value)
    requires data == Obj(map["final_hematogenous_metastasis_status" := Str("LN2")])
    ensures VascularSlots(data) == [Undefined, Undefined, Undefined, Undefined, Undefined, Undefined, Undefined]
    ensures MetastasisSlots(data) == [Undefined, Str("LN2"), Undefined]
  {
    var m := data.fields;
    assert "artery" !in m && "vein" !in m && "inferior_vena_cava" !in m && "aorta" !in m;
    assert "distant_lymph_node" !in m && "final_peritoneal_seeding_status" !in m;
  }

  /** Each spread slot holds, if any code of the spread family, one of its own. */
  predicate SpreadSlotsInOwnFamily(data: Value) {
    var ln, h, p := DistantNodeStatus(data), HematogenousStatus(data), PeritonealStatus(data);
    && (IsPositiveSpreadCode(ln) || IsIndeterminateSpreadCode(ln) ==> ln == Str("LN1") || ln == Str("LN2"))
    && (IsPositiveSpreadCode(h) || IsIndeterminateSpreadCode(h) ==> h == Str("H1") || h == Str("H2"))
    && (IsPositiveSpreadCode(p) || IsIndeterminateSpreadCode(p) ==> p == Str("P1") || p == Str("P2"))
  }

  /** When every spread slot holds codes of its own family, a verdict other than
      "Resectable" always comes with at least one cause, and "Resectable" with none. */
  lemma CausesExplainVerdict(data: Value)
    requires SpreadSlotsInOwnFamily(data)
    ensures Classify(data).causes == [] <==> Classify(data).overall == Resectable
  {
    var v := Classify(data);
    ClassifyReadsRawSlots(data);
    OverallLattice(v.vascular, v.metastasis);
    if v.overall == Unresectable {
      UnresectableCauses(data, v.vascular);
      if v.vascular != LocallyAdvanced {
        PositiveSlotNamesItself(data);
      }
    } else if v.overall == PotentiallyBorderline || v.overall == PotentiallyResectable {
      PotentialCauses(data, v.vascular, v.overall);
      IndeterminateSlotNamesItself(data);
    }
  }

  lemma PositiveSlotNamesItself(data: Value)
    requires SpreadSlotsInOwnFamily(data)
    requires exists i :: 0 <= i < |MetastasisSlots(data)| && IsPositiveSpreadCode(MetastasisSlots(data)[i])
    ensures DistantNodeStatus(data) == Str("LN2") || HematogenousStatus(data) == Str("H2") ||
            PeritonealStatus(data) == Str("P2")
  {
    var slots := MetastasisSlots(data);
    var i :| 0 <= i < 3 && IsPositiveSpreadCode(slots[i]);
  }

  lemma IndeterminateSlotNamesItself(data: Value)
    requires SpreadSlotsInOwnFamily(data)
    requires forall i :: 0 <= i < |MetastasisSlots(data)| ==> !IsPositiveSpreadCode(MetastasisSlots(data)[i])
    requires exists i :: 0 <= i < |MetastasisSlots(data)| && IsIndeterminateSpreadCode(MetastasisSlots(data)[i])
    ensures DistantNodeStatus(data) == Str("LN1") || HematogenousStatus(data) == Str("H1") ||
            PeritonealStatus(data) == Str("P1")
  {
    var slots := MetastasisSlots(data);
    var i :| 0 <= i < 3 && IsIndeterminateSpreadCode(slots[i]);
    assert !IsPositiveSpreadCode(slots[i]);
  }

  /** The table's labels agree with the classifiers' code sets. */
  lemma LabelsAgreeWithClassifiers(c: Value)
    ensures IsLocallyAdvancedCode(c) ==> GetStatusDisplay(c) == Str(LocallyAdvanced)
    ensures IsBorderlineCode(c) ==> GetStatusDisplay(c) == Str(Borderline)
    ensures IsPositiveSpreadCode(c) ==> GetStatusDisplay(c) == Str("Positive")
    ensures IsIndeterminateSpreadCode(c) ==> GetStatusDisplay(c) == Str("Indeterminate")
  {
    LocallyAdvancedLabels();
    BorderlineLabels();
    PositiveLabels();
    IndeterminateLabels();
  }

  lemma LocallyAdvancedLabels()
    ensures "A2" in StatusMapping() && "V2" in StatusMapping() && "I2" in StatusMapping()
    ensures StatusMapping()["A2"] == StatusMapping()["V2"] == StatusMapping()["I2"] == LocallyAdvanced
  {
  }

  lemma BorderlineLabels()
    ensures "A1" in StatusMapping() && "V1" in StatusMapping() && "I1" in StatusMapping()
    ensures StatusMapping()["A1"] == StatusMapping()["V1"] == StatusMapping()["I1"] == Borderline
  {
  }

  lemma PositiveLabels()
    ensures "LN2" in StatusMapping() && "H2" in StatusMapping() && "P2" in StatusMapping()
    ensures StatusMapping()["LN2"] == StatusMapping()["H2"] == StatusMapping()["P2"] == "Positive"
  {
  }

  lemma IndeterminateLabels()
    ensures "LN1" in StatusMapping() && "H1" in StatusMapping() && "P1" in StatusMapping()
    ensures StatusMapping()["LN1"] == StatusMapping()["H1"] == StatusMapping()["P1"] == "Indeterminate"
  {
  }

  /** The precedence rules on small inputs: escalation dominates, and the empty
      list is "Resectable" on both axes. */
  lemma ClassifierExamples()
    ensures GetResectabilityStatus([Str("A0"), Str("V1")]) == Borderline
    ensures GetResectabilityStatus([Str("A2"), Str("V1")]) == LocallyAdvanced
    ensures GetResectabilityStatus([]) == Resectable
    ensures GetMetastasisStatus([Str("LN1"), Str("H2")]) == Unresectable
    ensures GetMetastasisStatus([Str("LN1")]) == Indeterminate
    ensures GetMetastasisStatus([]) == Resectable
  {
    assert IsBorderlineCode([Str("A0"), Str("V1")][1]);
    assert IsLocallyAdvancedCode([Str("A2"), Str("V1")][0]);
    assert IsPositiveSpreadCode([Str("LN1"), Str("H2")][1]);
    assert IsIndeterminateSpreadCode([Str("LN1")][0]);
  }

  /** A locally advanced tumour with distant nodes "LN2", hematogenous "H0" and
      peritoneal "P2" lists three causes, in the fixed order. */
  lemma CausesCompletenessExample(data: Value)
    requires DistantNodeStatus(data) == Str("LN2")
    requires HematogenousStatus(data) == Str("H0")
    requires PeritonealStatus(data) == Str("P2")
    ensures ResectabilityCauses(data, LocallyAdvanced, Unresectable)
         == [VascularInvolvement, DistantNodeInvolvement, PeritonealSeeding]
  {
    GuardedOfFour((VascularInvolvement, true), (DistantNodeInvolvement, true),
                  (HematogenousMetastasis, false), (PeritonealSeeding, true));
  }

  /** Any locally advanced vessel makes the case "Unresectable", and the
      vascular cause then heads the list. */
  lemma LocallyAdvancedVesselIsUnresectable(data: Value)
    requires exists i :: 0 <= i < |VascularSlots(data)| && IsLocallyAdvancedCode(VascularSlots(data)[i])
    ensures Classify(data).vascular == LocallyAdvanced
    ensures Classify(data).overall == Unresectable
    ensures Classify(data).causes != [] && Classify(data).causes[0] == VascularInvolvement
  {
    ClassifyReadsRawSlots(data);
    var c := ResectabilityCauses(data, LocallyAdvanced, Unresectable);
    UnresectableCauses(data, LocallyAdvanced);
    GuardedOfFour((VascularInvolvement, true),
                  (DistantNodeInvolvement, DistantNodeStatus(data) == Str("LN2")),
                  (HematogenousMetastasis, HematogenousStatus(data) == Str("H2")),
                  (PeritonealSeeding, PeritonealStatus(data) == Str("P2")));
  }

  /** With no spread slot holding a positive or indeterminate code the spread
      reading is "Resectable". */
  lemma NoSpreadCodeIsResectable(data: Value)
    requires forall i :: 0 <= i < |MetastasisSlots(data)| ==>
               !IsPositiveSpreadCode(MetastasisSlots(data)[i]) && !IsIndeterminateSpreadCode(MetastasisSlots(data)[i])
    ensures Classify(data).metastasis == Resectable
  {
    ClassifyReadsRawSlots(data);
  }

  /** Only the vascular cause is listed when no spread slot holds its own
      positive code. */
  lemma OnlyVascularCause(data: Value)
    requires DistantNodeStatus(data) != Str("LN2")
    requires HematogenousStatus(data) != Str("H2")
    requires PeritonealStatus(data) != Str("P2")
    ensures ResectabilityCauses(data, LocallyAdvanced, Unresectable) == [VascularInvolvement]
  {
    GuardedOfFour((VascularInvolvement, true), (DistantNodeInvolvement, false),
                  (HematogenousMetastasis, false), (PeritonealSeeding, false));
  }

  /** A case whose celiac axis is "A2" and whose spread slots are all negative is
      "Unresectable" for its vascular involvement alone, whatever its other
      vessels hold. */
  lemma LocallyAdvancedCaseExample(data: Value)
    requires Status(Prop(Prop(data, "artery"), "celiac_axis")) == Str("A2")
    requires DistantNodeStatus(data) == Str("LN0")
    requires HematogenousStatus(data) == Str("H0")
    requires PeritonealStatus(data) == Str("P0")
    ensures Classify(data) == Verdict(LocallyAdvanced, Resectable, Unresectable, [VascularInvolvement])
  {
    CeliacAxisA2(data);
    NegativeSpreadSlots(data);
    OnlyVascularCause(data);
  }

  lemma CeliacAxisA2(data: Value)
    requires Status(Prop(Prop(data, "artery"), "celiac_axis")) == Str("A2")
    ensures Classify(data).vascular == LocallyAdvanced
    ensures Classify(data).overall == Unresectable
  {
    assert IsLocallyAdvancedCode(VascularSlots(data)[0]);
    LocallyAdvancedVesselIsUnresectable(data);
  }

  lemma NegativeSpreadSlots(data: Value)
    requires DistantNodeStatus(data) == Str("LN0")
    requires HematogenousStatus(data) == Str("H0")
    requires PeritonealStatus(data) == Str("P0")
    ensures Classify(data).metastasis == Resectable
  {
    assert MetastasisSlots(data) == [Str("LN0"), Str("H0"), Str("P0")];
    NoSpreadCodeIsResectable(data);
  }
}
