/**
 * How the two halves meet: the report classifies the normalised record that
 * `ensureDataStructure` produced (src/App.js), while its slots are read with
 * optional chaining (src/PancreasCancerReport.js). Normalisation only turns
 * absent statuses into `''`, which `filter(Boolean)` drops again, so the
 * verdict is the one the raw candidate object would have had.
 */
module Pipeline {
  import opened JsValues
  import opened Normalizer
  import opened Report

  /** Two slot values that no classifier and no cause test can tell apart:
      equal, or both falsy. */
  predicate SameCode(x: Value, y: Value) {
    x == y || (!Truthy(x) && !Truthy(y))
  }

  /** Reading an object key of a cleaned value is cleaning the data's value at
      that key, whether or not the data was an object. */
  lemma ObjectSlotCommutes(d: Value, t: Value, k: string)
    requires IsTemplate(t) && k in t.fields && t.fields[k].Obj?
    ensures Prop(StrictClean(d, t), k) == StrictClean(Prop(d, k), t.fields[k])
  {
    if IsObjectShaped(d) {
      ObjectKey(d, t, k);
    }
  }

  /** Reading a scalar key whose default is `''` gives the data's value or, if
      that is absent, `''`. */
  lemma ScalarSlotAgrees(d: Value, t: Value, k: string)
    requires IsTemplate(t) && k in t.fields && t.fields[k] == Str("")
    ensures SameCode(Prop(StrictClean(d, t), k), Prop(d, k))
  {
    if IsObjectShaped(d) {
      ScalarKey(d, t, k);
    }
  }

  /** The status of a cleaned coded finding. */
  lemma FindingStatusAgrees(y: Value)
    ensures IsTemplate(Finding())
    ensures SameCode(Status(StrictClean(y, Finding())), Status(y))
  {
    assert IsTemplate(Finding());
    ScalarSlotAgrees(y, Finding(), "status");
  }

  /** The status of the finding at key `k` of a cleaned group. */
  lemma GroupStatusAgrees(d: Value, t: Value, k: string)
    requires IsTemplate(t) && k in t.fields && t.fields[k] == Finding()
    ensures SameCode(Status(Prop(StrictClean(d, t), k)), Status(Prop(d, k)))
  {
    ObjectSlotCommutes(d, t, k);
    FindingStatusAgrees(Prop(d, k));
  }

  /** Slot lists that agree position by position filter to the same list. */
  lemma {:induction false} FilterAgrees(s1: seq<Value>, s2: seq<Value>)
    requires |s1| == |s2|
    requires forall i :: 0 <= i < |s1| ==> SameCode(s1[i], s2[i])
    ensures FilterTruthy(s1) == FilterTruthy(s2)
  {
    if s1 != [] {
      FilterAgrees(s1[1..], s2[1..]);
    }
  }

  /** A group key (`artery`, `vein`) or a coded-finding key of a normalised
      record holds the data's value at that key cleaned against its default. */
  lemma RecordObjectSlot(d: Value, k: string)
    requires k in FindingKeys() || k == "artery" || k == "vein"
    ensures IsTemplate(CaseTemplate()) && k in CaseTemplate().fields
    ensures IsTemplate(CaseTemplate().fields[k])
    ensures Prop(EnsureDataStructure(d), k) == StrictClean(Prop(d, k), CaseTemplate().fields[k])
  {
    CaseTemplateIsTemplate();
    if k in FindingKeys() {
      FindingKeyDefault(k);
    } else {
      GroupDefaults();
    }
    ObjectSlotCommutes(d, CaseTemplate(), k);
  }

  /** A text key of a normalised record agrees with the data's value there. */
  lemma RecordTextSlot(d: Value, k: string)
    requires k in TextKeys()
    ensures SameCode(Prop(EnsureDataStructure(d), k), Prop(d, k))
  {
    CaseTemplateIsTemplate();
    TextKeyDefault(k);
    ScalarSlotAgrees(d, CaseTemplate(), k);
  }

  /** The status of a coded finding at record key `k`. */
  lemma RecordFindingStatus(d: Value, k: string)
    requires k in FindingKeys()
    ensures SameCode(Status(Prop(EnsureDataStructure(d), k)), Status(Prop(d, k)))
  {
    RecordObjectSlot(d, k);
    FindingKeyDefault(k);
    FindingStatusAgrees(Prop(d, k));
  }

  /** The three artery slots. */
  lemma ArterySlotsAgree(d: Value)
    ensures var a, b := Prop(EnsureDataStructure(d), "artery"), Prop(d, "artery");
      && SameCode(Status(Prop(a, "celiac_axis")), Status(Prop(b, "celiac_axis")))
      && SameCode(Status(Prop(a, "common_hepatic_artery")), Status(Prop(b, "common_hepatic_artery")))
      && SameCode(Status(Prop(a, "superior_mesenteric_artery")), Status(Prop(b, "superior_mesenteric_artery")))
  {
    RecordObjectSlot(d, "artery");
    GroupDefaults();
    var at := ArteryTemplate();
    var b := Prop(d, "artery");
    GroupStatusAgrees(b, at, "celiac_axis");
    GroupStatusAgrees(b, at, "common_hepatic_artery");
    GroupStatusAgrees(b, at, "superior_mesenteric_artery");
  }

  /** The two vein slots. */
  lemma VeinSlotsAgree(d: Value)
    ensures var a, b := Prop(EnsureDataStructure(d), "vein"), Prop(d, "vein");
      && SameCode(Status(Prop(a, "main_portal_vein")), Status(Prop(b, "main_portal_vein")))
      && SameCode(Status(Prop(a, "superior_mesenteric_vein")), Status(Prop(b, "superior_mesenteric_vein")))
  {
    RecordObjectSlot(d, "vein");
    GroupDefaults();
    var vt := VeinTemplate();
    var b := Prop(d, "vein");
    GroupStatusAgrees(b, vt, "main_portal_vein");
    GroupStatusAgrees(b, vt, "superior_mesenteric_vein");
  }

  /** The seven vascular slots of the normalised record agree with the raw ones. */
  lemma VascularSlotsAgree(d: Value)
    ensures |VascularSlots(EnsureDataStructure(d))| == |VascularSlots(d)|
    ensures forall i :: 0 <= i < |VascularSlots(d)| ==>
              SameCode(VascularSlots(EnsureDataStructure(d))[i], VascularSlots(d)[i])
  {
    var r := EnsureDataStructure(d);
    ArterySlotsAgree(d);
    VeinSlotsAgree(d);
    RecordFindingStatus(d, "inferior_vena_cava");
    RecordFindingStatus(d, "aorta");
    var s1, s2 := VascularSlots(r), VascularSlots(d);
    assert SameCode(s1[0], s2[0]) && SameCode(s1[1], s2[1]) && SameCode(s1[2], s2[2]);
    assert SameCode(s1[3], s2[3]) && SameCode(s1[4], s2[4]);
    assert SameCode(s1[5], s2[5]) && SameCode(s1[6], s2[6]);
    assert |s1| == |s2| == 7;
  }

  /** The three spread slots of the normalised record agree with the raw ones. */
  lemma MetastasisSlotsAgree(d: Value)
    ensures |MetastasisSlots(EnsureDataStructure(d))| == |MetastasisSlots(d)|
    ensures forall i :: 0 <= i < |MetastasisSlots(d)| ==>
              SameCode(MetastasisSlots(EnsureDataStructure(d))[i], MetastasisSlots(d)[i])
  {
    RecordFindingStatus(d, "distant_lymph_node");
    RecordTextSlot(d, "final_hematogenous_metastasis_status");
    RecordTextSlot(d, "final_peritoneal_seeding_status");
    var s1, s2 := MetastasisSlots(EnsureDataStructure(d)), MetastasisSlots(d);
    assert SameCode(s1[0], s2[0]) && SameCode(s1[1], s2[1]) && SameCode(s1[2], s2[2]);
    assert |s1| == |s2| == 3;
  }

  /** Records whose slots agree position by position get the same verdict. */
  lemma AgreeingSlotsGiveSameVerdict(r: Value, d: Value)
    requires |VascularSlots(r)| == |VascularSlots(d)|
    requires forall i :: 0 <= i < |VascularSlots(d)| ==> SameCode(VascularSlots(r)[i], VascularSlots(d)[i])
    requires |MetastasisSlots(r)| == |MetastasisSlots(d)|
    requires forall i :: 0 <= i < |MetastasisSlots(d)| ==> SameCode(MetastasisSlots(r)[i], MetastasisSlots(d)[i])
    ensures Classify(r) == Classify(d)
  {
    FilterAgrees(VascularSlots(r), VascularSlots(d));
    FilterAgrees(MetastasisSlots(r), MetastasisSlots(d));
    var mr, md := MetastasisSlots(r), MetastasisSlots(d);
    assert SameCode(mr[0], md[0]) && SameCode(mr[1], md[1]) && SameCode(mr[2], md[2]);
    var v := Classify(d);
    assert Classify(r).vascular == v.vascular && Classify(r).metastasis == v.metastasis;
    assert Classify(r).overall == v.overall;
    CausesAgree(r, d, v.vascular, v.overall);
  }

  /** The causes read only the three spread slots, each compared with a code. */
  lemma CausesAgree(r: Value, d: Value, vascular: string, overall: string)
    requires SameCode(DistantNodeStatus(r), DistantNodeStatus(d))
    requires SameCode(HematogenousStatus(r), HematogenousStatus(d))
    requires SameCode(PeritonealStatus(r), PeritonealStatus(d))
    ensures ResectabilityCauses(r, vascular, overall) == ResectabilityCauses(d, vascular, overall)
  {
    assert (DistantNodeStatus(r) == Str("LN2")) == (DistantNodeStatus(d) == Str("LN2"));
    assert (HematogenousStatus(r) == Str("H2")) == (HematogenousStatus(d) == Str("H2"));
    assert (PeritonealStatus(r) == Str("P2")) == (PeritonealStatus(d) == Str("P2"));
    assert (DistantNodeStatus(r) == Str("LN1")) == (DistantNodeStatus(d) == Str("LN1"));
    assert (HematogenousStatus(r) == Str("H1")) == (HematogenousStatus(d) == Str("H1"));
    assert (PeritonealStatus(r) == Str("P1")) == (PeritonealStatus(d) == Str("P1"));
  }

  /** Normalising a candidate never changes its verdict: vascular and spread
      classifications, overall verdict and causes are those read off the raw
      object. */
  lemma NormalisationKeepsVerdict(d: Value)
    ensures Classify(EnsureDataStructure(d)) == Classify(d)
  {
    VascularSlotsAgree(d);
    MetastasisSlotsAgree(d);
    AgreeingSlotsGiveSameVerdict(EnsureDataStructure(d), d);
  }
}
