/**
 * `strictClean` and `ensureDataStructure` (src/App.js): a deep merge directed
 * by a template. Wherever the template holds an object the result holds an
 * object with exactly the template's keys; at a scalar template key the
 * data's value is kept unless it is `undefined`, in which case the template's
 * default is used.
 */
module Normalizer {
  import opened JsValues

  /** A template as the source writes one: an object literal whose values are
      scalars or, recursively, templates (no arrays). */
  predicate IsTemplate(t: Value)
    decreases t
  {
    t.Obj? &&
    forall k :: k in t.fields ==>
      !t.fields[k].Arr? && (t.fields[k].Obj? ==> IsTemplate(t.fields[k]))
  }

  /** The value `result[key]` gets for one template key. */
  function CleanField(data: Value, template: Value, key: string): Value
    requires IsTemplate(template) && key in template.fields
    decreases template, 0
  {
    var t := template.fields[key];
    var d := Prop(data, key);
    if IsObjectShaped(t) then StrictClean(d, t)
    else if d != Undefined then d
    else t
  }

  /** `strictClean(data, template)`, as a specification. */
  function StrictClean(data: Value, template: Value): Value
    requires IsTemplate(template)
    decreases template, 1
  {
    if !IsObjectShaped(data) then template
    else Obj(map k | k in template.fields :: CleanField(data, template, k))
  }

  /** `strictClean(data, template)`: the `for...in` loop over the template's
      keys fills a fresh `result` dictionary one key at a time and recurses at
      every key whose default is an object. */
  method StrictCleanLoop(data: Value, template: Value) returns (result: Value)
    requires IsTemplate(template)
    ensures result == StrictClean(data, template)
    decreases template
  {
    if !IsObjectShaped(data) {
      return template;
    }
    var fields: map<string, Value> := map[];
    var remaining := template.fields.Keys;
    while remaining != {}
      invariant remaining <= template.fields.Keys
      invariant fields.Keys == template.fields.Keys - remaining
      invariant forall k :: k in fields ==> fields[k] == CleanField(data, template, k)
      decreases remaining
    {
      var key :| key in remaining;
      var t := template.fields[key];
      var d := Prop(data, key);
      if IsObjectShaped(t) {
        var sub := StrictCleanLoop(d, t);
        fields := fields[key := sub];
      } else {
        fields := fields[key := if d != Undefined then d else t];
      }
      remaining := remaining - {key};
    }
    result := Obj(fields);
  }

  /** `v` has the shape of template `t`: an object with exactly `t`'s keys,
      recursively at every key where `t` holds an object. */
  predicate HasShape(v: Value, t: Value)
    requires IsTemplate(t)
    decreases t
  {
    v.Obj? && v.fields.Keys == t.fields.Keys &&
    forall k :: k in t.fields && t.fields[k].Obj? ==> HasShape(v.fields[k], t.fields[k])
  }

  /** When the data is not object-shaped (`undefined`, `null`, a string, a
      number, a boolean), the template itself is returned. */
  lemma NonObjectGivesTemplate(data: Value, template: Value)
    requires IsTemplate(template) && !IsObjectShaped(data)
    ensures StrictClean(data, template) == template
  {
  }

  /** A template has its own shape. */
  lemma {:induction false} TemplateHasShape(t: Value)
    requires IsTemplate(t)
    ensures HasShape(t, t)
    decreases t
  {
    forall k | k in t.fields && t.fields[k].Obj?
      ensures HasShape(t.fields[k], t.fields[k])
    {
      TemplateHasShape(t.fields[k]);
    }
  }

  /** Total coverage: whatever the data, the result has the template's key set
      at every depth. Keys found only in the data are dropped. */
  lemma {:induction false} CleanHasShape(data: Value, template: Value)
    requires IsTemplate(template)
    ensures HasShape(StrictClean(data, template), template)
    decreases template
  {
    if !IsObjectShaped(data) {
      TemplateHasShape(template);
    } else {
      var r := StrictClean(data, template);
      forall k | k in template.fields && template.fields[k].Obj?
        ensures HasShape(r.fields[k], template.fields[k])
      {
        assert r.fields[k] == CleanField(data, template, k);
        CleanHasShape(Prop(data, k), template.fields[k]);
      }
      assert r.fields.Keys == template.fields.Keys;
    }
  }

  /** At a scalar template key of object-shaped data, the result is the data's
      value whenever that is not `undefined` (even `null`, `''` or an object),
      and the template's default otherwise. */
  lemma ScalarKey(data: Value, template: Value, key: string)
    requires IsTemplate(template) && IsObjectShaped(data)
    requires key in template.fields && !template.fields[key].Obj?
    ensures key in StrictClean(data, template).fields
    ensures Prop(data, key) != Undefined ==>
              StrictClean(data, template).fields[key] == Prop(data, key)
    ensures Prop(data, key) == Undefined ==>
              StrictClean(data, template).fields[key] == template.fields[key]
  {
  }

  /** At an object template key, the result is the data's sub-value cleaned
      against the sub-template, independently of the other keys. */
  lemma ObjectKey(data: Value, template: Value, key: string)
    requires IsTemplate(template) && IsObjectShaped(data)
    requires key in template.fields && template.fields[key].Obj?
    ensures key in StrictClean(data, template).fields
    ensures StrictClean(data, template).fields[key]
         == StrictClean(Prop(data, key), template.fields[key])
  {
  }

  /** Cleaning a template against itself gives it back. */
  lemma {:induction false} CleanTemplateIsTemplate(t: Value)
    requires IsTemplate(t)
    ensures StrictClean(t, t) == t
    decreases t
  {
    var r := StrictClean(t, t);
    forall k | k in t.fields ensures r.fields[k] == t.fields[k] {
      assert r.fields[k] == CleanField(t, t, k);
      if t.fields[k].Obj? {
        CleanTemplateIsTemplate(t.fields[k]);
      }
    }
    assert r.fields == t.fields;
  }

  /** Idempotence: cleaning a cleaned value changes nothing. */
  lemma {:induction false} CleanIsIdempotent(data: Value, template: Value)
    requires IsTemplate(template)
    ensures StrictClean(StrictClean(data, template), template) == StrictClean(data, template)
    decreases template
  {
    var once := StrictClean(data, template);
    if !IsObjectShaped(data) {
      CleanTemplateIsTemplate(template);
    } else {
      var twice := StrictClean(once, template);
      forall k | k in template.fields ensures twice.fields[k] == once.fields[k] {
        assert once.fields[k] == CleanField(data, template, k);
        assert twice.fields[k] == CleanField(once, template, k);
        if template.fields[k].Obj? {
          CleanIsIdempotent(Prop(data, k), template.fields[k]);
        }
      }
      assert twice.fields == once.fields;
    }
  }

  /** `{ status: '', ref: '' }`: the template of one coded finding. */
  function Finding(): Value {
    Obj(map["status" := Str(""), "ref" := Str("")])
  }

  function ArteryTemplate(): Value {
    Obj(map[
      "celiac_axis" := Finding(),
      "common_hepatic_artery" := Finding(),
      "superior_mesenteric_artery" := Finding()])
  }

  function VeinTemplate(): Value {
    Obj(map[
      "main_portal_vein" := Finding(),
      "superior_mesenteric_vein" := Finding()])
  }

  /** The case-template keys whose default is `''`. */
  function TextKeys(): set<string> {
    {"model", "tumor_morphology", "tumor_size", "adjacent_organ_invasion", "tumor_location",
     "peritoneal_seeding", "final_hematogenous_metastasis_status", "hematogenous_metastasis",
     "final_peritoneal_seeding_status"}
  }

  /** The case-template keys whose default is a coded finding. */
  function FindingKeys(): set<string> {
    {"arterial_variations", "inferior_vena_cava", "aorta", "regional_lymph_node",
     "distant_lymph_node", "bile_duct", "main_pancreatic_duct"}
  }

  /** The default the case template gives key `k`. */
  function CaseDefault(k: string): Value {
    if k == "artery" then ArteryTemplate()
    else if k == "vein" then VeinTemplate()
    else if k in FindingKeys() then Finding()
    else Str("")
  }

  /** The template of a case record (`ensureDataStructure`, src/App.js:35-61):
      nine text keys, seven coded findings, and the `artery` and `vein`
      groups of coded findings. */
  function CaseTemplate(): Value {
    Obj(map k | k in TextKeys() + FindingKeys() + {"artery", "vein"} :: CaseDefault(k))
  }

  lemma CaseTemplateIsTemplate()
    ensures IsTemplate(CaseTemplate())
  {
    assert IsTemplate(Finding());
    assert IsTemplate(ArteryTemplate());
    assert IsTemplate(VeinTemplate());
  }

  /** The defaults the case template gives its keys. */
  lemma TextKeyDefault(k: string)
    requires k in TextKeys()
    ensures k in CaseTemplate().fields && CaseTemplate().fields[k] == Str("")
  {
    assert k !in FindingKeys() by {
      if k == "model" {} else if k == "tumor_morphology" {} else if k == "tumor_size" {}
      else if k == "adjacent_organ_invasion" {} else if k == "tumor_location" {}
      else if k == "peritoneal_seeding" {} else if k == "final_hematogenous_metastasis_status" {}
      else if k == "hematogenous_metastasis" {}
    }
  }

  lemma FindingKeyDefault(k: string)
    requires k in FindingKeys()
    ensures k in CaseTemplate().fields && CaseTemplate().fields[k] == Finding()
  {
  }

  lemma GroupDefaults()
    ensures "artery" in CaseTemplate().fields && CaseTemplate().fields["artery"] == ArteryTemplate()
    ensures "vein" in CaseTemplate().fields && CaseTemplate().fields["vein"] == VeinTemplate()
  {
  }

  /** `ensureDataStructure(data)` */
  function EnsureDataStructure(data: Value): Value {
    CaseTemplateIsTemplate();
    StrictClean(data, CaseTemplate())
  }

  /** Every normalised record has exactly the case template's keys at every
      depth; in particular a column such as `branches_and_other`, which the
      template lacks, never survives. */
  lemma RecordHasCaseShape(data: Value)
    ensures IsTemplate(CaseTemplate())
    ensures HasShape(EnsureDataStructure(data), CaseTemplate())
    ensures EnsureDataStructure(data).fields.Keys == CaseTemplate().fields.Keys
    ensures "branches_and_other" !in EnsureDataStructure(data).fields
  {
    CaseTemplateIsTemplate();
    CleanHasShape(data, CaseTemplate());
  }

  /** Normalising a normalised record changes nothing. */
  lemma EnsureDataStructureIsIdempotent(data: Value)
    ensures EnsureDataStructure(EnsureDataStructure(data)) == EnsureDataStructure(data)
  {
    CaseTemplateIsTemplate();
    CleanIsIdempotent(data, CaseTemplate());
  }
}
