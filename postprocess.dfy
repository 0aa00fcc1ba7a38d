/** The post-processor: it reinterprets centimetre sizes as millimetres, clamps
    negative sizes, fills in the lesion count when it is missing and recomputes
    the metastasis flag, changing the decoded object in place. */
module Postprocess {
  import opened Strings
  import opened JsonValue
  import Schema

  /** `_cm_to_mm` on an integer size: `int(round(v * 10))` is exactly `10 * v`. */
  function CmToMm(v: int): int {
    10 * v
  }

  // ---------------------------------------------------------------------------
  // When the post-processor runs without raising
  // ---------------------------------------------------------------------------

  /** A lesion entry the loop can process: a dictionary whose evidence is a
      string or falsy (`(v or "").lower()`), and whose size is absent, `None` or a
      number (anything else fails the `< 0` comparison). */
  predicate LesionNormalizable(x: Json) {
    && x.Obj?
    && TextOrFalsy(Get(x.fields, "evidence_span"))
    && (Get(x.fields, "size_mm") == Null || Numeric(Get(x.fields, "size_mm")))
  }

  /** An object the post-processor handles: `lesions` absent or a list of
      processable lesions, and `summary` absent or a dictionary. */
  predicate Normalizable(obj: map<string, Json>) {
    && ("lesions" in obj ==> obj["lesions"].Arr?)
    && (forall i :: 0 <= i < |Lesions(obj)| ==> LesionNormalizable(Lesions(obj)[i]))
    && ("summary" in obj ==> obj["summary"].Obj?)
  }

  /** `obj.get("lesions", [])`, for an object whose lesions are a list when present. */
  function Lesions(obj: map<string, Json>): seq<Json> {
    if "lesions" in obj && obj["lesions"].Arr? then obj["lesions"].items else []
  }

  // ---------------------------------------------------------------------------
  // What the post-processor computes
  // ---------------------------------------------------------------------------

  /** The lower-cased evidence of a lesion contains " cm", with the leading space. */
  predicate HasCm(l: map<string, Json>)
    requires TextOrFalsy(Get(l, "evidence_span"))
  {
    Contains(Lower(TextOr(Get(l, "evidence_span"))), " cm")
  }

  /** One lesion: first the centimetre rule, then the clamp of negative sizes. */
  function NormalizeLesion(l: map<string, Json>): map<string, Json>
    requires LesionNormalizable(Obj(l))
  {
    var size := Get(l, "size_mm");
    var l1 := if HasCm(l) && Numeric(size) && NumValue(size) <= 10
              then l["size_mm" := Int(CmToMm(NumValue(size)))] else l;
    var size1 := Get(l1, "size_mm");
    if size1 != Null && NumValue(size1) < 0 then l1["size_mm" := Int(0)] else l1
  }

  function NormalizeAll(xs: seq<Json>): (r: seq<Json>)
    requires forall i :: 0 <= i < |xs| ==> LesionNormalizable(xs[i])
    ensures |r| == |xs|
  {
    seq(|xs|, i requires 0 <= i < |xs| && LesionNormalizable(xs[i]) => Obj(NormalizeLesion(xs[i].fields)))
  }

  /** Replacing the `i`-th entry of a partly processed list by its normalised
      form extends the processed prefix by one. */
  lemma NormalizeAllStep(xs: seq<Json>, i: int, ys: seq<Json>)
    requires forall j :: 0 <= j < |xs| ==> LesionNormalizable(xs[j])
    requires 0 <= i < |xs| == |ys| && LesionNormalizable(xs[i])
    requires ys[..i] == NormalizeAll(xs[..i])
    requires ys[i] == Obj(NormalizeLesion(xs[i].fields))
    requires ys[i + 1..] == xs[i + 1..]
    ensures ys == NormalizeAll(xs[..i + 1]) + xs[i + 1..]
  {
    var n := NormalizeAll(xs[..i + 1]);
    forall j | 0 <= j < i + 1 ensures ys[j] == n[j] {
      if j < i {
        assert ys[j] == ys[..i][j];
      }
    }
    assert ys[..i + 1] == n;
    assert ys == ys[..i + 1] + ys[i + 1..];
  }

  /** `any(l.get("finding_type") == "met" for l in lesions)`. */
  predicate AnyMet(xs: seq<Json>)
    requires forall i :: 0 <= i < |xs| ==> xs[i].Obj?
  {
    exists i :: 0 <= i < |xs| && Get(xs[i].fields, "finding_type") == Str("met")
  }

  /** The object `normalize_units_and_cleanup` leaves behind. */
  function Normalized(obj: map<string, Json>): map<string, Json>
    requires Normalizable(obj)
  {
    var ls := NormalizeAll(Lesions(obj));
    var o1 := if "lesions" in obj then obj["lesions" := Arr(ls)] else obj;
    var su := if "summary" in o1 then o1["summary"].fields else map[];
    var su1 := if "total_lesion_count" in su then su else su["total_lesion_count" := Int(|ls|)];
    o1["summary" := Obj(su1["metastasis_present" := Bool(AnyMet(ls))])]
  }

  // ---------------------------------------------------------------------------
  // The post-processor
  // ---------------------------------------------------------------------------

  /** The body of the loop over the lesions: the centimetre rule, then the clamp. */
  method NormalizeEntry(l0: map<string, Json>) returns (l: map<string, Json>)
    requires LesionNormalizable(Obj(l0))
    ensures l == NormalizeLesion(l0)
  {
    l := l0;
    var ev := Lower(TextOr(Get(l, "evidence_span")));
    if Contains(ev, " cm") && Numeric(Get(l, "size_mm")) {
      var v := NumValue(Get(l, "size_mm"));
      if v <= 10 {
        l := l["size_mm" := Int(CmToMm(v))];
      }
    }
    if Get(l, "size_mm") != Null && NumValue(Get(l, "size_mm")) < 0 {
      l := l["size_mm" := Int(0)];
    }
  }

  /** `normalize_units_and_cleanup(obj, original_text)`: the same dictionary is
      changed and returned; the report text is not consulted. */
  method NormalizeUnitsAndCleanup(obj: Dict, originalText: string) returns (r: Dict)
    requires Normalizable(obj.fields)
    modifies obj
    ensures r == obj
    ensures obj.fields == Normalized(old(obj.fields))
  {
    ghost var was := obj.fields;
    var ls := Lesions(obj.fields);
    ghost var input := ls;
    var i := 0;
    while i < |ls|
      invariant 0 <= i <= |ls| == |input|
      invariant ls == NormalizeAll(input[..i]) + input[i..]
      invariant obj.fields == if "lesions" in was then was["lesions" := Arr(ls)] else was
    {
      var l := NormalizeEntry(ls[i].fields);
      ls := ls[i := Obj(l)];
      NormalizeAllStep(input, i, ls);
      obj.fields := obj.fields["lesions" := Arr(ls)];
      i := i + 1;
    }
    assert ls == NormalizeAll(input);
    var summary := if "summary" in obj.fields then obj.fields["summary"].fields else map[];
    if "total_lesion_count" !in summary {
      summary := summary["total_lesion_count" := Int(|ls|)];
    }
    summary := summary["metastasis_present" := Bool(AnyMet(ls))];
    obj.fields := obj.fields["summary" := Obj(summary)];
    r := obj;
  }

  // ---------------------------------------------------------------------------
  // Properties
  // ---------------------------------------------------------------------------

  /** The normalised lesions are the input lesions, each normalised, in order. */
  lemma NormalizedLesions(obj: map<string, Json>)
    requires Normalizable(obj)
    ensures "lesions" in Normalized(obj) <==> "lesions" in obj
    ensures Lesions(Normalized(obj)) == NormalizeAll(Lesions(obj))
    ensures "summary" in Normalized(obj) && Normalized(obj)["summary"].Obj?
  {
  }

  /** After normalisation no lesion has a negative size. */
  lemma NoNegativeSize(l: map<string, Json>)
    requires LesionNormalizable(Obj(l))
    ensures var v := Get(NormalizeLesion(l), "size_mm"); v == Null || (Numeric(v) && NumValue(v) >= 0)
  {
  }

  /** Evidence with " cm" and a numeric size of at most 10: the size is read as
      centimetres and multiplied by 10 (a negative product is then clamped). */
  lemma CmRule(l: map<string, Json>)
    requires LesionNormalizable(Obj(l)) && HasCm(l)
    requires Numeric(Get(l, "size_mm")) && NumValue(Get(l, "size_mm")) <= 10
    ensures var v := NumValue(Get(l, "size_mm"));
      Get(NormalizeLesion(l), "size_mm") == Int(if v < 0 then 0 else 10 * v)
  {
  }

  /** A size above 10 is kept even when the evidence says " cm". */
  lemma LargeSizeKept(l: map<string, Json>)
    requires LesionNormalizable(Obj(l))
    requires Numeric(Get(l, "size_mm")) && NumValue(Get(l, "size_mm")) > 10
    ensures NormalizeLesion(l) == l
  {
  }

  /** Evidence without " cm": the size is kept, except that a negative one becomes 0. */
  lemma NoCmRule(l: map<string, Json>)
    requires LesionNormalizable(Obj(l)) && !HasCm(l)
    ensures var v := Get(l, "size_mm");
      NormalizeLesion(l) == if v != Null && NumValue(v) < 0 then l["size_mm" := Int(0)] else l
  {
  }

  /** Only `size_mm` may change, and it is never added or removed. */
  lemma LesionOnlySizeChanges(l: map<string, Json>)
    requires LesionNormalizable(Obj(l))
    ensures NormalizeLesion(l).Keys == l.Keys
    ensures forall k :: k in l && k != "size_mm" ==> NormalizeLesion(l)[k] == l[k]
  {
  }

  /** The metastasis flag is replaced by whether some lesion is a "met". */
  lemma MetastasisFlag(obj: map<string, Json>)
    requires Normalizable(obj)
    ensures Normalized(obj)["summary"].Obj?
    ensures var su := Normalized(obj)["summary"].fields;
      "metastasis_present" in su &&
      su["metastasis_present"] == Bool(exists i :: 0 <= i < |Lesions(obj)| && Get(Lesions(obj)[i].fields, "finding_type") == Str("met"))
  {
    var xs := Lesions(obj);
    var ys := NormalizeAll(xs);
    forall i | 0 <= i < |xs| ensures Get(ys[i].fields, "finding_type") == Get(xs[i].fields, "finding_type") {
      LesionOnlySizeChanges(xs[i].fields);
    }
    if AnyMet(ys) {
      var i :| 0 <= i < |ys| && Get(ys[i].fields, "finding_type") == Str("met");
      assert Get(xs[i].fields, "finding_type") == Str("met");
    }
    if exists i :: 0 <= i < |xs| && Get(xs[i].fields, "finding_type") == Str("met") {
      var i :| 0 <= i < |xs| && Get(xs[i].fields, "finding_type") == Str("met");
      assert Get(ys[i].fields, "finding_type") == Str("met");
    }
  }

  /** The lesion count is filled in only when the key is missing; any value
      already there, even a wrong one or `None`, is kept. */
  lemma TotalCountSetDefault(obj: map<string, Json>)
    requires Normalizable(obj)
    ensures var su := if "summary" in obj then obj["summary"].fields else map[];
      var su' := Normalized(obj)["summary"].fields;
      && "total_lesion_count" in su'
      && su'["total_lesion_count"] == if "total_lesion_count" in su then su["total_lesion_count"] else Int(|Lesions(obj)|)
  {
  }

  /** Nothing else changes: the other top-level keys, the other summary keys,
      the number and order of lesions and every lesion field but `size_mm`. */
  lemma NothingElseChanges(obj: map<string, Json>)
    requires Normalizable(obj)
    ensures Normalized(obj).Keys == obj.Keys + {"summary"}
    ensures forall k :: k in obj && k != "lesions" && k != "summary" ==> Normalized(obj)[k] == obj[k]
    ensures var su := if "summary" in obj then obj["summary"].fields else map[];
      var su' := Normalized(obj)["summary"].fields;
      && su'.Keys == su.Keys + {"total_lesion_count", "metastasis_present"}
      && forall k :: k in su && k != "total_lesion_count" && k != "metastasis_present" ==> su'[k] == su[k]
    ensures |Lesions(Normalized(obj))| == |Lesions(obj)|
    ensures forall i :: 0 <= i < |Lesions(obj)| ==>
      && Lesions(Normalized(obj))[i].Obj?
      && Lesions(Normalized(obj))[i].fields.Keys == Lesions(obj)[i].fields.Keys
      && forall k :: k in Lesions(obj)[i].fields && k != "size_mm" ==>
           Lesions(Normalized(obj))[i].fields[k] == Lesions(obj)[i].fields[k]
  {
    var xs := Lesions(obj);
    forall i | 0 <= i < |xs| ensures NormalizeLesion(xs[i].fields).Keys == xs[i].fields.Keys {
      LesionOnlySizeChanges(xs[i].fields);
    }
  }

  /** A lesion whose " cm" size is 1 (or `True`) is the one that a second pass changes again. */
  predicate Unstable(x: Json)
    requires LesionNormalizable(x)
  {
    HasCm(x.fields) && Numeric(Get(x.fields, "size_mm")) && NumValue(Get(x.fields, "size_mm")) == 1
  }

  /** A normalised lesion can be processed again. */
  lemma NormalizeLesionStaysNormalizable(l: map<string, Json>)
    requires LesionNormalizable(Obj(l))
    ensures LesionNormalizable(Obj(NormalizeLesion(l)))
    ensures HasCm(NormalizeLesion(l)) == HasCm(l)
  {
    LesionOnlySizeChanges(l);
  }

  /** Normalising a lesion twice equals normalising it once, unless its " cm"
      size is 1: then 1 becomes 10 and then 100. */
  lemma LesionIdempotent(l: map<string, Json>)
    requires LesionNormalizable(Obj(l))
    ensures LesionNormalizable(Obj(NormalizeLesion(l)))
    ensures NormalizeLesion(NormalizeLesion(l)) == NormalizeLesion(l) <==> !Unstable(Obj(l))
  {
    NormalizeLesionStaysNormalizable(l);
    var n := NormalizeLesion(l);
    if Unstable(Obj(l)) {
      assert Get(n, "size_mm") == Int(10);
      assert Get(NormalizeLesion(n), "size_mm") == Int(100);
    }
  }

  /** An object already in normal form is left as it is: no lesion has " cm"
      evidence or a negative size, the lesion count is present and the
      metastasis flag agrees with the lesions. */
  lemma FixedPoint(obj: map<string, Json>)
    requires Normalizable(obj) && "lesions" in obj && "summary" in obj
    requires forall i :: 0 <= i < |Lesions(obj)| ==>
      var l := Lesions(obj)[i].fields; !HasCm(l) && (Get(l, "size_mm") == Null || NumValue(Get(l, "size_mm")) >= 0)
    requires "total_lesion_count" in obj["summary"].fields
    requires Get(obj["summary"].fields, "metastasis_present") == Bool(AnyMet(Lesions(obj)))
    ensures Normalized(obj) == obj
  {
    var xs := Lesions(obj);
    var ys := NormalizeAll(xs);
    forall i | 0 <= i < |xs| ensures ys[i] == xs[i] {
      NoCmRule(xs[i].fields);
    }
    assert ys == xs;
    assert obj["lesions" := Arr(ys)] == obj;
    var su := obj["summary"].fields;
    assert "metastasis_present" in su;
    assert su["metastasis_present" := Bool(AnyMet(ys))] == su;
  }

  /** The post-processor is idempotent exactly when no lesion has a " cm" size of 1. */
  lemma NormalizedIdempotent(obj: map<string, Json>)
    requires Normalizable(obj)
    ensures Normalizable(Normalized(obj))
    ensures Normalized(Normalized(obj)) == Normalized(obj) <==>
      forall i :: 0 <= i < |Lesions(obj)| ==> !Unstable(Lesions(obj)[i])
  {
    var xs := Lesions(obj);
    var ys := NormalizeAll(xs);
    forall i | 0 <= i < |xs| ensures LesionNormalizable(ys[i]) {
      NormalizeLesionStaysNormalizable(xs[i].fields);
    }
    NormalizedLesions(obj);
    var n := Normalized(obj);
    assert Normalizable(n);
    NormalizedLesions(n);
    var zs := NormalizeAll(ys);
    forall i | 0 <= i < |xs| ensures zs[i] == ys[i] <==> !Unstable(xs[i]) {
      LesionIdempotent(xs[i].fields);
    }
    MetastasisFlag(obj);
    MetastasisFlag(n);
    forall i | 0 <= i < |ys| ensures Get(ys[i].fields, "finding_type") == Get(xs[i].fields, "finding_type") {
      LesionOnlySizeChanges(xs[i].fields);
    }
    if forall i :: 0 <= i < |xs| ==> !Unstable(xs[i]) {
      assert zs == ys;
      assert Normalized(n)["summary"] == n["summary"];
      assert Normalized(n) == n;
    } else {
      var i :| 0 <= i < |xs| && Unstable(xs[i]);
      assert zs[i] != ys[i];
      assert Lesions(Normalized(n)) != Lesions(n);
    }
  }

  /** Whatever passes JSON Schema validation can be post-processed. */
  lemma ConformsIsNormalizable(j: Json)
    requires Schema.Conforms(j)
    ensures Normalizable(j.fields)
  {
    var xs := Lesions(j.fields);
    forall i | 0 <= i < |xs| ensures LesionNormalizable(xs[i]) {
      assert Schema.LesionConforms(xs[i]);
    }
  }

  /** Evidence made of any text, " cm" and any text has " cm" evidence, whatever the case of the rest. */
  lemma CmEvidence(l: map<string, Json>, a: string, b: string)
    requires Get(l, "evidence_span") == Str(a + " cm" + b)
    ensures TextOrFalsy(Get(l, "evidence_span")) && HasCm(l)
  {
    var s, k := a + " cm" + b, |a|;
    var e := Lower(s);
    assert s[k] == ' ' && s[k + 1] == 'c' && s[k + 2] == 'm';
    assert e[k..k + 3] == " cm";
    OccursContains(e, " cm", k);
  }

  /** "2 cm" with size 2: the size is read as 2 cm and becomes 20. */
  lemma CentimetreExample()
    ensures Get(NormalizeLesion(map["size_mm" := Int(2), "evidence_span" := Str("2 cm")]), "size_mm") == Int(20)
  {
    var a: map<string, Json> := map["size_mm" := Int(2), "evidence_span" := Str("2 cm")];
    assert "2 cm" == "2" + " cm" + "";
    CmEvidence(a, "2", "");
    CmRule(a);
  }

  /** A 15 mm size is above the centimetre threshold and is kept. */
  lemma MillimetreExample()
    ensures NormalizeLesion(map["size_mm" := Int(15), "evidence_span" := Str("15 mm nodule")])
         == map["size_mm" := Int(15), "evidence_span" := Str("15 mm nodule")]
  {
    LargeSizeKept(map["size_mm" := Int(15), "evidence_span" := Str("15 mm nodule")]);
  }
}
