/** The constant prompt material: the system instruction and the single few-shot
    exemplar (a report and the extraction it should produce). */
module Prompts {
  import opened Wrappers
  import opened Strings
  import opened JsonValue
  import opened Schema
  import Postprocess

  const SystemPrompt: string :=
    "You are a meticulous clinical information extraction system.\n"
    + "Extract ONLY facts that are explicitly stated in the report. Do not infer.\n"
    + "Return STRICT JSON that conforms to the provided JSON Schema. Use millimeters for size.\n"
    + "If a field is not stated, omit it rather than guessing.\n"
    + "For lymph nodes, record the SHORT AXIS in mm when available. "
    + "Include an evidence_span for each numeric or categorical value when possible.\n"

  /** One few-shot exemplar: a report and its reference extraction. */
  datatype Exemplar = Exemplar(report: string, json: Json)

  // The three evidence spans, written word by word (the longer two in halves).
  const Evidence1: string := "Left" + " " + "upper" + " " + "lobe" + " " + "mass" + " " + "measures" + " " + "28" + " " + "mm"
  const Evidence2Head: string := "right" + " " + "paratracheal" + " " + "node" + " " + "(station" + " " + "4R)"
  const Evidence2Rest: string := "short" + " " + "axis" + " " + "12" + " " + "mm"
  const Evidence2: string := Evidence2Head + " " + Evidence2Rest
  const Evidence3Head: string := "New" + " " + "9" + " " + "mm" + " " + "hypodense" + " " + "lesion" + " " + "in" + " " + "segment"
  const Evidence3Rest: string := "6" + " " + "of" + " " + "the" + " " + "liver," + " " + "suspicious" + " " + "for" + " " + "metastasis"
  const Evidence3: string := Evidence3Head + " " + Evidence3Rest

  const ReportHead: string := "EXAM: " + "CT CHEST/ABDOMEN/PELVIS WITH IV CONTRAST\nIMPRESSION:\n1. "
  const ReportMid1: string := " (previously 22 mm).\n2. Enlarged "
  const ReportMid2: string := ".\n3. "
  const ReportTail: string := "."

  /** The exemplar report: the triple-quoted literal, stripped. */
  const ExemplarReport: string := ReportHead + Evidence1 + ReportMid1 + Evidence2 + ReportMid2 + Evidence3 + ReportTail

  /** The report as the triple-quoted literal reads, with its final newline. */
  const ReportRaw: string := ExemplarReport + "\n"

  const ExemplarSummary: map<string, Json> := map[
    "modality" := Str("CT"), "body_region" := Str("CAP"), "tn_stage_reported" := Null,
    "metastasis_present" := Bool(true), "total_lesion_count" := Int(3)]

  const ExemplarLesion1: map<string, Json> := map[
    "lesion_id" := Str("L1"), "finding_type" := Str("primary"), "body_site" := Str("lung upper lobe"),
    "is_node" := Bool(false), "laterality" := Str("left"), "measure_axis" := Str("longest"),
    "size_mm" := Int(28), "certainty" := Str("present"), "evidence_span" := Str(Evidence1)]

  const ExemplarLesion2: map<string, Json> := map[
    "lesion_id" := Str("L2"), "finding_type" := Str("ln"), "body_site" := Str("mediastinum"),
    "is_node" := Bool(true), "node_station" := Str("4R"), "measure_axis" := Str("short_axis"),
    "size_mm" := Int(12), "certainty" := Str("present"), "evidence_span" := Str(Evidence2)]

  const ExemplarLesion3: map<string, Json> := map[
    "lesion_id" := Str("L3"), "finding_type" := Str("met"), "body_site" := Str("liver"),
    "metastatic_site" := Str("liver"), "is_node" := Bool(false),
    "size_mm" := Int(9), "certainty" := Str("possible"), "evidence_span" := Str(Evidence3)]

  const ExemplarLesions: seq<Json> := [Obj(ExemplarLesion1), Obj(ExemplarLesion2), Obj(ExemplarLesion3)]

  const ExemplarFields: map<string, Json> := map[
    "summary" := Obj(ExemplarSummary), "lesions" := Arr(ExemplarLesions)]

  /** `FEW_SHOT`: exactly one exemplar. */
  const FewShot: seq<Exemplar> := [Exemplar(ExemplarReport, Obj(ExemplarFields))]

  // The records the exemplar describes.
  const ExemplarTyped1 := DefaultLesion("L1", "lung upper lobe").(findingType := Primary,
    laterality := Some(Left), measureAxis := Some(Longest), sizeMm := Some(28), evidenceSpan := Some(Evidence1))
  const ExemplarTyped2 := DefaultLesion("L2", "mediastinum").(findingType := Ln, isNode := true,
    nodeStation := Some("4R"), measureAxis := Some(ShortAxis), sizeMm := Some(12), evidenceSpan := Some(Evidence2))
  const ExemplarTyped3 := DefaultLesion("L3", "liver").(findingType := Met, metastaticSite := Some("liver"),
    sizeMm := Some(9), certainty := Some(Possible), evidenceSpan := Some(Evidence3))
  const ExemplarTyped := ReportExtraction(None, None, None, Summary(CT, Some(CAP), None, Some(true), Some(3)),
                                          [ExemplarTyped1, ExemplarTyped2, ExemplarTyped3], None, None, "1.0")

  // ---------------------------------------------------------------------------
  // The report text
  // ---------------------------------------------------------------------------

  /** Stripping a text laid out as the report is drops only the final newline. */
  lemma LayoutStrip(h: string, e1: string, m1: string, e2: string, m2: string, e3: string, t: string)
    requires h != [] && !IsSpace(h[0]) && t == "."
    ensures var body := h + e1 + m1 + e2 + m2 + e3 + t; Strip(body + "\n") == body
  {
    var body := h + e1 + m1 + e2 + m2 + e3 + t;
    assert body == h + (e1 + m1 + e2 + m2 + e3 + t);
    assert body == (h + e1 + m1 + e2 + m2 + e3) + t;
    StripTrailingSpace(body, "\n");
  }

  /** Each evidence span sits where it was spliced in. */
  lemma LayoutSpans(h: string, e1: string, m1: string, e2: string, m2: string, e3: string, t: string)
    ensures var body := h + e1 + m1 + e2 + m2 + e3 + t;
      && OccursAt(body, e1, |h|)
      && OccursAt(body, e2, |h + e1 + m1|)
      && OccursAt(body, e3, |h + e1 + m1 + e2 + m2|)
  {
    var body := h + e1 + m1 + e2 + m2 + e3 + t;
    OccursInMiddle(h, e1, m1 + e2 + m2 + e3 + t);
    assert body == h + e1 + (m1 + e2 + m2 + e3 + t);
    OccursInMiddle(h + e1 + m1, e2, m2 + e3 + t);
    assert body == h + e1 + m1 + e2 + (m2 + e3 + t);
    OccursInMiddle(h + e1 + m1 + e2 + m2, e3, t);
  }

  /** The stripped report is the literal without its final newline, and each
      evidence span is quoted from it verbatim. */
  lemma ReportText()
    ensures Strip(ReportRaw) == ExemplarReport
    ensures OccursAt(ExemplarReport, Evidence1, |ReportHead|)
    ensures OccursAt(ExemplarReport, Evidence2, |ReportHead + Evidence1 + ReportMid1|)
    ensures OccursAt(ExemplarReport, Evidence3, |ReportHead + Evidence1 + ReportMid1 + Evidence2 + ReportMid2|)
  {
    assert ReportHead[0] == 'E';
    LayoutStrip(ReportHead, Evidence1, ReportMid1, Evidence2, ReportMid2, Evidence3, ReportTail);
    LayoutSpans(ReportHead, Evidence1, ReportMid1, Evidence2, ReportMid2, Evidence3, ReportTail);
  }

  // ---------------------------------------------------------------------------
  // The exemplar extraction
  // ---------------------------------------------------------------------------

  lemma Lesion1FieldsA() ensures HoldsFieldsA(ExemplarLesion1, ExemplarTyped1) {}
  lemma Lesion1FieldsB() ensures HoldsFieldsB(ExemplarLesion1, ExemplarTyped1) {}
  lemma Lesion1FieldsC() ensures HoldsFieldsC(ExemplarLesion1, ExemplarTyped1) {}

  lemma Lesion2FieldsA() ensures HoldsFieldsA(ExemplarLesion2, ExemplarTyped2) {}
  lemma Lesion2FieldsB() ensures HoldsFieldsB(ExemplarLesion2, ExemplarTyped2) {}
  lemma Lesion2FieldsC() ensures HoldsFieldsC(ExemplarLesion2, ExemplarTyped2) {}

  lemma Lesion3FieldsA() ensures HoldsFieldsA(ExemplarLesion3, ExemplarTyped3) {}
  lemma Lesion3FieldsB() ensures HoldsFieldsB(ExemplarLesion3, ExemplarTyped3) {}
  lemma Lesion3FieldsC() ensures HoldsFieldsC(ExemplarLesion3, ExemplarTyped3) {}

  lemma LesionsBuild()
    ensures LesionsFromJson(ExemplarLesions) == Success([ExemplarTyped1, ExemplarTyped2, ExemplarTyped3])
    ensures forall i :: 0 <= i < |ExemplarLesions| ==> LesionConforms(ExemplarLesions[i])
  {
    Lesion1FieldsA(); Lesion1FieldsB(); Lesion1FieldsC();
    Lesion2FieldsA(); Lesion2FieldsB(); Lesion2FieldsC();
    Lesion3FieldsA(); Lesion3FieldsB(); Lesion3FieldsC();
    LesionsOfThree(ExemplarLesion1, ExemplarLesion2, ExemplarLesion3, ExemplarTyped1, ExemplarTyped2, ExemplarTyped3);
  }

  lemma SummaryBuilds()
    ensures SummaryFromJson(ExemplarSummary) == Success(Summary(CT, Some(CAP), None, Some(true), Some(3)))
  {
  }

  /** The exemplar passes JSON Schema validation and builds the typed extraction
      it describes, with the default `schema_version` "1.0". */
  lemma ExemplarValid()
    ensures Conforms(FewShot[0].json)
    ensures ExtractionFromJson(FewShot[0].json) == Success(ExemplarTyped)
    ensures ValidExtraction(ExemplarTyped)
  {
    assert FewShot[0].json == Obj(ExemplarFields);
    var m := ExemplarFields;
    assert m["lesions"] == Arr(ExemplarLesions) && m["summary"] == Obj(ExemplarSummary);
    SummaryBuilds();
    LesionsBuild();
    ScalarsBuild();
  }

  lemma ScalarsBuild()
    ensures var m := ExemplarFields;
      && OptText(m, "patient_id") == OptText(m, "study_date") == OptText(m, "report_id") == Success(None)
      && OptText(m, "model_name") == OptText(m, "prompt_version") == Success(None)
      && "schema_version" !in m
  {
  }

  /** The lesion count agrees with the lesions and the metastasis flag is set. */
  lemma ExemplarCounts()
    ensures FewShot[0].json.fields["summary"].fields["total_lesion_count"] == Int(|ExemplarLesions|) == Int(3)
    ensures FewShot[0].json.fields["summary"].fields["metastasis_present"] == Bool(true)
  {
    assert FewShot[0].json.fields["summary"] == Obj(ExemplarSummary);
  }

  /** The third lesion, and only it, is a "met", which agrees with the flag. */
  lemma ExemplarOneMet()
    ensures forall i :: 0 <= i < |ExemplarLesions| ==>
      (Get(ExemplarLesions[i].fields, "finding_type") == Str("met") <==> i == 2)
  {
    assert ExemplarLesions[0].fields["finding_type"] == Str("primary");
    assert ExemplarLesions[1].fields["finding_type"] == Str("ln");
    assert ExemplarLesions[2].fields["finding_type"] == Str("met");
  }

  /** The lesion ids are distinct and every size is a non-negative integer. */
  lemma ExemplarIdsAndSizes()
    ensures forall i, j :: 0 <= i < j < |ExemplarLesions| ==>
      ExemplarLesions[i].fields["lesion_id"] != ExemplarLesions[j].fields["lesion_id"]
    ensures forall i :: 0 <= i < |ExemplarLesions| ==>
      ExemplarLesions[i].fields["size_mm"].Int? && ExemplarLesions[i].fields["size_mm"].i >= 0
  {
    assert ExemplarLesions[0].fields["lesion_id"] == Str("L1") && ExemplarLesions[0].fields["size_mm"] == Int(28);
    assert ExemplarLesions[1].fields["lesion_id"] == Str("L2") && ExemplarLesions[1].fields["size_mm"] == Int(12);
    assert ExemplarLesions[2].fields["lesion_id"] == Str("L3") && ExemplarLesions[2].fields["size_mm"] == Int(9);
  }

  // ---------------------------------------------------------------------------
  // The exemplar and the post-processor
  // ---------------------------------------------------------------------------

  /** No word of the first evidence span starts with a `c`. */
  lemma Evidence1Free()
    ensures var e := Evidence1; NoSpaceThen(e, 'c') && e != [] && e[0] == 'L' && e[|e| - 1] != ' '
  {
    NoSpaceThenWord("Left", 'c');
    var s := "Left";
    SpaceWord(s, "upper", 'c'); s := s + " " + "upper";
    SpaceWord(s, "lobe", 'c'); s := s + " " + "lobe";
    SpaceWord(s, "mass", 'c'); s := s + " " + "mass";
    SpaceWord(s, "measures", 'c'); s := s + " " + "measures";
    SpaceWord(s, "28", 'c'); s := s + " " + "28";
    SpaceWord(s, "mm", 'c'); s := s + " " + "mm";
    assert s == Evidence1;
  }

  /** No word of the second evidence span starts with a `c`. */
  lemma Evidence2HeadFree()
    ensures var e := Evidence2Head; NoSpaceThen(e, 'c') && e != [] && e[0] == 'r' && e[|e| - 1] != ' '
  {
    NoSpaceThenWord("right", 'c');
    var s := "right";
    SpaceWord(s, "paratracheal", 'c'); s := s + " " + "paratracheal";
    SpaceWord(s, "node", 'c'); s := s + " " + "node";
    SpaceWord(s, "(station", 'c'); s := s + " " + "(station";
    SpaceWord(s, "4R)", 'c'); s := s + " " + "4R)";
    assert s == Evidence2Head;
  }

  lemma Evidence2RestFree()
    ensures var e := Evidence2Rest; NoSpaceThen(e, 'c') && e != [] && e[0] == 's' && e[|e| - 1] != ' '
  {
    NoSpaceThenWord("short", 'c');
    var s := "short";
    SpaceWord(s, "axis", 'c'); s := s + " " + "axis";
    SpaceWord(s, "12", 'c'); s := s + " " + "12";
    SpaceWord(s, "mm", 'c'); s := s + " " + "mm";
    assert s == Evidence2Rest;
  }

  lemma Evidence2Free()
    ensures NoSpaceThen(Evidence2, 'c')
  {
    Evidence2HeadFree();
    Evidence2RestFree();
    SpaceJoin(Evidence2Head, Evidence2Rest, 'c');
  }

  /** No word of the third evidence span starts with a `c`. */
  lemma Evidence3HeadFree()
    ensures var e := Evidence3Head; NoSpaceThen(e, 'c') && e != [] && e[0] == 'N' && e[|e| - 1] != ' '
  {
    NoSpaceThenWord("New", 'c');
    var s := "New";
    SpaceWord(s, "9", 'c'); s := s + " " + "9";
    SpaceWord(s, "mm", 'c'); s := s + " " + "mm";
    SpaceWord(s, "hypodense", 'c'); s := s + " " + "hypodense";
    SpaceWord(s, "lesion", 'c'); s := s + " " + "lesion";
    SpaceWord(s, "in", 'c'); s := s + " " + "in";
    SpaceWord(s, "segment", 'c'); s := s + " " + "segment";
    assert s == Evidence3Head;
  }

  lemma Evidence3RestFree()
    ensures var e := Evidence3Rest; NoSpaceThen(e, 'c') && e != [] && e[0] == '6' && e[|e| - 1] != ' '
  {
    NoSpaceThenWord("6", 'c');
    var s := "6";
    SpaceWord(s, "of", 'c'); s := s + " " + "of";
    SpaceWord(s, "the", 'c'); s := s + " " + "the";
    SpaceWord(s, "liver,", 'c'); s := s + " " + "liver,";
    SpaceWord(s, "suspicious", 'c'); s := s + " " + "suspicious";
    SpaceWord(s, "for", 'c'); s := s + " " + "for";
    SpaceWord(s, "metastasis", 'c'); s := s + " " + "metastasis";
    assert s == Evidence3Rest;
  }

  lemma Evidence3Free()
    ensures NoSpaceThen(Evidence3, 'c')
  {
    Evidence3HeadFree();
    Evidence3RestFree();
    SpaceJoin(Evidence3Head, Evidence3Rest, 'c');
  }

  // The few fields of each exemplar lesion that the post-processor reads.
  lemma Lesion1Facts()
    ensures Get(ExemplarLesion1, "evidence_span") == Str(Evidence1)
    ensures Get(ExemplarLesion1, "size_mm") == Int(28) && Get(ExemplarLesion1, "finding_type") == Str("primary")
  {
  }

  lemma Lesion2Facts()
    ensures Get(ExemplarLesion2, "evidence_span") == Str(Evidence2)
    ensures Get(ExemplarLesion2, "size_mm") == Int(12) && Get(ExemplarLesion2, "finding_type") == Str("ln")
  {
  }

  lemma Lesion3Facts()
    ensures Get(ExemplarLesion3, "evidence_span") == Str(Evidence3)
    ensures Get(ExemplarLesion3, "size_mm") == Int(9) && Get(ExemplarLesion3, "finding_type") == Str("met")
  {
  }

  /** A lesion the post-processor leaves as it is: no " cm" evidence and no
      negative size. */
  predicate Stable(l: map<string, Json>) {
    TextOrFalsy(Get(l, "evidence_span")) && !Postprocess.HasCm(l)
    && (Get(l, "size_mm") == Null || (Numeric(Get(l, "size_mm")) && NumValue(Get(l, "size_mm")) >= 0))
  }

  /** A lesion whose evidence has no space before a `c` has no " cm" evidence. */
  lemma NoCmEvidence(l: map<string, Json>, e: string, size: nat)
    requires Get(l, "evidence_span") == Str(e) && NoSpaceThen(e, 'c') && Get(l, "size_mm") == Int(size)
    ensures Stable(l)
  {
    NoSpaceThenLower(e, " cm");
  }

  /** No evidence span of the exemplar contains " cm" once lower-cased, and no
      size is negative. */
  lemma ExemplarHasNoCm()
    ensures forall i :: 0 <= i < |ExemplarLesions| ==> Stable(ExemplarLesions[i].fields)
  {
    Lesion1Stable(); Lesion2Stable(); Lesion3Stable();
  }

  lemma Lesion1Stable() ensures Stable(ExemplarLesion1) {
    Lesion1Facts(); Evidence1Free(); NoCmEvidence(ExemplarLesion1, Evidence1, 28);
  }

  lemma Lesion2Stable() ensures Stable(ExemplarLesion2) {
    Lesion2Facts(); Evidence2Free(); NoCmEvidence(ExemplarLesion2, Evidence2, 12);
  }

  lemma Lesion3Stable() ensures Stable(ExemplarLesion3) {
    Lesion3Facts(); Evidence3Free(); NoCmEvidence(ExemplarLesion3, Evidence3, 9);
  }

  /** The post-processor runs on the exemplar without raising. */
  lemma ExemplarNormalizable()
    ensures Postprocess.Lesions(ExemplarFields) == ExemplarLesions
    ensures Postprocess.Normalizable(ExemplarFields)
  {
    Lesion1Facts(); Lesion2Facts(); Lesion3Facts();
    assert ExemplarFields["lesions"] == Arr(ExemplarLesions) && ExemplarFields["summary"] == Obj(ExemplarSummary);
  }

  /** The post-processor leaves the exemplar as it is. */
  lemma ExemplarNormalized()
    ensures Postprocess.Normalizable(ExemplarFields)
    ensures Postprocess.Normalized(ExemplarFields) == ExemplarFields
  {
    ExemplarNormalizable();
    ExemplarHasNoCm();
    Lesion3Facts();
    var xs := ExemplarLesions;
    assert Postprocess.AnyMet(xs) by {
      assert Get(xs[2].fields, "finding_type") == Str("met");
    }
    assert ExemplarFields["summary"] == Obj(ExemplarSummary);
    assert "total_lesion_count" in ExemplarSummary && Get(ExemplarSummary, "metastasis_present") == Bool(true);
    Postprocess.FixedPoint(ExemplarFields);
  }
}
