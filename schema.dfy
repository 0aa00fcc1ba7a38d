/** The extraction schema: the `Lesion`, `Summary` and `ReportExtraction`
    records with their enumerated fields and defaults, the JSON Schema that the
    decoder checks a decoded object against, and the typed construction that
    builds a record from a dictionary and enforces `size_mm >= 0`. */
module Schema {
  import opened Wrappers
  import opened JsonValue

  // ---------------------------------------------------------------------------
  // Enumerated fields
  // ---------------------------------------------------------------------------

  datatype FindingType = Primary | Ln | Met | Indeterminate | Benign
  datatype Laterality = Left | Right | Midline | Bilateral | UnknownSide
  datatype MeasureAxis = Longest | ShortAxis | Perpendicular | UnknownAxis
  datatype Certainty = Present | Possible | Unlikely
  datatype Modality = CT | PETCT | MRI | XR | US | UnknownModality
  datatype BodyRegion = Chest | Abdomen | Pelvis | CAP | WholeBody | UnknownRegion

  const FindingTypeNames: seq<string> := ["primary", "ln", "met", "indeterminate", "benign"]
  const LateralityNames: seq<string> := ["left", "right", "midline", "bilateral", "unknown"]
  const MeasureAxisNames: seq<string> := ["longest", "short_axis", "perpendicular", "unknown"]
  const CertaintyNames: seq<string> := ["present", "possible", "unlikely"]
  const ModalityNames: seq<string> := ["CT", "PETCT", "MRI", "XR", "US", "UNKNOWN"]
  const BodyRegionNames: seq<string> := ["C", "A", "P", "CAP", "WB", "UNKNOWN"]
  const SchemaVersionNames: seq<string> := ["1.0"]

  function FindingTypeName(f: FindingType): (r: string)
    ensures r in FindingTypeNames
  {
    match f
    case Primary => "primary"
    case Ln => "ln"
    case Met => "met"
    case Indeterminate => "indeterminate"
    case Benign => "benign"
  }

  /** The literal accepted for `finding_type`; each allowed name names exactly one value. */
  function ParseFindingType(s: string): (r: Option<FindingType>)
    ensures r.Some? <==> s in FindingTypeNames
    ensures r.Some? ==> FindingTypeName(r.value) == s
  {
    if s == "primary" then Some(Primary)
    else if s == "ln" then Some(Ln)
    else if s == "met" then Some(Met)
    else if s == "indeterminate" then Some(Indeterminate)
    else if s == "benign" then Some(Benign)
    else None
  }

  function LateralityName(l: Laterality): (r: string)
    ensures r in LateralityNames
  {
    match l
    case Left => "left"
    case Right => "right"
    case Midline => "midline"
    case Bilateral => "bilateral"
    case UnknownSide => "unknown"
  }

  function ParseLaterality(s: string): (r: Option<Laterality>)
    ensures r.Some? <==> s in LateralityNames
    ensures r.Some? ==> LateralityName(r.value) == s
  {
    if s == "left" then Some(Left)
    else if s == "right" then Some(Right)
    else if s == "midline" then Some(Midline)
    else if s == "bilateral" then Some(Bilateral)
    else if s == "unknown" then Some(UnknownSide)
    else None
  }

  function MeasureAxisName(a: MeasureAxis): (r: string)
    ensures r in MeasureAxisNames
  {
    match a
    case Longest => "longest"
    case ShortAxis => "short_axis"
    case Perpendicular => "perpendicular"
    case UnknownAxis => "unknown"
  }

  function ParseMeasureAxis(s: string): (r: Option<MeasureAxis>)
    ensures r.Some? <==> s in MeasureAxisNames
    ensures r.Some? ==> MeasureAxisName(r.value) == s
  {
    if s == "longest" then Some(Longest)
    else if s == "short_axis" then Some(ShortAxis)
    else if s == "perpendicular" then Some(Perpendicular)
    else if s == "unknown" then Some(UnknownAxis)
    else None
  }

  function CertaintyName(c: Certainty): (r: string)
    ensures r in CertaintyNames
  {
    match c
    case Present => "present"
    case Possible => "possible"
    case Unlikely => "unlikely"
  }

  function ParseCertainty(s: string): (r: Option<Certainty>)
    ensures r.Some? <==> s in CertaintyNames
    ensures r.Some? ==> CertaintyName(r.value) == s
  {
    if s == "present" then Some(Present)
    else if s == "possible" then Some(Possible)
    else if s == "unlikely" then Some(Unlikely)
    else None
  }

  function ModalityName(m: Modality): (r: string)
    ensures r in ModalityNames
  {
    match m
    case CT => "CT"
    case PETCT => "PETCT"
    case MRI => "MRI"
    case XR => "XR"
    case US => "US"
    case UnknownModality => "UNKNOWN"
  }

  function ParseModality(s: string): (r: Option<Modality>)
    ensures r.Some? <==> s in ModalityNames
    ensures r.Some? ==> ModalityName(r.value) == s
  {
    if s == "CT" then Some(CT)
    else if s == "PETCT" then Some(PETCT)
    else if s == "MRI" then Some(MRI)
    else if s == "XR" then Some(XR)
    else if s == "US" then Some(US)
    else if s == "UNKNOWN" then Some(UnknownModality)
    else None
  }

  function BodyRegionName(b: BodyRegion): (r: string)
    ensures r in BodyRegionNames
  {
    match b
    case Chest => "C"
    case Abdomen => "A"
    case Pelvis => "P"
    case CAP => "CAP"
    case WholeBody => "WB"
    case UnknownRegion => "UNKNOWN"
  }

  function ParseBodyRegion(s: string): (r: Option<BodyRegion>)
    ensures r.Some? <==> s in BodyRegionNames
    ensures r.Some? ==> BodyRegionName(r.value) == s
  {
    if s == "C" then Some(Chest)
    else if s == "A" then Some(Abdomen)
    else if s == "P" then Some(Pelvis)
    else if s == "CAP" then Some(CAP)
    else if s == "WB" then Some(WholeBody)
    else if s == "UNKNOWN" then Some(UnknownRegion)
    else None
  }

  /** Every enumeration name parses back to the value it names. */
  lemma EnumNamesRoundTrip()
    ensures forall f :: ParseFindingType(FindingTypeName(f)) == Some(f)
    ensures forall l :: ParseLaterality(LateralityName(l)) == Some(l)
    ensures forall a :: ParseMeasureAxis(MeasureAxisName(a)) == Some(a)
    ensures forall c :: ParseCertainty(CertaintyName(c)) == Some(c)
    ensures forall m :: ParseModality(ModalityName(m)) == Some(m)
    ensures forall b :: ParseBodyRegion(BodyRegionName(b)) == Some(b)
  {
    forall f: FindingType ensures ParseFindingType(FindingTypeName(f)) == Some(f) {
      FindingTypeNamed(f);
    }
    forall l: Laterality ensures ParseLaterality(LateralityName(l)) == Some(l) {
      LateralityNamed(l);
    }
    forall a: MeasureAxis ensures ParseMeasureAxis(MeasureAxisName(a)) == Some(a) {
      MeasureAxisNamed(a);
    }
    forall c: Certainty ensures ParseCertainty(CertaintyName(c)) == Some(c) {
      CertaintyNamed(c);
    }
    forall m: Modality ensures ParseModality(ModalityName(m)) == Some(m) {
      ModalityNamed(m);
    }
    forall b: BodyRegion ensures ParseBodyRegion(BodyRegionName(b)) == Some(b) {
      BodyRegionNamed(b);
    }
  }

  lemma FindingTypeNamed(f: FindingType)
    ensures ParseFindingType(FindingTypeName(f)) == Some(f)
  {
    match f
    case Primary => case Ln => case Met => case Indeterminate => case Benign =>
  }

  lemma LateralityNamed(l: Laterality)
    ensures ParseLaterality(LateralityName(l)) == Some(l)
  {
    match l
    case Left => case Right => case Midline => case Bilateral => case UnknownSide =>
  }

  lemma MeasureAxisNamed(a: MeasureAxis)
    ensures ParseMeasureAxis(MeasureAxisName(a)) == Some(a)
  {
    match a
    case Longest => case ShortAxis => case Perpendicular => case UnknownAxis =>
  }

  lemma CertaintyNamed(c: Certainty)
    ensures ParseCertainty(CertaintyName(c)) == Some(c)
  {
    match c
    case Present => case Possible => case Unlikely =>
  }

  lemma ModalityNamed(m: Modality)
    ensures ParseModality(ModalityName(m)) == Some(m)
  {
    match m
    case CT => case PETCT => case MRI => case XR => case US => case UnknownModality =>
  }

  lemma BodyRegionNamed(b: BodyRegion)
    ensures ParseBodyRegion(BodyRegionName(b)) == Some(b)
  {
    match b
    case Chest => case Abdomen => case Pelvis => case CAP => case WholeBody => case UnknownRegion =>
  }

  // ---------------------------------------------------------------------------
  // Typed records, with the defaults of the declarations
  // ---------------------------------------------------------------------------

  datatype Lesion = Lesion(
    lesionId: string,
    findingType: FindingType,
    bodySite: string,
    metastaticSite: Option<string>,
    isNode: bool,
    nodeStation: Option<string>,
    laterality: Option<Laterality>,
    measureAxis: Option<MeasureAxis>,
    sizeMm: Option<int>,
    certainty: Option<Certainty>,
    dateRelative: Option<string>,
    note: Option<string>,
    evidenceSpan: Option<string>)

  datatype Summary = Summary(
    modality: Modality,
    bodyRegion: Option<BodyRegion>,
    tnStageReported: Option<string>,
    metastasisPresent: Option<bool>,
    totalLesionCount: Option<int>)

  datatype ReportExtraction = ReportExtraction(
    patientId: Option<string>,
    studyDate: Option<string>,
    reportId: Option<string>,
    summary: Summary,
    lesions: seq<Lesion>,
    modelName: Option<string>,
    promptVersion: Option<string>,
    schemaVersion: string)

  /** The `non_negative` validator: a size, when given, is at least 0. */
  predicate ValidLesion(l: Lesion) {
    l.sizeMm.None? || l.sizeMm.value >= 0
  }

  /** A record that the declarations admit: valid lesions and schema version "1.0". */
  predicate ValidExtraction(x: ReportExtraction) {
    x.schemaVersion == "1.0" && forall i :: 0 <= i < |x.lesions| ==> ValidLesion(x.lesions[i])
  }

  /** `Lesion(lesion_id=..., body_site=...)` with every other field at its default. */
  function DefaultLesion(lesionId: string, bodySite: string): Lesion {
    Lesion(lesionId, Indeterminate, bodySite, None, false, None, Some(UnknownSide),
           Some(UnknownAxis), None, Some(Present), None, None, None)
  }

  function DefaultSummary(): Summary {
    Summary(UnknownModality, Some(UnknownRegion), None, None, None)
  }

  // ---------------------------------------------------------------------------
  // The JSON Schema derived from the declarations
  // ---------------------------------------------------------------------------

  /** The JSON type a field's schema admits (besides `null` when nullable). */
  datatype Leaf = Text | Flag | Integer | OneOf(names: seq<string>)

  /** One property of an object schema: its type, whether `null` is admitted
      (an `Optional` declaration) and whether it is required (no default). */
  datatype FieldSpec = FieldSpec(leaf: Leaf, nullable: bool, required: bool)

  predicate LeafOk(v: Json, leaf: Leaf) {
    match leaf
    case Text => v.Str?
    case Flag => v.Bool?
    case Integer => v.Int?
    case OneOf(names) => v.Str? && v.s in names
  }

  predicate ValueOk(v: Json, f: FieldSpec) {
    (f.nullable && v == Null) || LeafOk(v, f.leaf)
  }

  /** A present field has an admitted value, and a required field is present.
      Keys the schema does not declare are admitted. */
  predicate FieldOk(m: map<string, Json>, k: string, f: FieldSpec) {
    (k in m ==> ValueOk(m[k], f)) && (f.required ==> k in m)
  }

  const NullableText := FieldSpec(Text, true, false)

  /** The properties of the `Lesion` schema. */
  predicate LesionFieldsOk(m: map<string, Json>) {
    && FieldOk(m, "lesion_id", FieldSpec(Text, false, true))
    && FieldOk(m, "finding_type", FieldSpec(OneOf(FindingTypeNames), false, false))
    && FieldOk(m, "body_site", FieldSpec(Text, false, true))
    && FieldOk(m, "metastatic_site", NullableText)
    && FieldOk(m, "is_node", FieldSpec(Flag, false, false))
    && FieldOk(m, "node_station", NullableText)
    && FieldOk(m, "laterality", FieldSpec(OneOf(LateralityNames), true, false))
    && FieldOk(m, "measure_axis", FieldSpec(OneOf(MeasureAxisNames), true, false))
    && FieldOk(m, "size_mm", FieldSpec(Integer, true, false))
    && FieldOk(m, "certainty", FieldSpec(OneOf(CertaintyNames), true, false))
    && FieldOk(m, "date_relative", NullableText)
    && FieldOk(m, "note", NullableText)
    && FieldOk(m, "evidence_span", NullableText)
  }

  /** The properties of the `Summary` schema. */
  predicate SummaryFieldsOk(m: map<string, Json>) {
    && FieldOk(m, "modality", FieldSpec(OneOf(ModalityNames), false, false))
    && FieldOk(m, "body_region", FieldSpec(OneOf(BodyRegionNames), true, false))
    && FieldOk(m, "tn_stage_reported", NullableText)
    && FieldOk(m, "metastasis_present", FieldSpec(Flag, true, false))
    && FieldOk(m, "total_lesion_count", FieldSpec(Integer, true, false))
  }

  /** The scalar properties of the `ReportExtraction` schema; `summary` and
      `lesions` are checked by `Conforms`. */
  predicate ExtractionFieldsOk(m: map<string, Json>) {
    && FieldOk(m, "patient_id", NullableText)
    && FieldOk(m, "study_date", NullableText)
    && FieldOk(m, "report_id", NullableText)
    && FieldOk(m, "model_name", NullableText)
    && FieldOk(m, "prompt_version", NullableText)
    && FieldOk(m, "schema_version", FieldSpec(OneOf(SchemaVersionNames), false, false))
  }

  predicate LesionConforms(j: Json) {
    j.Obj? && LesionFieldsOk(j.fields)
  }

  predicate SummaryConforms(j: Json) {
    j.Obj? && SummaryFieldsOk(j.fields)
  }

  /** The decoded object passes JSON Schema validation of `ReportExtraction`. */
  predicate Conforms(j: Json) {
    && j.Obj?
    && ExtractionFieldsOk(j.fields)
    && "summary" in j.fields && SummaryConforms(j.fields["summary"])
    && "lesions" in j.fields && j.fields["lesions"].Arr?
    && forall i :: 0 <= i < |j.fields["lesions"].items| ==> LesionConforms(j.fields["lesions"].items[i])
  }

  // ---------------------------------------------------------------------------
  // Building typed records from dictionaries (the model constructors)
  // ---------------------------------------------------------------------------

  /** A field of type `str` with no default: it must be present and a string. */
  function ReqText(m: map<string, Json>, k: string): (r: Result<string, string>)
    ensures r.Success? <==> FieldOk(m, k, FieldSpec(Text, false, true))
  {
    if k in m && m[k].Str? then Success(m[k].s) else Failure(k)
  }

  /** A field of type `Optional[str] = None`. */
  function OptText(m: map<string, Json>, k: string): (r: Result<Option<string>, string>)
    ensures r.Success? <==> FieldOk(m, k, NullableText)
  {
    if k !in m || m[k] == Null then Success(None)
    else if m[k].Str? then Success(Some(m[k].s))
    else Failure(k)
  }

  /** A field of type `Optional[int] = None`. */
  function OptInt(m: map<string, Json>, k: string): (r: Result<Option<int>, string>)
    ensures r.Success? <==> FieldOk(m, k, FieldSpec(Integer, true, false))
  {
    if k !in m || m[k] == Null then Success(None)
    else if m[k].Int? then Success(Some(m[k].i))
    else Failure(k)
  }

  /** A field of type `Optional[bool] = None`. */
  function OptFlag(m: map<string, Json>, k: string): (r: Result<Option<bool>, string>)
    ensures r.Success? <==> FieldOk(m, k, FieldSpec(Flag, true, false))
  {
    if k !in m || m[k] == Null then Success(None)
    else if m[k].Bool? then Success(Some(m[k].b))
    else Failure(k)
  }

  /** A field of type `bool` with a default. */
  function BoolField(m: map<string, Json>, k: string, default: bool): (r: Result<bool, string>)
    ensures r.Success? <==> FieldOk(m, k, FieldSpec(Flag, false, false))
  {
    if k !in m then Success(default)
    else if m[k].Bool? then Success(m[k].b)
    else Failure(k)
  }

  /** A field of an enumerated type with a default. */
  function Enum<E>(m: map<string, Json>, k: string, parse: string -> Option<E>, names: seq<string>, default: E): (r: Result<E, string>)
    requires forall s :: parse(s).Some? <==> s in names
    ensures r.Success? <==> FieldOk(m, k, FieldSpec(OneOf(names), false, false))
  {
    if k !in m then Success(default)
    else if m[k].Str? && parse(m[k].s).Some? then Success(parse(m[k].s).value)
    else Failure(k)
  }

  /** A field of an optional enumerated type with a default. */
  function OptEnum<E>(m: map<string, Json>, k: string, parse: string -> Option<E>, names: seq<string>, default: E): (r: Result<Option<E>, string>)
    requires forall s :: parse(s).Some? <==> s in names
    ensures r.Success? <==> FieldOk(m, k, FieldSpec(OneOf(names), true, false))
  {
    if k !in m then Success(Some(default))
    else if m[k] == Null then Success(None)
    else if m[k].Str? && parse(m[k].s).Some? then Success(Some(parse(m[k].s).value))
    else Failure(k)
  }

  /** `Lesion(**m)`: every field converted, then the `non_negative` validator. */
  function LesionFromJson(m: map<string, Json>): (r: Result<Lesion, string>)
    ensures r.Success? <==> LesionFieldsOk(m) && (Get(m, "size_mm").Int? ==> Get(m, "size_mm").i >= 0)
    ensures r.Success? ==> ValidLesion(r.value)
  {
    var id := ReqText(m, "lesion_id");
    var ft := Enum(m, "finding_type", ParseFindingType, FindingTypeNames, Indeterminate);
    var site := ReqText(m, "body_site");
    var ms := OptText(m, "metastatic_site");
    var node := BoolField(m, "is_node", false);
    var st := OptText(m, "node_station");
    var lat := OptEnum(m, "laterality", ParseLaterality, LateralityNames, UnknownSide);
    var ax := OptEnum(m, "measure_axis", ParseMeasureAxis, MeasureAxisNames, UnknownAxis);
    var sz := OptInt(m, "size_mm");
    var cert := OptEnum(m, "certainty", ParseCertainty, CertaintyNames, Present);
    var dr := OptText(m, "date_relative");
    var nt := OptText(m, "note");
    var ev := OptText(m, "evidence_span");
    if id.Failure? then Failure(id.error)
    else if ft.Failure? then Failure(ft.error)
    else if site.Failure? then Failure(site.error)
    else if ms.Failure? then Failure(ms.error)
    else if node.Failure? then Failure(node.error)
    else if st.Failure? then Failure(st.error)
    else if lat.Failure? then Failure(lat.error)
    else if ax.Failure? then Failure(ax.error)
    else if sz.Failure? then Failure(sz.error)
    else if cert.Failure? then Failure(cert.error)
    else if dr.Failure? then Failure(dr.error)
    else if nt.Failure? then Failure(nt.error)
    else if ev.Failure? then Failure(ev.error)
    else if sz.value.Some? && sz.value.value < 0 then Failure("size_mm must be >= 0")
    else Success(Lesion(id.value, ft.value, site.value, ms.value, node.value, st.value, lat.value,
                        ax.value, sz.value, cert.value, dr.value, nt.value, ev.value))
  }

  /** `Summary(**m)`. */
  function SummaryFromJson(m: map<string, Json>): (r: Result<Summary, string>)
    ensures r.Success? <==> SummaryFieldsOk(m)
  {
    var mo := Enum(m, "modality", ParseModality, ModalityNames, UnknownModality);
    var br := OptEnum(m, "body_region", ParseBodyRegion, BodyRegionNames, UnknownRegion);
    var tn := OptText(m, "tn_stage_reported");
    var mp := OptFlag(m, "metastasis_present");
    var tc := OptInt(m, "total_lesion_count");
    if mo.Failure? then Failure(mo.error)
    else if br.Failure? then Failure(br.error)
    else if tn.Failure? then Failure(tn.error)
    else if mp.Failure? then Failure(mp.error)
    else if tc.Failure? then Failure(tc.error)
    else Success(Summary(mo.value, br.value, tn.value, mp.value, tc.value))
  }

  /** A lesion put in front of a list that builds. */
  lemma LesionsCons(x: map<string, Json>, xs: seq<Json>, l: Lesion, ls: seq<Lesion>)
    requires LesionFromJson(x) == Success(l) && LesionsFromJson(xs) == Success(ls)
    ensures LesionsFromJson([Obj(x)] + xs) == Success([l] + ls)
  {
    assert ([Obj(x)] + xs)[1..] == xs;
  }

  /** Three lesion dictionaries that hold the fields of three valid lesions
      make a list that builds those lesions, and each passes JSON Schema
      validation. */
  lemma LesionsOfThree(a: map<string, Json>, b: map<string, Json>, c: map<string, Json>, la: Lesion, lb: Lesion, lc: Lesion)
    requires HoldsFieldsA(a, la) && HoldsFieldsB(a, la) && HoldsFieldsC(a, la) && ValidLesion(la)
    requires HoldsFieldsA(b, lb) && HoldsFieldsB(b, lb) && HoldsFieldsC(b, lb) && ValidLesion(lb)
    requires HoldsFieldsA(c, lc) && HoldsFieldsB(c, lc) && HoldsFieldsC(c, lc) && ValidLesion(lc)
    ensures LesionsFromJson([Obj(a), Obj(b), Obj(c)]) == Success([la, lb, lc])
    ensures forall i :: 0 <= i < 3 ==> LesionConforms([Obj(a), Obj(b), Obj(c)][i])
  {
    LesionBuilt(a, la);
    LesionBuilt(b, lb);
    LesionBuilt(c, lc);
    LesionsCons(c, [], lc, []);
    assert [Obj(c)] + [] == [Obj(c)] && [lc] + [] == [lc];
    LesionsCons(b, [Obj(c)], lb, [lc]);
    assert [Obj(b)] + [Obj(c)] == [Obj(b), Obj(c)] && [lb] + [lc] == [lb, lc];
    LesionsCons(a, [Obj(b), Obj(c)], la, [lb, lc]);
    assert [Obj(a)] + [Obj(b), Obj(c)] == [Obj(a), Obj(b), Obj(c)] && [la] + [lb, lc] == [la, lb, lc];
  }

  /** The lesions of a list, converted in order; the first bad one fails the list. */
  function LesionsFromJson(xs: seq<Json>): (r: Result<seq<Lesion>, string>)
    ensures r.Success? <==> forall i :: 0 <= i < |xs| ==> xs[i].Obj? && LesionFromJson(xs[i].fields).Success?
    ensures r.Success? ==> |r.value| == |xs| && forall i :: 0 <= i < |xs| ==> Success(r.value[i]) == LesionFromJson(xs[i].fields)
  {
    if xs == [] then Success([])
    else if !xs[0].Obj? then Failure("lesions")
    else
      var head := LesionFromJson(xs[0].fields);
      var tail := LesionsFromJson(xs[1..]);
      if head.Failure? then Failure(head.error)
      else if tail.Failure? then Failure(tail.error)
      else
        assert forall i :: 1 <= i < |xs| ==> xs[i] == xs[1..][i - 1];
        Success([head.value] + tail.value)
  }

  /** The `Literal["1.0"]` of `schema_version`. */
  function ParseSchemaVersion(s: string): (r: Option<string>)
    ensures r.Some? <==> s in SchemaVersionNames
  {
    if s == "1.0" then Some(s) else None
  }

  /** No lesion dictionary of the list has a negative integer `size_mm`. */
  predicate SizesNonNegative(xs: seq<Json>) {
    forall i :: 0 <= i < |xs| ==> xs[i].Obj? ==> (Get(xs[i].fields, "size_mm").Int? ==> Get(xs[i].fields, "size_mm").i >= 0)
  }

  /** `ReportExtraction(**m)`: it builds exactly when the object passes JSON
      Schema validation and no lesion size is negative. */
  function ExtractionFromJson(j: Json): (r: Result<ReportExtraction, string>)
    ensures r.Success? <==> Conforms(j) && SizesNonNegative(j.fields["lesions"].items)
    ensures r.Success? ==> ValidExtraction(r.value)
  {
    if !j.Obj? then Failure("object")
    else
      var m := j.fields;
      var pid := OptText(m, "patient_id");
      var sd := OptText(m, "study_date");
      var rid := OptText(m, "report_id");
      var mn := OptText(m, "model_name");
      var pv := OptText(m, "prompt_version");
      var sv := Enum(m, "schema_version", ParseSchemaVersion, SchemaVersionNames, "1.0");
      if pid.Failure? then Failure(pid.error)
      else if sd.Failure? then Failure(sd.error)
      else if rid.Failure? then Failure(rid.error)
      else if "summary" !in m || !m["summary"].Obj? then Failure("summary")
      else if "lesions" !in m || !m["lesions"].Arr? then Failure("lesions")
      else
        var su := SummaryFromJson(m["summary"].fields);
        var ls := LesionsFromJson(m["lesions"].items);
        if su.Failure? then Failure(su.error)
        else if ls.Failure? then Failure(ls.error)
        else if mn.Failure? then Failure(mn.error)
        else if pv.Failure? then Failure(pv.error)
        else if sv.Failure? then Failure(sv.error)
        else Success(ReportExtraction(pid.value, sd.value, rid.value, su.value, ls.value, mn.value, pv.value, sv.value))
  }

  // ---------------------------------------------------------------------------
  // Dumping typed records back to dictionaries (`model_dump`)
  // ---------------------------------------------------------------------------

  function TextJson(o: Option<string>): Json {
    if o.Some? then Str(o.value) else Null
  }

  function LesionToJson(l: Lesion): map<string, Json> {
    map[
      "lesion_id" := Str(l.lesionId),
      "finding_type" := Str(FindingTypeName(l.findingType)),
      "body_site" := Str(l.bodySite),
      "metastatic_site" := TextJson(l.metastaticSite),
      "is_node" := Bool(l.isNode),
      "node_station" := TextJson(l.nodeStation),
      "laterality" := if l.laterality.Some? then Str(LateralityName(l.laterality.value)) else Null,
      "measure_axis" := if l.measureAxis.Some? then Str(MeasureAxisName(l.measureAxis.value)) else Null,
      "size_mm" := if l.sizeMm.Some? then Int(l.sizeMm.value) else Null,
      "certainty" := if l.certainty.Some? then Str(CertaintyName(l.certainty.value)) else Null,
      "date_relative" := TextJson(l.dateRelative),
      "note" := TextJson(l.note),
      "evidence_span" := TextJson(l.evidenceSpan)]
  }

  /** `m` holds the first fields of `l`, each as its declaration reads it. */
  predicate HoldsFieldsA(m: map<string, Json>, l: Lesion) {
    && ReqText(m, "lesion_id") == Success(l.lesionId)
    && Enum(m, "finding_type", ParseFindingType, FindingTypeNames, Indeterminate) == Success(l.findingType)
    && ReqText(m, "body_site") == Success(l.bodySite)
    && OptText(m, "metastatic_site") == Success(l.metastaticSite)
    && BoolField(m, "is_node", false) == Success(l.isNode)
  }

  predicate HoldsFieldsB(m: map<string, Json>, l: Lesion) {
    && OptText(m, "node_station") == Success(l.nodeStation)
    && OptEnum(m, "laterality", ParseLaterality, LateralityNames, UnknownSide) == Success(l.laterality)
    && OptEnum(m, "measure_axis", ParseMeasureAxis, MeasureAxisNames, UnknownAxis) == Success(l.measureAxis)
    && OptInt(m, "size_mm") == Success(l.sizeMm)
  }

  predicate HoldsFieldsC(m: map<string, Json>, l: Lesion) {
    && OptEnum(m, "certainty", ParseCertainty, CertaintyNames, Present) == Success(l.certainty)
    && OptText(m, "date_relative") == Success(l.dateRelative)
    && OptText(m, "note") == Success(l.note)
    && OptText(m, "evidence_span") == Success(l.evidenceSpan)
  }

  /** A dictionary holding every field of a valid lesion builds exactly that lesion. */
  lemma LesionBuilt(m: map<string, Json>, l: Lesion)
    requires HoldsFieldsA(m, l) && HoldsFieldsB(m, l) && HoldsFieldsC(m, l) && ValidLesion(l)
    ensures LesionFromJson(m) == Success(l)
  {
  }

  lemma DumpHoldsFieldsA(l: Lesion)
    ensures HoldsFieldsA(LesionToJson(l), l)
  {
    FindingTypeNamed(l.findingType);
  }

  lemma DumpHoldsFieldsB(l: Lesion)
    ensures HoldsFieldsB(LesionToJson(l), l)
  {
    if l.laterality.Some? { LateralityNamed(l.laterality.value); }
    if l.measureAxis.Some? { MeasureAxisNamed(l.measureAxis.value); }
  }

  lemma DumpHoldsFieldsC(l: Lesion)
    ensures HoldsFieldsC(LesionToJson(l), l)
  {
    if l.certainty.Some? { CertaintyNamed(l.certainty.value); }
  }

  /** A valid lesion survives a dump and a rebuild unchanged, and its dump conforms to the schema. */
  lemma LesionRoundTrip(l: Lesion)
    requires ValidLesion(l)
    ensures LesionFromJson(LesionToJson(l)) == Success(l)
    ensures LesionConforms(Obj(LesionToJson(l)))
  {
    DumpHoldsFieldsA(l);
    DumpHoldsFieldsB(l);
    DumpHoldsFieldsC(l);
    LesionBuilt(LesionToJson(l), l);
  }

  function SummaryToJson(s: Summary): map<string, Json> {
    map[
      "modality" := Str(ModalityName(s.modality)),
      "body_region" := if s.bodyRegion.Some? then Str(BodyRegionName(s.bodyRegion.value)) else Null,
      "tn_stage_reported" := TextJson(s.tnStageReported),
      "metastasis_present" := if s.metastasisPresent.Some? then Bool(s.metastasisPresent.value) else Null,
      "total_lesion_count" := if s.totalLesionCount.Some? then Int(s.totalLesionCount.value) else Null]
  }

  function LesionsToJson(ls: seq<Lesion>): seq<Json> {
    seq(|ls|, i requires 0 <= i < |ls| => Obj(LesionToJson(ls[i])))
  }

  /** `x.model_dump()`: every field, the summary and each lesion as an object. */
  function ExtractionToJson(x: ReportExtraction): map<string, Json> {
    map[
      "patient_id" := TextJson(x.patientId),
      "study_date" := TextJson(x.studyDate),
      "report_id" := TextJson(x.reportId),
      "summary" := Obj(SummaryToJson(x.summary)),
      "lesions" := Arr(LesionsToJson(x.lesions)),
      "model_name" := TextJson(x.modelName),
      "prompt_version" := TextJson(x.promptVersion),
      "schema_version" := Str(x.schemaVersion)]
  }

  /** A summary survives a dump and a rebuild unchanged, and its dump conforms to the schema. */
  lemma SummaryRoundTrip(s: Summary)
    ensures SummaryFromJson(SummaryToJson(s)) == Success(s)
    ensures SummaryConforms(Obj(SummaryToJson(s)))
  {
    ModalityNamed(s.modality);
    if s.bodyRegion.Some? { BodyRegionNamed(s.bodyRegion.value); }
  }

  /** A list of valid lesions survives a dump and a rebuild unchanged; every
      dumped lesion conforms and none has a negative size. */
  lemma LesionsRoundTrip(ls: seq<Lesion>)
    requires forall i :: 0 <= i < |ls| ==> ValidLesion(ls[i])
    ensures LesionsFromJson(LesionsToJson(ls)) == Success(ls)
    ensures forall i :: 0 <= i < |ls| ==> LesionConforms(LesionsToJson(ls)[i])
    ensures SizesNonNegative(LesionsToJson(ls))
  {
    var xs := LesionsToJson(ls);
    forall i | 0 <= i < |ls|
      ensures xs[i].Obj? && LesionFromJson(xs[i].fields) == Success(ls[i]) && LesionConforms(xs[i])
    {
      LesionRoundTrip(ls[i]);
    }
    var r := LesionsFromJson(xs);
    assert r.value == ls by {
      assert |r.value| == |ls| && forall i :: 0 <= i < |ls| ==> r.value[i] == ls[i];
    }
  }

  /** A valid extraction survives a dump and a rebuild unchanged, and its dump
      passes JSON Schema validation. */
  lemma ExtractionRoundTrip(x: ReportExtraction)
    requires ValidExtraction(x)
    ensures Conforms(Obj(ExtractionToJson(x)))
    ensures ExtractionFromJson(Obj(ExtractionToJson(x))) == Success(x)
  {
    var m := ExtractionToJson(x);
    SummaryRoundTrip(x.summary);
    LesionsRoundTrip(x.lesions);
    DumpHoldsScalars(x);
    DumpParts(x);
    ExtractionBuilt(m, x);
  }

  lemma DumpParts(x: ReportExtraction)
    ensures var m := ExtractionToJson(x);
      && "summary" in m && m["summary"] == Obj(SummaryToJson(x.summary))
      && "lesions" in m && m["lesions"] == Arr(LesionsToJson(x.lesions))
  {
  }

  /** `m` holds the scalar fields of `x`, each as its declaration reads it. */
  predicate HoldsScalars(m: map<string, Json>, x: ReportExtraction) {
    && OptText(m, "patient_id") == Success(x.patientId)
    && OptText(m, "study_date") == Success(x.studyDate)
    && OptText(m, "report_id") == Success(x.reportId)
    && OptText(m, "model_name") == Success(x.modelName)
    && OptText(m, "prompt_version") == Success(x.promptVersion)
    && Enum(m, "schema_version", ParseSchemaVersion, SchemaVersionNames, "1.0") == Success(x.schemaVersion)
  }

  /** A dictionary holding the scalars, the summary and the lesions of `x` builds exactly `x`. */
  lemma ExtractionBuilt(m: map<string, Json>, x: ReportExtraction)
    requires HoldsScalars(m, x)
    requires "summary" in m && m["summary"].Obj? && SummaryFromJson(m["summary"].fields) == Success(x.summary)
    requires "lesions" in m && m["lesions"].Arr? && LesionsFromJson(m["lesions"].items) == Success(x.lesions)
    ensures ExtractionFromJson(Obj(m)) == Success(x)
  {
  }

  lemma DumpHoldsScalars(x: ReportExtraction)
    requires x.schemaVersion == "1.0"
    ensures HoldsScalars(ExtractionToJson(x), x)
  {
  }

  /** The boundary of `non_negative`: a size of -1 is rejected ... */
  lemma NegativeSizeRejected(lesionId: string, bodySite: string)
    ensures LesionFromJson(map["lesion_id" := Str(lesionId), "body_site" := Str(bodySite), "size_mm" := Int(-1)]).Failure?
  {
  }

  /** ... a size of 0 is accepted ... */
  lemma ZeroSizeAccepted(lesionId: string, bodySite: string)
    ensures LesionFromJson(map["lesion_id" := Str(lesionId), "body_site" := Str(bodySite), "size_mm" := Int(0)])
         == Success(DefaultLesion(lesionId, bodySite).(sizeMm := Some(0)))
  {
  }

  /** ... and so are a null size and an absent one, both read as no size. */
  lemma NoSizeAccepted(lesionId: string, bodySite: string)
    ensures LesionFromJson(map["lesion_id" := Str(lesionId), "body_site" := Str(bodySite), "size_mm" := Null])
         == Success(DefaultLesion(lesionId, bodySite))
    ensures LesionFromJson(map["lesion_id" := Str(lesionId), "body_site" := Str(bodySite)])
         == Success(DefaultLesion(lesionId, bodySite))
  {
  }

  /** `lesion_id` and `body_site` have no default: without either, construction fails. */
  lemma RequiredLesionFields(m: map<string, Json>)
    requires "lesion_id" !in m || "body_site" !in m
    ensures LesionFromJson(m).Failure?
    ensures !LesionConforms(Obj(m))
  {
  }

  /** The extraction used by the validation test. */
  const ExampleSummary: map<string, Json> := map[
    "modality" := Str("CT"), "body_region" := Str("CAP"),
    "metastasis_present" := Bool(true), "total_lesion_count" := Int(2)]
  const ExampleLesion1: map<string, Json> := map[
    "lesion_id" := Str("L1"), "finding_type" := Str("primary"), "body_site" := Str("lung"),
    "size_mm" := Int(28)]
  const ExampleLesion2: map<string, Json> := map[
    "lesion_id" := Str("L2"), "finding_type" := Str("ln"), "body_site" := Str("mediastinum"),
    "is_node" := Bool(true), "node_station" := Str("4R"), "size_mm" := Int(12)]
  const ExampleExtraction: Json := Obj(map[
    "summary" := Obj(ExampleSummary),
    "lesions" := Arr([Obj(ExampleLesion1), Obj(ExampleLesion2)])])

  const ExampleTyped1 := DefaultLesion("L1", "lung").(findingType := Primary, sizeMm := Some(28))
  const ExampleTyped2 := DefaultLesion("L2", "mediastinum").(findingType := Ln, isNode := true,
                                                             nodeStation := Some("4R"), sizeMm := Some(12))

  lemma ExampleLesion1Builds()
    ensures LesionFromJson(ExampleLesion1) == Success(ExampleTyped1)
  {
    assert HoldsFieldsA(ExampleLesion1, ExampleTyped1);
    assert HoldsFieldsB(ExampleLesion1, ExampleTyped1);
    assert HoldsFieldsC(ExampleLesion1, ExampleTyped1);
    LesionBuilt(ExampleLesion1, ExampleTyped1);
  }

  lemma ExampleLesion2Builds()
    ensures LesionFromJson(ExampleLesion2) == Success(ExampleTyped2)
  {
    assert HoldsFieldsA(ExampleLesion2, ExampleTyped2);
    assert HoldsFieldsB(ExampleLesion2, ExampleTyped2);
    assert HoldsFieldsC(ExampleLesion2, ExampleTyped2);
    LesionBuilt(ExampleLesion2, ExampleTyped2);
  }

  /** The extraction of the validation test builds, with a lesion count of 2,
      and it also passes JSON Schema validation. */
  lemma ValidationExample()
    ensures ExtractionFromJson(ExampleExtraction)
         == Success(ReportExtraction(None, None, None, Summary(CT, Some(CAP), None, Some(true), Some(2)),
                                     [ExampleTyped1, ExampleTyped2], None, None, "1.0"))
    ensures Conforms(ExampleExtraction)
  {
    var m := ExampleExtraction.fields;
    assert m["lesions"] == Arr(ExampleLesionList) && m["summary"] == Obj(ExampleSummary);
    ExampleSummaryBuilds();
    ExampleLesionsBuild();
    ExampleScalarsBuild();
  }

  lemma ExampleScalarsBuild()
    ensures var m := ExampleExtraction.fields;
      && OptText(m, "patient_id") == OptText(m, "study_date") == OptText(m, "report_id") == Success(None)
      && OptText(m, "model_name") == OptText(m, "prompt_version") == Success(None)
      && "schema_version" !in m
  {
  }

  const ExampleLesionList := [Obj(ExampleLesion1), Obj(ExampleLesion2)]

  lemma ExampleSummaryBuilds()
    ensures SummaryFromJson(ExampleSummary) == Success(Summary(CT, Some(CAP), None, Some(true), Some(2)))
  {
  }

  lemma ExampleLesionsBuild()
    ensures LesionsFromJson(ExampleLesionList) == Success([ExampleTyped1, ExampleTyped2])
    ensures forall i :: 0 <= i < |ExampleLesionList| ==> LesionConforms(ExampleLesionList[i])
  {
    ExampleLesion1Builds();
    ExampleLesion2Builds();
    var xs := ExampleLesionList;
    assert xs[1..] == [Obj(ExampleLesion2)] && xs[1..][1..] == [];
    assert LesionsFromJson(xs[1..][1..]) == Success([]);
    assert xs[1..][0] == Obj(ExampleLesion2);
    assert LesionsFromJson(xs[1..]) == Success([ExampleTyped2] + []);
    assert [ExampleTyped2] + [] == [ExampleTyped2];
    assert xs[0] == Obj(ExampleLesion1);
    assert LesionsFromJson(xs) == Success([ExampleTyped1] + [ExampleTyped2]);
    assert [ExampleTyped1] + [ExampleTyped2] == [ExampleTyped1, ExampleTyped2];
  }
}
