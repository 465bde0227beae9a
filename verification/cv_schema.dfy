/** The CV record of preprocess/schemas/cv_schema.py: which fields a
    structured result must carry, which may be None, and the `before`
    validator that turns a None list into an empty one. Validation reads a
    JSON-like record the way pydantic's lax mode does for these field types
    (a `str` field takes only a string; unknown keys are ignored) and stops
    at the first invalid field; dumping writes every field back. */
module CvSchema {
  import opened Results
  import opened Dicts
  import opened Json
  import Postprocessing

  datatype Location = Location(city: Option<string>, country: Option<string>, region: Option<string>)

  datatype Education = Education(degree: Option<string>, institution: string, year: Option<string>, field: Option<string>)

  datatype Language = Language(language: Option<string>, proficiency: Option<string>)

  datatype Profile = Profile(network: Option<string>, url: Option<string>)

  datatype Experience = Experience(
    position: Option<string>, company: Option<string>,
    startDate: Option<string>, endDate: Option<string>,
    description: string)

  datatype DocumentSchema = DocumentSchema(
    summary: string, name: string,
    location: Option<Location>, email: Option<string>, phone: Option<string>,
    profiles: seq<Profile>, professionalExperience: seq<Experience>, education: seq<Education>,
    skills: seq<string>, languages: seq<Language>, certifications: seq<string>)

  /** The (top-level) field where validation failed. */
  datatype ValidationError = Invalid(field: string)

  /** The fields `empty_list_if_none` is registered for. */
  const ListValidatorFields: seq<string> :=
    ["profiles", "professional_experience", "education", "skills", "languages", "certifications"]

  /** `empty_list_if_none`: None becomes `[]`, any other value passes. */
  function EmptyListIfNone(v: Value): (r: Value)
    ensures r != Null
    ensures v == Null ==> r == List([])
    ensures v != Null ==> r == v
  {
    if v == Null then List([]) else v
  }

  // ----- reading values -----

  function OptStr(v: Option<Value>): Option<Option<string>> {
    match v
    case None => Some(None)
    case Some(Null) => Some(None)
    case Some(Str(s)) => Some(Some(s))
    case Some(_) => None
  }

  function ReqStr(v: Option<Value>): Option<string> {
    match v
    case Some(Str(s)) => Some(s)
    case _ => None
  }

  function LocationFrom(city: Option<Value>, country: Option<Value>, region: Option<Value>): Option<Location> {
    var city := OptStr(city);
    var country := OptStr(country);
    var region := OptStr(region);
    if city.Some? && country.Some? && region.Some? then Some(Location(city.value, country.value, region.value))
    else None
  }

  function ParseLocation(v: Value): Option<Location> {
    match v
    case Obj(fs) => LocationFrom(Lookup(fs, "city"), Lookup(fs, "country"), Lookup(fs, "region"))
    case _ => None
  }

  function EducationFrom(degree: Option<Value>, institution: Option<Value>, year: Option<Value>, field: Option<Value>): Option<Education> {
    var degree := OptStr(degree);
    var institution := ReqStr(institution);
    var year := OptStr(year);
    var field := OptStr(field);
    if degree.Some? && institution.Some? && year.Some? && field.Some? then
      Some(Education(degree.value, institution.value, year.value, field.value))
    else None
  }

  function ParseEducation(v: Value): Option<Education> {
    match v
    case Obj(fs) => EducationFrom(Lookup(fs, "degree"), Lookup(fs, "institution"), Lookup(fs, "year"), Lookup(fs, "field"))
    case _ => None
  }

  function LanguageFrom(language: Option<Value>, proficiency: Option<Value>): Option<Language> {
    var language := OptStr(language);
    var proficiency := OptStr(proficiency);
    if language.Some? && proficiency.Some? then Some(Language(language.value, proficiency.value)) else None
  }

  function ParseLanguage(v: Value): Option<Language> {
    match v
    case Obj(fs) => LanguageFrom(Lookup(fs, "language"), Lookup(fs, "proficiency"))
    case _ => None
  }

  function ProfileFrom(network: Option<Value>, url: Option<Value>): Option<Profile> {
    var network := OptStr(network);
    var url := OptStr(url);
    if network.Some? && url.Some? then Some(Profile(network.value, url.value)) else None
  }

  function ParseProfile(v: Value): Option<Profile> {
    match v
    case Obj(fs) => ProfileFrom(Lookup(fs, "network"), Lookup(fs, "url"))
    case _ => None
  }

  function ExperienceFrom(position: Option<Value>, company: Option<Value>, startDate: Option<Value>,
                          endDate: Option<Value>, description: Option<Value>): Option<Experience> {
    var position := OptStr(position);
    var company := OptStr(company);
    var startDate := OptStr(startDate);
    var endDate := OptStr(endDate);
    var description := ReqStr(description);
    if position.Some? && company.Some? && startDate.Some? && endDate.Some? && description.Some? then
      Some(Experience(position.value, company.value, startDate.value, endDate.value, description.value))
    else None
  }

  function ParseExperience(v: Value): Option<Experience> {
    match v
    case Obj(fs) =>
      ExperienceFrom(Lookup(fs, "position"), Lookup(fs, "company"), Lookup(fs, "start_date"),
        Lookup(fs, "end_date"), Lookup(fs, "description"))
    case _ => None
  }

  function ParseString(v: Value): Option<string> {
    match v
    case Str(s) => Some(s)
    case _ => None
  }

  /** Every element through `item`, or None if one fails. */
  function ParseItems<T>(xs: seq<Value>, item: Value -> Option<T>): (r: Option<seq<T>>)
    ensures r.Some? <==> forall i :: 0 <= i < |xs| ==> item(xs[i]).Some?
    ensures r.Some? ==> |r.value| == |xs|
    ensures r.Some? ==> forall i :: 0 <= i < |xs| ==> r.value[i] == item(xs[i]).value
  {
    if |xs| == 0 then Some([])
    else
      var head := item(xs[0]);
      var rest := ParseItems(xs[1..], item);
      if head.Some? && rest.Some? then Some([head.value] + rest.value) else None
  }

  /** A list field: absent means the default `[]`; a present value goes
      through `empty_list_if_none` and must then be a list of valid items. */
  function ParseListField<T>(v: Option<Value>, item: Value -> Option<T>): Option<seq<T>> {
    match v
    case None => Some([])
    case Some(v) =>
      match EmptyListIfNone(v)
      case List(xs) => ParseItems(xs, item)
      case _ => None
  }

  function ParseOptLocation(v: Option<Value>): Option<Option<Location>> {
    match v
    case None => Some(None)
    case Some(Null) => Some(None)
    case Some(x) =>
      var l := ParseLocation(x);
      if l.Some? then Some(Some(l.value)) else None
  }

  /** The field values of a record, each as `raw.get(name)` finds it. */
  datatype RawFields = RawFields(
    summary: Option<Value>, name: Option<Value>, location: Option<Value>, email: Option<Value>, phone: Option<Value>,
    profiles: Option<Value>, professionalExperience: Option<Value>, education: Option<Value>,
    skills: Option<Value>, languages: Option<Value>, certifications: Option<Value>)

  function FieldsOf(raw: Record): RawFields {
    RawFields(Lookup(raw, "summary"), Lookup(raw, "name"), Lookup(raw, "location"), Lookup(raw, "email"),
      Lookup(raw, "phone"), Lookup(raw, "profiles"), Lookup(raw, "professional_experience"),
      Lookup(raw, "education"), Lookup(raw, "skills"), Lookup(raw, "languages"), Lookup(raw, "certifications"))
  }

  /** Validation of the field values, failing on the first invalid field in
      declaration order. */
  function ValidateFields(f: RawFields): Result<DocumentSchema, ValidationError> {
    var summary := ReqStr(f.summary);
    var name := ReqStr(f.name);
    var location := ParseOptLocation(f.location);
    var email := OptStr(f.email);
    var phone := OptStr(f.phone);
    var profiles := ParseListField(f.profiles, ParseProfile);
    var experience := ParseListField(f.professionalExperience, ParseExperience);
    var education := ParseListField(f.education, ParseEducation);
    var skills := ParseListField(f.skills, ParseString);
    var languages := ParseListField(f.languages, ParseLanguage);
    var certifications := ParseListField(f.certifications, ParseString);
    if summary.None? then Err(Invalid("summary"))
    else if name.None? then Err(Invalid("name"))
    else if location.None? then Err(Invalid("location"))
    else if email.None? then Err(Invalid("email"))
    else if phone.None? then Err(Invalid("phone"))
    else if profiles.None? then Err(Invalid("profiles"))
    else if experience.None? then Err(Invalid("professional_experience"))
    else if education.None? then Err(Invalid("education"))
    else if skills.None? then Err(Invalid("skills"))
    else if languages.None? then Err(Invalid("languages"))
    else if certifications.None? then Err(Invalid("certifications"))
    else Ok(DocumentSchema(summary.value, name.value, location.value, email.value, phone.value,
      profiles.value, experience.value, education.value, skills.value, languages.value, certifications.value))
  }

  /** `DocumentSchema.model_validate(raw)`. */
  function Validate(raw: Record): (r: Result<DocumentSchema, ValidationError>)
    ensures r.Ok? ==> Lookup(raw, "summary").Some? && Lookup(raw, "summary").value == Str(r.value.summary)
    ensures r.Ok? ==> Lookup(raw, "name").Some? && Lookup(raw, "name").value == Str(r.value.name)
    ensures !(Lookup(raw, "summary").Some? && Lookup(raw, "summary").value.Str?) ==> r == Err(Invalid("summary"))
    ensures (Lookup(raw, "summary").Some? && Lookup(raw, "summary").value.Str?
      && !(Lookup(raw, "name").Some? && Lookup(raw, "name").value.Str?)) ==> r == Err(Invalid("name"))
  {
    ValidateFields(FieldsOf(raw))
  }

  // ----- writing values (`model_dump`) -----

  function StrOrNull(s: Option<string>): Value {
    match s
    case Some(x) => Str(x)
    case None => Null
  }

  function LocationToValue(l: Location): Value {
    Obj([("city", StrOrNull(l.city)), ("country", StrOrNull(l.country)), ("region", StrOrNull(l.region))])
  }

  function EducationToValue(e: Education): Value {
    Obj([("degree", StrOrNull(e.degree)), ("institution", Str(e.institution)),
         ("year", StrOrNull(e.year)), ("field", StrOrNull(e.field))])
  }

  function LanguageToValue(l: Language): Value {
    Obj([("language", StrOrNull(l.language)), ("proficiency", StrOrNull(l.proficiency))])
  }

  function ProfileToValue(p: Profile): Value {
    Obj([("network", StrOrNull(p.network)), ("url", StrOrNull(p.url))])
  }

  function ExperienceToValue(e: Experience): Value {
    Obj([("position", StrOrNull(e.position)), ("company", StrOrNull(e.company)),
         ("start_date", StrOrNull(e.startDate)), ("end_date", StrOrNull(e.endDate)),
         ("description", Str(e.description))])
  }

  function StringToValue(s: string): Value {
    Str(s)
  }

  function ItemsToValue<T>(ts: seq<T>, render: T -> Value): Value {
    List(seq(|ts|, i requires 0 <= i < |ts| => render(ts[i])))
  }

  /** `model_dump()`: every field, in declaration order. */
  function ToRecord(d: DocumentSchema): Record {
    [ ("summary", Str(d.summary)),
      ("name", Str(d.name)),
      ("location", match d.location case Some(l) => LocationToValue(l) case None => Null),
      ("email", StrOrNull(d.email)),
      ("phone", StrOrNull(d.phone)),
      ("profiles", ItemsToValue(d.profiles, ProfileToValue)),
      ("professional_experience", ItemsToValue(d.professionalExperience, ExperienceToValue)),
      ("education", ItemsToValue(d.education, EducationToValue)),
      ("skills", ItemsToValue(d.skills, StringToValue)),
      ("languages", ItemsToValue(d.languages, LanguageToValue)),
      ("certifications", ItemsToValue(d.certifications, StringToValue)) ]
  }

  // ----- laws -----

  /** The validator covers exactly the list fields that the merge
      concatenates. */
  lemma ValidatorFieldsAreMergeListFields()
    ensures forall f :: f in ListValidatorFields <==> f in Postprocessing.ListFields
  {
  }

  /** `a` reads as `b` once `empty_list_if_none` has run. */
  predicate NoneAsEmpty(a: Option<Value>, b: Option<Value>) {
    a == b || (a == Some(Null) && b == Some(List([])))
  }

  lemma ListFieldNoneAsEmpty<T>(a: Option<Value>, b: Option<Value>, item: Value -> Option<T>)
    requires NoneAsEmpty(a, b)
    ensures ParseListField(a, item) == ParseListField(b, item)
  {
  }

  /** `a` and `b` agree on the scalar fields and differ at most by None
      list fields that are empty lists in `b`. */
  predicate FieldsNoneAsEmpty(a: RawFields, b: RawFields) {
    && a.summary == b.summary && a.name == b.name && a.location == b.location
    && a.email == b.email && a.phone == b.phone
    && NoneAsEmpty(a.profiles, b.profiles) && NoneAsEmpty(a.professionalExperience, b.professionalExperience)
    && NoneAsEmpty(a.education, b.education) && NoneAsEmpty(a.skills, b.skills)
    && NoneAsEmpty(a.languages, b.languages) && NoneAsEmpty(a.certifications, b.certifications)
  }

  lemma ValidateFieldsNoneAsEmpty(a: RawFields, b: RawFields)
    requires FieldsNoneAsEmpty(a, b)
    ensures ValidateFields(a) == ValidateFields(b)
  {
    ListFieldNoneAsEmpty(a.profiles, b.profiles, ParseProfile);
    ListFieldNoneAsEmpty(a.professionalExperience, b.professionalExperience, ParseExperience);
    ListFieldNoneAsEmpty(a.education, b.education, ParseEducation);
    ListFieldNoneAsEmpty(a.skills, b.skills, ParseString);
    ListFieldNoneAsEmpty(a.languages, b.languages, ParseLanguage);
    ListFieldNoneAsEmpty(a.certifications, b.certifications, ParseString);
  }

  lemma SetNoneAsEmpty(raw: Record, f: string, g: string)
    ensures NoneAsEmpty(Lookup(Set(raw, f, Null), g), Lookup(Set(raw, f, List([])), g))
    ensures g != f ==> Lookup(Set(raw, f, Null), g) == Lookup(Set(raw, f, List([])), g)
  {
  }

  lemma ListFieldIsNotScalar(f: string)
    requires f in ListValidatorFields
    ensures f != "summary" && f != "name" && f != "location" && f != "email" && f != "phone"
  {
  }

  lemma FieldsNoneAsEmptyOf(a: Record, b: Record)
    requires NoneAsEmpty(Lookup(a, "profiles"), Lookup(b, "profiles"))
    requires NoneAsEmpty(Lookup(a, "professional_experience"), Lookup(b, "professional_experience"))
    requires NoneAsEmpty(Lookup(a, "education"), Lookup(b, "education"))
    requires NoneAsEmpty(Lookup(a, "skills"), Lookup(b, "skills"))
    requires NoneAsEmpty(Lookup(a, "languages"), Lookup(b, "languages"))
    requires NoneAsEmpty(Lookup(a, "certifications"), Lookup(b, "certifications"))
    requires Lookup(a, "summary") == Lookup(b, "summary") && Lookup(a, "name") == Lookup(b, "name")
    requires Lookup(a, "location") == Lookup(b, "location")
    requires Lookup(a, "email") == Lookup(b, "email") && Lookup(a, "phone") == Lookup(b, "phone")
    ensures FieldsNoneAsEmpty(FieldsOf(a), FieldsOf(b))
  {
  }

  lemma SetFieldsNoneAsEmpty(raw: Record, f: string)
    requires f in ListValidatorFields
    ensures FieldsNoneAsEmpty(FieldsOf(Set(raw, f, Null)), FieldsOf(Set(raw, f, List([]))))
  {
    ListFieldIsNotScalar(f);
    SetNoneAsEmpty(raw, f, "profiles");
    SetNoneAsEmpty(raw, f, "professional_experience");
    SetNoneAsEmpty(raw, f, "education");
    SetNoneAsEmpty(raw, f, "skills");
    SetNoneAsEmpty(raw, f, "languages");
    SetNoneAsEmpty(raw, f, "certifications");
    SetNoneAsEmpty(raw, f, "summary");
    SetNoneAsEmpty(raw, f, "name");
    SetNoneAsEmpty(raw, f, "location");
    SetNoneAsEmpty(raw, f, "email");
    SetNoneAsEmpty(raw, f, "phone");
    FieldsNoneAsEmptyOf(Set(raw, f, Null), Set(raw, f, List([])));
  }

  /** A None list field validates exactly as an empty list would. */
  lemma NoneListValidatesAsEmpty(raw: Record, f: string)
    requires f in ListValidatorFields
    ensures Validate(Set(raw, f, Null)) == Validate(Set(raw, f, List([])))
  {
    SetFieldsNoneAsEmpty(raw, f);
    ValidateFieldsNoneAsEmpty(FieldsOf(Set(raw, f, Null)), FieldsOf(Set(raw, f, List([]))));
  }

  /** `summary` and `name` are required strings: a record validates only if
      both are present as strings. */
  lemma RequiredTopLevel(raw: Record)
    ensures Validate(raw).Ok? ==> (Lookup(raw, "summary").Some? && Lookup(raw, "summary").value.Str?)
    ensures Validate(raw).Ok? ==> (Lookup(raw, "name").Some? && Lookup(raw, "name").value.Str?)
    ensures Validate(raw).Ok? ==> Validate(raw).value.summary == Lookup(raw, "summary").value.s
    ensures Validate(raw).Ok? ==> Validate(raw).value.name == Lookup(raw, "name").value.s
  {
  }

  /** Every other field is optional: a record holding only a summary and a
      name validates, with None for the optional scalars and `[]` for the
      list fields. */
  lemma OnlyRequiredFields(summary: string, name: string)
    ensures Validate([("summary", Str(summary)), ("name", Str(name))])
      == Ok(DocumentSchema(summary, name, None, None, None, [], [], [], [], [], []))
  {
    RequiredOnlyFields(summary, name);
    ValidateFieldsOk(RawFields(Some(Str(summary)), Some(Str(name)), None, None, None, None, None, None, None, None, None),
      DocumentSchema(summary, name, None, None, None, [], [], [], [], [], []));
  }

  lemma RequiredOnlyFields(summary: string, name: string)
    ensures FieldsOf([("summary", Str(summary)), ("name", Str(name))])
      == RawFields(Some(Str(summary)), Some(Str(name)), None, None, None, None, None, None, None, None, None)
  {
    var raw: Record := [("summary", Str(summary)), ("name", Str(name))];
    LookupFirst(raw, 0, "summary");
    LookupFirst(raw, 1, "name");
    forall k | k != "summary" && k != "name" ensures Lookup(raw, k) == None {
      assert !Has(raw, k);
    }
  }

  /** In the nested records only `Education.institution` and
      `Experience.description` are required. */
  lemma NestedRequiredFields(fs: Record)
    ensures ParseEducation(Obj(fs)).Some? ==> ReqStr(Lookup(fs, "institution")).Some?
    ensures ParseExperience(Obj(fs)).Some? ==> ReqStr(Lookup(fs, "description")).Some?
  {
  }

  lemma EducationNeedsOnlyInstitution(i: string)
    ensures ParseEducation(Obj([("institution", Str(i))])) == Some(Education(None, i, None, None))
  {
    var fs: Record := [("institution", Str(i))];
    LookupFirst(fs, 0, "institution");
    forall k | k != "institution" ensures Lookup(fs, k) == None {
      assert !Has(fs, k);
    }
  }

  lemma ExperienceNeedsOnlyDescription(d: string)
    ensures ParseExperience(Obj([("description", Str(d))])) == Some(Experience(None, None, None, None, d))
  {
    var fs: Record := [("description", Str(d))];
    LookupFirst(fs, 0, "description");
    forall k | k != "description" ensures Lookup(fs, k) == None {
      assert !Has(fs, k);
    }
  }

  /** Location, Language and Profile have no required field. */
  lemma EmptyNestedRecords()
    ensures ParseLocation(Obj([])) == Some(Location(None, None, None))
    ensures ParseLanguage(Obj([])) == Some(Language(None, None))
    ensures ParseProfile(Obj([])) == Some(Profile(None, None))
  {
  }

  lemma {:induction false} ParseItemsRoundTrip<T>(ts: seq<T>, item: Value -> Option<T>, render: T -> Value)
    requires forall t :: item(render(t)) == Some(t)
    ensures ParseItems(ItemsToValue(ts, render).items, item) == Some(ts)
  {
    var xs := ItemsToValue(ts, render).items;
    if |ts| > 0 {
      ParseItemsRoundTrip(ts[1..], item, render);
      assert xs[1..] == ItemsToValue(ts[1..], render).items;
      assert [ts[0]] + ts[1..] == ts;
    }
  }

  lemma OptStrRoundTrip(s: Option<string>)
    ensures OptStr(Some(StrOrNull(s))) == Some(s)
  {
  }

  /** A record laid out with the keys of `Education`, in declaration order. */
  predicate EducationLayout(raw: Record) {
    |raw| == 4 && raw[0].0 == "degree" && raw[1].0 == "institution" && raw[2].0 == "year" && raw[3].0 == "field"
  }

  lemma EducationLayoutUnique(raw: Record)
    requires EducationLayout(raw)
    ensures UniqueKeys(raw)
  {
  }

  lemma EducationLookups(raw: Record)
    requires EducationLayout(raw)
    ensures Lookup(raw, "degree") == Some(raw[0].1)
    ensures Lookup(raw, "institution") == Some(raw[1].1)
    ensures Lookup(raw, "year") == Some(raw[2].1)
    ensures Lookup(raw, "field") == Some(raw[3].1)
  {
    EducationLayoutUnique(raw);
  }

  /** A record laid out with the keys of `Experience`, in declaration order. */
  predicate ExperienceLayout(raw: Record) {
    |raw| == 5 && raw[0].0 == "position" && raw[1].0 == "company" && raw[2].0 == "start_date" && raw[3].0 == "end_date" && raw[4].0 == "description"
  }

  lemma ExperienceLayoutUnique(raw: Record)
    requires ExperienceLayout(raw)
    ensures UniqueKeys(raw)
  {
  }

  lemma ExperienceLookups(raw: Record)
    requires ExperienceLayout(raw)
    ensures Lookup(raw, "position") == Some(raw[0].1)
    ensures Lookup(raw, "company") == Some(raw[1].1)
    ensures Lookup(raw, "start_date") == Some(raw[2].1)
    ensures Lookup(raw, "end_date") == Some(raw[3].1)
    ensures Lookup(raw, "description") == Some(raw[4].1)
  {
    ExperienceLayoutUnique(raw);
  }

  /** A record laid out with the keys of `DocumentSchema`, in declaration order. */
  predicate DocumentLayout(raw: Record) {
    |raw| == 11 && raw[0].0 == "summary" && raw[1].0 == "name" && raw[2].0 == "location" && raw[3].0 == "email" && raw[4].0 == "phone" && raw[5].0 == "profiles" && raw[6].0 == "professional_experience" && raw[7].0 == "education" && raw[8].0 == "skills" && raw[9].0 == "languages" && raw[10].0 == "certifications"
  }

  lemma DocumentLayoutUnique(raw: Record)
    requires DocumentLayout(raw)
    ensures UniqueKeys(raw)
  {
  }

  lemma DocumentLookups(raw: Record)
    requires DocumentLayout(raw)
    ensures Lookup(raw, "summary") == Some(raw[0].1)
    ensures Lookup(raw, "name") == Some(raw[1].1)
    ensures Lookup(raw, "location") == Some(raw[2].1)
    ensures Lookup(raw, "email") == Some(raw[3].1)
    ensures Lookup(raw, "phone") == Some(raw[4].1)
    ensures Lookup(raw, "profiles") == Some(raw[5].1)
    ensures Lookup(raw, "professional_experience") == Some(raw[6].1)
    ensures Lookup(raw, "education") == Some(raw[7].1)
    ensures Lookup(raw, "skills") == Some(raw[8].1)
    ensures Lookup(raw, "languages") == Some(raw[9].1)
    ensures Lookup(raw, "certifications") == Some(raw[10].1)
  {
    DocumentLayoutUnique(raw);
  }

  lemma LocationRoundTrip(l: Location)
    ensures ParseLocation(LocationToValue(l)) == Some(l)
  {
    LocationKeys(LocationToValue(l).fields);
    LocationFromDump(l);
  }

  lemma LocationKeys(fs: Record)
    requires |fs| == 3 && fs[0].0 == "city" && fs[1].0 == "country" && fs[2].0 == "region"
    ensures Lookup(fs, "city") == Some(fs[0].1)
    ensures Lookup(fs, "country") == Some(fs[1].1)
    ensures Lookup(fs, "region") == Some(fs[2].1)
  {
    LookupFirst(fs, 0, "city");
    LookupFirst(fs, 1, "country");
    LookupFirst(fs, 2, "region");
  }

  lemma LocationFromDump(l: Location)
    ensures LocationFrom(Some(StrOrNull(l.city)), Some(StrOrNull(l.country)), Some(StrOrNull(l.region))) == Some(l)
  {
    OptStrRoundTrip(l.city); OptStrRoundTrip(l.country); OptStrRoundTrip(l.region);
  }

  lemma EducationFromDump(e: Education)
    ensures EducationFrom(Some(StrOrNull(e.degree)), Some(Str(e.institution)), Some(StrOrNull(e.year)),
      Some(StrOrNull(e.field))) == Some(e)
  {
    OptStrRoundTrip(e.degree); OptStrRoundTrip(e.year); OptStrRoundTrip(e.field);
  }

  lemma EducationRoundTrip(e: Education)
    ensures ParseEducation(EducationToValue(e)) == Some(e)
  {
    EducationLookups(EducationToValue(e).fields);
    EducationFromDump(e);
  }

  lemma LanguageRoundTrip(l: Language)
    ensures ParseLanguage(LanguageToValue(l)) == Some(l)
  {
    var fs := LanguageToValue(l).fields;
    LookupFirst(fs, 0, "language");
    LookupFirst(fs, 1, "proficiency");
    OptStrRoundTrip(l.language); OptStrRoundTrip(l.proficiency);
  }

  lemma ProfileRoundTrip(p: Profile)
    ensures ParseProfile(ProfileToValue(p)) == Some(p)
  {
    var fs := ProfileToValue(p).fields;
    LookupFirst(fs, 0, "network");
    LookupFirst(fs, 1, "url");
    OptStrRoundTrip(p.network); OptStrRoundTrip(p.url);
  }

  lemma ExperienceFromDump(e: Experience)
    ensures ExperienceFrom(Some(StrOrNull(e.position)), Some(StrOrNull(e.company)), Some(StrOrNull(e.startDate)),
      Some(StrOrNull(e.endDate)), Some(Str(e.description))) == Some(e)
  {
    OptStrRoundTrip(e.position); OptStrRoundTrip(e.company);
    OptStrRoundTrip(e.startDate); OptStrRoundTrip(e.endDate);
  }

  lemma ExperienceRoundTrip(e: Experience)
    ensures ParseExperience(ExperienceToValue(e)) == Some(e)
  {
    ExperienceLookups(ExperienceToValue(e).fields);
    ExperienceFromDump(e);
  }

  /** Where each field of a dumped record sits. */
  lemma DumpLookups(d: DocumentSchema)
    ensures Lookup(ToRecord(d), "summary") == Some(Str(d.summary))
    ensures Lookup(ToRecord(d), "name") == Some(Str(d.name))
    ensures Lookup(ToRecord(d), "location") == Some(ToRecord(d)[2].1)
    ensures Lookup(ToRecord(d), "email") == Some(StrOrNull(d.email))
    ensures Lookup(ToRecord(d), "phone") == Some(StrOrNull(d.phone))
    ensures Lookup(ToRecord(d), "profiles") == Some(ItemsToValue(d.profiles, ProfileToValue))
    ensures Lookup(ToRecord(d), "professional_experience") == Some(ItemsToValue(d.professionalExperience, ExperienceToValue))
    ensures Lookup(ToRecord(d), "education") == Some(ItemsToValue(d.education, EducationToValue))
    ensures Lookup(ToRecord(d), "skills") == Some(ItemsToValue(d.skills, StringToValue))
    ensures Lookup(ToRecord(d), "languages") == Some(ItemsToValue(d.languages, LanguageToValue))
    ensures Lookup(ToRecord(d), "certifications") == Some(ItemsToValue(d.certifications, StringToValue))
  {
    DocumentLookups(ToRecord(d));
  }

  lemma {:induction false} ListFieldRoundTrip<T>(ts: seq<T>, item: Value -> Option<T>, render: T -> Value)
    requires forall t :: item(render(t)) == Some(t)
    ensures ParseListField(Some(ItemsToValue(ts, render)), item) == Some(ts)
  {
    ParseItemsRoundTrip(ts, item, render);
  }

  /** The conditions under which the field values validate to `d`. */
  lemma ValidateFieldsOk(f: RawFields, d: DocumentSchema)
    requires ReqStr(f.summary) == Some(d.summary) && ReqStr(f.name) == Some(d.name)
    requires ParseOptLocation(f.location) == Some(d.location)
    requires OptStr(f.email) == Some(d.email) && OptStr(f.phone) == Some(d.phone)
    requires ParseListField(f.profiles, ParseProfile) == Some(d.profiles)
    requires ParseListField(f.professionalExperience, ParseExperience) == Some(d.professionalExperience)
    requires ParseListField(f.education, ParseEducation) == Some(d.education)
    requires ParseListField(f.skills, ParseString) == Some(d.skills)
    requires ParseListField(f.languages, ParseLanguage) == Some(d.languages)
    requires ParseListField(f.certifications, ParseString) == Some(d.certifications)
    ensures ValidateFields(f) == Ok(d)
  {
  }

  lemma NestedRoundTrips()
    ensures forall e: Education :: ParseEducation(EducationToValue(e)) == Some(e)
    ensures forall l: Language :: ParseLanguage(LanguageToValue(l)) == Some(l)
    ensures forall p: Profile :: ParseProfile(ProfileToValue(p)) == Some(p)
    ensures forall e: Experience :: ParseExperience(ExperienceToValue(e)) == Some(e)
    ensures forall s: string :: ParseString(StringToValue(s)) == Some(s)
  {
    forall e: Education ensures ParseEducation(EducationToValue(e)) == Some(e) { EducationRoundTrip(e); }
    forall l: Language ensures ParseLanguage(LanguageToValue(l)) == Some(l) { LanguageRoundTrip(l); }
    forall p: Profile ensures ParseProfile(ProfileToValue(p)) == Some(p) { ProfileRoundTrip(p); }
    forall e: Experience ensures ParseExperience(ExperienceToValue(e)) == Some(e) { ExperienceRoundTrip(e); }
  }

  lemma DumpedListsParse(d: DocumentSchema)
    ensures ParseListField(Some(ItemsToValue(d.profiles, ProfileToValue)), ParseProfile) == Some(d.profiles)
    ensures ParseListField(Some(ItemsToValue(d.professionalExperience, ExperienceToValue)), ParseExperience) == Some(d.professionalExperience)
    ensures ParseListField(Some(ItemsToValue(d.education, EducationToValue)), ParseEducation) == Some(d.education)
    ensures ParseListField(Some(ItemsToValue(d.skills, StringToValue)), ParseString) == Some(d.skills)
    ensures ParseListField(Some(ItemsToValue(d.languages, LanguageToValue)), ParseLanguage) == Some(d.languages)
    ensures ParseListField(Some(ItemsToValue(d.certifications, StringToValue)), ParseString) == Some(d.certifications)
  {
    NestedRoundTrips();
    ListFieldRoundTrip(d.profiles, ParseProfile, ProfileToValue);
    ListFieldRoundTrip(d.professionalExperience, ParseExperience, ExperienceToValue);
    ListFieldRoundTrip(d.education, ParseEducation, EducationToValue);
    ListFieldRoundTrip(d.skills, ParseString, StringToValue);
    ListFieldRoundTrip(d.languages, ParseLanguage, LanguageToValue);
    ListFieldRoundTrip(d.certifications, ParseString, StringToValue);
  }

  /** The field values of a dumped record validate to the record. */
  lemma DumpFieldsValidate(d: DocumentSchema, location: Value)
    requires location == match d.location case Some(l) => LocationToValue(l) case None => Null
    ensures ValidateFields(RawFields(Some(Str(d.summary)), Some(Str(d.name)), Some(location),
      Some(StrOrNull(d.email)), Some(StrOrNull(d.phone)),
      Some(ItemsToValue(d.profiles, ProfileToValue)),
      Some(ItemsToValue(d.professionalExperience, ExperienceToValue)),
      Some(ItemsToValue(d.education, EducationToValue)),
      Some(ItemsToValue(d.skills, StringToValue)),
      Some(ItemsToValue(d.languages, LanguageToValue)),
      Some(ItemsToValue(d.certifications, StringToValue)))) == Ok(d)
  {
    if d.location.Some? {
      LocationRoundTrip(d.location.value);
    }
    DumpedListsParse(d);
    OptStrRoundTrip(d.email);
    OptStrRoundTrip(d.phone);
    ValidateFieldsOk(RawFields(Some(Str(d.summary)), Some(Str(d.name)), Some(location),
      Some(StrOrNull(d.email)), Some(StrOrNull(d.phone)),
      Some(ItemsToValue(d.profiles, ProfileToValue)),
      Some(ItemsToValue(d.professionalExperience, ExperienceToValue)),
      Some(ItemsToValue(d.education, EducationToValue)),
      Some(ItemsToValue(d.skills, StringToValue)),
      Some(ItemsToValue(d.languages, LanguageToValue)),
      Some(ItemsToValue(d.certifications, StringToValue))), d);
  }

  /** Validating a dumped record gives the record back. */
  lemma DumpValidates(d: DocumentSchema)
    ensures Validate(ToRecord(d)) == Ok(d)
  {
    DumpLookups(d);
    DumpFieldsValidate(d, ToRecord(d)[2].1);
  }

  /** A dumped record carries every merge list field as a list. */
  lemma DumpHasListFields(d: DocumentSchema)
    ensures Get(ToRecord(d), "profiles").List?
    ensures Get(ToRecord(d), "professional_experience").List?
    ensures Get(ToRecord(d), "education").List?
    ensures Get(ToRecord(d), "skills").List?
    ensures Get(ToRecord(d), "languages").List?
    ensures Get(ToRecord(d), "certifications").List?
  {
    DumpLookups(d);
  }

}
