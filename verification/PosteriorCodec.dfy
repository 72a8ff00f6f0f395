/** The canonical posterior-model document (runtime_lane.py) and the auditor's own decoder of it (q1_audit.py). */
module PosteriorCodec {
  import opened Wrappers

  datatype Json =
    | Null | Bool(flag: bool) | Int(value: int) | Float | Str(text: string) | List(items: seq<Json>) | Object(fields: map<string, Json>)

  type Bytes = seq<nat>

  // JSON itself stays abstract: canonical printing, Python's permissive parser (None where it raises), and the
  // parser that also refuses duplicate keys and nonfinite numbers.
  datatype JsonText = JsonText(dumps: Json -> Bytes, loads: Bytes -> Option<Json>, strict: Bytes -> Option<Json>)

  // All that is asked of it: what was printed is parsed back by both, and the strict parser only refuses more.
  ghost predicate Lawful(j: JsonText) {
    && (forall v :: j.loads(j.dumps(v)) == Some(v) && j.strict(j.dumps(v)) == Some(v))
    && forall b :: j.strict(b).Some? ==> j.loads(b) == j.strict(b)
  }

  const SCHEMA: string := "prospect.wm002.posterior-model.v1"
  const LIKELIHOOD: string := "wm002-hidden-actuator-true-v1"

  const FIELDS: set<string> := {
    "evidence_count", "last_experience_id", "last_transition_id", "likelihood_version", "posterior_direct", "schema"}

  // ---------------------------------------------------------------- the model

  function Gcd(a: nat, b: nat): nat
    decreases b
  {
    if b == 0 then a else Gcd(b, a % b)
  }

  // A fraction in lowest terms, as the Fraction type keeps it.
  datatype Ratio = Ratio(numerator: int, denominator: int)

  lemma {:induction false} GcdDivides(a: nat, b: nat)
    requires a + b > 0
    ensures Gcd(a, b) > 0 && a == Gcd(a, b) * (a / Gcd(a, b)) && b == Gcd(a, b) * (b / Gcd(a, b))
    decreases b
  {
    if b > 0 {
      GcdDivides(b, a % b);
      DividesBoth(a, b, Gcd(b, a % b));
    }
  }

  lemma DividesBoth(a: nat, b: nat, g: nat)
    requires b > 0 && g > 0 && b == g * (b / g) && a % b == g * (a % b / g)
    ensures a == g * (a / g)
  {
    DivideBy(a, b);
    SumOfMultiples(g, a / b, b / g, a % b / g, a, b, a % b);
  }

  lemma DivideBy(a: nat, b: nat)
    requires b > 0
    ensures a == (a / b) * b + a % b && a % b < b
  {
  }

  lemma SumOfMultiples(g: nat, q: nat, m: nat, n: nat, a: nat, b: nat, r: nat)
    requires g > 0 && b == g * m && r == g * n && a == q * b + r
    ensures a == g * (a / g)
  {
    assert a == g * (q * m + n) by {
      assert q * b == g * (q * m);
    }
    QuotientOf(g, q * m + n, 0, a);
  }

  // Division with remainder has one answer.
  lemma QuotientOf(d: nat, q: int, r: nat, n: int)
    requires r < d && n == d * q + r
    ensures n / d == q && n % d == r
  {
    var k := n / d - q;
    assert d * k == r - n % d;
    MultiplesOf(d, k);
  }

  lemma MultiplesOf(d: nat, k: int)
    ensures k >= 1 ==> d * k >= d
    ensures k <= -1 ==> d * k + d <= 0
    ensures k >= 2 ==> d * k >= d + d
  {
    assert k >= 1 ==> d * (k - 1) >= 0;
    assert k <= -1 ==> d * (-1 - k) >= 0;
    assert k >= 2 ==> d * (k - 2) >= 0;
  }

  lemma {:induction false} GcdScales(k: nat, a: nat, b: nat)
    requires k > 0
    ensures Gcd(k * a, k * b) == k * Gcd(a, b)
    decreases b
  {
    if b > 0 {
      ScaledRemainder(k, a, b);
      GcdScales(k, b, a % b);
    }
  }

  lemma ScaledRemainder(k: nat, a: nat, b: nat)
    requires k > 0 && b > 0
    ensures k * b > 0 && (k * a) % (k * b) == k * (a % b)
  {
    DivideBy(a, b);
    var q, r := a / b, a % b;
    Scaled(k, r, b);
    var kb, ka, kr := k * b, k * a, k * r;
    assert ka == kb * q + kr by {
      assert k * (q * b) == kb * q;
      assert k * (q * b + r) == k * (q * b) + kr;
    }
    QuotientOf(kb, q, kr, ka);
  }

  lemma Scaled(k: nat, r: nat, b: nat)
    requires k > 0 && r < b
    ensures 0 <= k * r < k * b
  {
  }

  // n over d in lowest terms.
  function Reduced(n: nat, d: nat): Ratio
    requires d > 0
  {
    GcdDivides(n, d);
    Ratio(n / Gcd(n, d), d / Gcd(n, d))
  }

  lemma ReducedIsNormal(n: nat, d: nat)
    requires d > 0
    ensures Normal(Reduced(n, d)) && Reduced(n, d).numerator >= 0
    ensures Reduced(n, d).numerator * d == n * Reduced(n, d).denominator
    ensures n <= d ==> IsProbability(Reduced(n, d))
  {
    GcdDivides(n, d);
    var g := Gcd(n, d);
    GcdScales(g, n / g, d / g);
    LowestTerms(g, n / g, d / g, n, d, Gcd(n / g, d / g));
  }

  lemma LowestTerms(g: nat, x: nat, y: nat, n: nat, d: nat, c: nat)
    requires g > 0 && d > 0 && n == g * x && d == g * y && g == g * c
    ensures c == 1 && y > 0 && x * d == n * y && (n <= d ==> x <= y)
  {
    OneFactor(g, c);
    assert x * (g * y) == (g * x) * y;
    MultiplesOf(g, x - y);
    assert g * (x - y) == n - d;
  }

  lemma OneFactor(g: nat, c: nat)
    requires g > 0 && g == g * c
    ensures c == 1
  {
    MultiplesOf(g, c);
  }

  predicate Normal(r: Ratio) {
    r.denominator > 0 && Gcd(if r.numerator < 0 then -r.numerator else r.numerator, r.denominator) == 1
  }

  predicate IsProbability(r: Ratio) { 0 <= r.numerator <= r.denominator }

  datatype Model = Model(
    count: int, experience: Option<string>, transition: Option<string>, posterior: Ratio, likelihood: string, schema: string)

  predicate Valid(m: Model) {
    && m.schema == SCHEMA && m.likelihood == LIKELIHOOD && m.count >= 0 && IsProbability(m.posterior)
    && (if m.count == 0 then m.experience.None? && m.transition.None? else m.experience.Some? && m.transition.Some?)
  }

  // The characters that Python strips: ASCII white space and separators, and those of Unicode.
  predicate IsSpace(c: char) {
    var code := c as int;
    || 9 <= code <= 13 || 28 <= code <= 32 || code == 133 || code == 160 || code == 5760 || 8192 <= code <= 8202
    || code == 8232 || code == 8233 || code == 8239 || code == 8287 || code == 12288
  }

  predicate Blank(s: string) {
    forall i | 0 <= i < |s| :: IsSpace(s[i])
  }

  function IdJson(id: Option<string>): Json {
    match id case None => Null case Some(s) => Str(s)
  }

  function Document(m: Model): Json {
    Object(map[
      "evidence_count" := Int(m.count),
      "last_experience_id" := IdJson(m.experience),
      "last_transition_id" := IdJson(m.transition),
      "likelihood_version" := Str(m.likelihood),
      "posterior_direct" := Object(map["denominator" := Int(m.posterior.denominator), "numerator" := Int(m.posterior.numerator)]),
      "schema" := Str(m.schema)])
  }

  // None where the encoder raises.
  function Encode(j: JsonText, m: Model): Option<Bytes> {
    if Valid(m) then Some(j.dumps(Document(m))) else None
  }

  // ---------------------------------------------------------------- the producer's decoder

  // A required string; a null identifier is the inner None.
  function IdOf(v: Json): Option<Option<string>> {
    match v
    case Null => Some(None)
    case Str(s) => if Blank(s) then None else Some(Some(s))
    case _ => None
  }

  function RatioOf(v: Json): Option<Ratio> {
    if v.Object? && v.fields.Keys == {"denominator", "numerator"} && v.fields["numerator"].Int? && v.fields["denominator"].Int? then
      var r := Ratio(v.fields["numerator"].value, v.fields["denominator"].value);
      if r.denominator <= 0 || !IsProbability(r) || Gcd(r.numerator, r.denominator) != 1 then None else Some(r)
    else None
  }

  function TextOf(v: Json): Option<string> {
    if v.Str? && !Blank(v.text) then Some(v.text) else None
  }

  function ModelOf(v: Json): Option<Model> {
    if !v.Object? || v.fields.Keys != FIELDS || !v.fields["evidence_count"].Int? then None
    else
      var ratio := RatioOf(v.fields["posterior_direct"]);
      var experience, transition := IdOf(v.fields["last_experience_id"]), IdOf(v.fields["last_transition_id"]);
      var likelihood, schema := TextOf(v.fields["likelihood_version"]), TextOf(v.fields["schema"]);
      if ratio.None? || experience.None? || transition.None? || likelihood.None? || schema.None? then None
      else Some(Model(v.fields["evidence_count"].value, experience.value, transition.value, ratio.value, likelihood.value, schema.value))
  }

  function Decode(j: JsonText, payload: Bytes): Option<Model> {
    match j.loads(payload)
    case None => None
    case Some(v) =>
      match ModelOf(v)
      case None => None
      case Some(m) => if Encode(j, m) == Some(payload) then Some(m) else None
  }

  // ---------------------------------------------------------------- the auditor's decoder

  datatype Audited = Audited(count: int, experience: Option<string>, transition: Option<string>, posterior: Ratio)

  function AuditorDecode(j: JsonText, payload: Bytes): Option<Audited> {
    match j.strict(payload)
    case None => None
    case Some(v) =>
      if !v.Object? || v.fields.Keys != FIELDS || payload != j.dumps(v) then None
      else
        var f := v.fields;
        if !f["evidence_count"].Int? || f["evidence_count"].value < 0 then None
        else
          var ratio := RatioOf(f["posterior_direct"]);
          var experience, transition := IdOf(f["last_experience_id"]), IdOf(f["last_transition_id"]);
          if ratio.None? || experience.None? || transition.None? then None
          else if f["schema"] != Str(SCHEMA) || f["likelihood_version"] != Str(LIKELIHOOD) then None
          else if f["evidence_count"].value == 0 && (experience.value.Some? || transition.value.Some?) then None
          else if f["evidence_count"].value != 0 && (experience.value.None? || transition.value.None?) then None
          else Some(Audited(f["evidence_count"].value, experience.value, transition.value, ratio.value))
  }

  function Summary(m: Model): Audited { Audited(m.count, m.experience, m.transition, m.posterior) }

  // ---------------------------------------------------------------- round trips and agreement

  lemma WordsAreNotBlank()
    ensures !Blank(SCHEMA) && !Blank(LIKELIHOOD)
  {
    assert SCHEMA[0] == 'p' && LIKELIHOOD[0] == 'w';
  }

  predicate Named(m: Model) {
    (m.experience.Some? ==> !Blank(m.experience.value)) && (m.transition.Some? ==> !Blank(m.transition.value))
  }

  // A document of a valid model is read back, unless an identifier is blank.
  lemma DocumentReadsBack(m: Model)
    requires Valid(m) && Normal(m.posterior)
    ensures ModelOf(Document(m)) == if Named(m) then Some(m) else None
  {
    WordsAreNotBlank();
    var v := Document(m);
    assert v.fields.Keys == FIELDS;
    RatioReadsBack(m.posterior);
    IdReadsBack(m.experience);
    IdReadsBack(m.transition);
  }

  lemma RatioReadsBack(r: Ratio)
    requires Normal(r) && IsProbability(r)
    ensures RatioOf(Object(map["denominator" := Int(r.denominator), "numerator" := Int(r.numerator)])) == Some(r)
  {
    var v := Object(map["denominator" := Int(r.denominator), "numerator" := Int(r.numerator)]);
    assert v.fields.Keys == {"denominator", "numerator"};
  }

  lemma IdReadsBack(id: Option<string>)
    ensures IdOf(IdJson(id)) == if id.Some? && Blank(id.value) then None else Some(id)
  {
  }

  // Decoding undoes encoding exactly for the models whose identifiers are not blank; the encoder itself accepts
  // blank ones.
  lemma DecodeEncode(j: JsonText, m: Model)
    requires Lawful(j) && Valid(m) && Normal(m.posterior)
    ensures Encode(j, m).Some?
    ensures Decode(j, Encode(j, m).value) == if Named(m) then Some(m) else None
  {
    DocumentReadsBack(m);
  }

  // Such a model: one update, recorded under an experience identifier of one space.
  lemma BlankIdentifierIsRefused(j: JsonText)
    requires Lawful(j)
    ensures var m := Model(1, Some(" "), Some("transition"), Ratio(1, 2), LIKELIHOOD, SCHEMA);
      Valid(m) && Normal(m.posterior) && Encode(j, m).Some? && Decode(j, Encode(j, m).value) == None
  {
    var m := Model(1, Some(" "), Some("transition"), Ratio(1, 2), LIKELIHOOD, SCHEMA);
    assert Gcd(1, 2) == Gcd(2, 1) == Gcd(1, 0) == 1;
    assert IsSpace(' ');
    DecodeEncode(j, m);
  }

  // Encoding undoes decoding on every accepted payload, so no two payloads decode to one model.
  lemma EncodeDecode(j: JsonText, payload: Bytes)
    requires Decode(j, payload).Some?
    ensures Encode(j, Decode(j, payload).value) == Some(payload)
    ensures Valid(Decode(j, payload).value) && Normal(Decode(j, payload).value.posterior) && Named(Decode(j, payload).value)
  {
  }

  // What the auditor accepts is the document of the model it reads.
  lemma AuditedDocument(j: JsonText, payload: Bytes)
    requires Lawful(j) && AuditorDecode(j, payload).Some?
    ensures var m := AuditedModel(AuditorDecode(j, payload).value);
      Valid(m) && Normal(m.posterior) && Named(m) && payload == j.dumps(Document(m))
  {
    var v := j.strict(payload).value;
    var m := AuditedModel(AuditorDecode(j, payload).value);
    RatioIsWhole(v.fields["posterior_direct"]);
    assert v.fields == Document(m).fields;
  }

  function AuditedModel(a: Audited): Model {
    Model(a.count, a.experience, a.transition, a.posterior, LIKELIHOOD, SCHEMA)
  }

  lemma RatioIsWhole(v: Json)
    requires RatioOf(v).Some?
    ensures var r := RatioOf(v).value;
      v == Object(map["denominator" := Int(r.denominator), "numerator" := Int(r.numerator)])
  {
    var r := RatioOf(v).value;
    assert v.fields == map["denominator" := Int(r.denominator), "numerator" := Int(r.numerator)];
  }

  lemma AuditorReadsDocument(j: JsonText, m: Model)
    requires Lawful(j) && Valid(m) && Normal(m.posterior) && Named(m)
    ensures AuditorDecode(j, j.dumps(Document(m))) == Some(Summary(m))
  {
    var v := Document(m);
    assert v.fields.Keys == FIELDS;
    RatioReadsBack(m.posterior);
    IdReadsBack(m.experience);
    IdReadsBack(m.transition);
  }

  // The two decoders accept the same payloads and read the same model from them.
  lemma DecodersAgree(j: JsonText, payload: Bytes)
    requires Lawful(j)
    ensures Decode(j, payload).Some? <==> AuditorDecode(j, payload).Some?
    ensures Decode(j, payload).Some? ==> AuditorDecode(j, payload).value == Summary(Decode(j, payload).value)
  {
    if Decode(j, payload).Some? {
      EncodeDecode(j, payload);
      AuditorReadsDocument(j, Decode(j, payload).value);
    }
    if AuditorDecode(j, payload).Some? {
      AuditedDocument(j, payload);
      DecodeEncode(j, AuditedModel(AuditorDecode(j, payload).value));
    }
  }

  // ---------------------------------------------------------------- versioned states

  datatype ModelState = ModelState(version: nat, payload: Bytes)

  // The state validator: the payload decodes, the version is its digest, and the count advances by one.
  predicate StateValid(decode: Bytes -> Option<Model>, sha: Bytes -> nat, s: ModelState, predecessor: Option<ModelState>) {
    && decode(s.payload).Some? && s.version == sha(s.payload)
    && (predecessor.Some? ==>
          && decode(predecessor.value.payload).Some? && predecessor.value.version == sha(predecessor.value.payload)
          && decode(s.payload).value.count == decode(predecessor.value.payload).value.count + 1)
  }

  predicate Follows(decode: Bytes -> Option<Model>, sha: Bytes -> nat, chain: seq<ModelState>, i: int)
    requires 0 < i < |chain|
  {
    StateValid(decode, sha, chain[i], Some(chain[i - 1]))
  }

  // Along any chain of validated states that starts without evidence, whatever the decoder, the evidence count is the
  // position, so no state can recur.
  lemma {:induction false} CountsAlongChain(decode: Bytes -> Option<Model>, sha: Bytes -> nat, chain: seq<ModelState>, n: nat)
    requires n < |chain| && StateValid(decode, sha, chain[0], None) && decode(chain[0].payload).value.count == 0
    requires forall i | 0 < i < |chain| :: Follows(decode, sha, chain, i)
    ensures decode(chain[n].payload).Some? && decode(chain[n].payload).value.count == n
    decreases n
  {
    if n > 0 {
      CountsAlongChain(decode, sha, chain, n - 1);
      assert Follows(decode, sha, chain, n);
    }
  }
}
