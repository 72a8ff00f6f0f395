/** The semantic keys of the private schedule (seeding.py), and the auditor's own builder of them (q1_audit.py). */
module SemanticKeys {
  import opened Wrappers
  import Identifiers

  datatype Value = Int(number: int) | Text(text: string) | Bool(flag: bool) | Foreign

  datatype KeyError = UndeclaredNamespace | BadFieldName | BadFieldValue | NotDelimited | NotAscii

  type Field = (string, Value)

  const THETA: string := "q1v3-theta-balanced-order"
  const PULSE: string := "q1v3-pulse-outcome"
  const NUISANCE: string := "q1v3-nuisance-outcome"
  const TERMINAL: string := "q1v3-terminal-outcome"
  const UNIFORM: string := "q1v3-uniform"

  const PRIVATE_NAMESPACES: seq<string> := [THETA, PULSE, NUISANCE, TERMINAL]
  const PRODUCER_NAMESPACES: seq<string> := [THETA, PULSE, NUISANCE, TERMINAL, UNIFORM]

  const PREFIX: string := "WM-002|0.3.0-q1|q1v3|"

  // ---------------------------------------------------------------- the builder

  function Render(v: Value): string {
    match v
    case Int(n) => if n < 0 then "-" + Identifiers.Decimal(-n) else Identifiers.Decimal(n)
    case Text(s) => s
    case _ => ""
  }

  predicate NameChar(c: char) { 'a' <= c <= 'z' || c == '_' }

  predicate ValueChar(c: char) {
    c != '|' && c != '=' && c != '\r' && c != '\n' && c != '\t' && c != ' '
  }

  predicate CanonicalName(s: string) {
    s != "" && forall i | 0 <= i < |s| :: NameChar(s[i])
  }

  predicate Delimited(s: string) {
    s != "" && forall i | 0 <= i < |s| :: ValueChar(s[i])
  }

  function FieldError(f: Field): Option<KeyError> {
    if !CanonicalName(f.0) then Some(BadFieldName)
    else if !f.1.Int? && !f.1.Text? then Some(BadFieldValue)
    else if !Delimited(Render(f.1)) then Some(NotDelimited)
    else None
  }

  function Segment(f: Field): string { f.0 + "=" + Render(f.1) }

  // The first field error from k on.
  function FieldsError(fields: seq<Field>, k: nat): Option<KeyError>
    requires k <= |fields|
    decreases |fields| - k
  {
    if k == |fields| then None
    else if FieldError(fields[k]).Some? then FieldError(fields[k]) else FieldsError(fields, k + 1)
  }

  function Segments(fields: seq<Field>): (s: seq<string>)
    ensures |s| == |fields|
  {
    seq(|fields|, i requires 0 <= i < |fields| => Segment(fields[i]))
  }

  function Join(segments: seq<string>): string
    requires segments != []
  {
    if |segments| == 1 then segments[0] else segments[0] + "|" + Join(segments[1..])
  }

  predicate Ascii(s: string) {
    forall i | 0 <= i < |s| :: s[i] as int < 128
  }

  function Rendered(namespace: string, fields: seq<Field>): string {
    PREFIX + Join([namespace] + Segments(fields))
  }

  // The key, or why it is refused; `allowed` are the namespaces this builder knows.
  function KeyFor(allowed: seq<string>, namespace: string, fields: seq<Field>): Result<string, KeyError> {
    if namespace !in allowed then Err(UndeclaredNamespace)
    else match FieldsError(fields, 0)
      case Some(e) => Err(e)
      case None => if Ascii(Rendered(namespace, fields)) then Ok(Rendered(namespace, fields)) else Err(NotAscii)
  }

  method BuildKey(allowed: seq<string>, namespace: string, fields: seq<Field>) returns (r: Result<string, KeyError>)
    ensures r == KeyFor(allowed, namespace, fields)
  {
    if namespace !in allowed {
      return Err(UndeclaredNamespace);
    }
    var segments := [namespace];
    for k := 0 to |fields|
      invariant |segments| == k + 1 && segments[0] == namespace
      invariant forall i | 0 <= i < k :: segments[i + 1] == Segment(fields[i])
      invariant FieldsError(fields, 0) == FieldsError(fields, k)
    {
      var (name, value) := fields[k];
      if !CanonicalName(name) {
        return Err(BadFieldName);
      }
      if !value.Int? && !value.Text? {
        return Err(BadFieldValue);
      }
      var rendered := Render(value);
      if !Delimited(rendered) {
        return Err(NotDelimited);
      }
      segments := segments + [name + "=" + rendered];
    }
    assert segments == [namespace] + Segments(fields);
    var key := PREFIX + Join(segments);
    if !Ascii(key) {
      return Err(NotAscii);
    }
    return Ok(key);
  }

  // ---------------------------------------------------------------- delimited strings

  predicate Free(s: string, c: char) { c !in s }

  predicate AllFree(ss: seq<string>, c: char) {
    forall i | 0 <= i < |ss| :: Free(ss[i], c)
  }

  // What stands before the first c is determined.
  lemma HeadUnique(a: string, x: string, b: string, y: string, c: char)
    requires Free(a, c) && Free(b, c) && a + [c] + x == b + [c] + y
    ensures a == b && x == y
  {
    var s := a + [c] + x;
    assert s[|a|] == c && s[|b|] == c;
    assert forall i | 0 <= i < |a| :: s[i] == a[i] && a[i] in a;
    assert forall i | 0 <= i < |b| :: s[i] == b[i] && b[i] in b;
    assert |a| == |b|;
    assert a == s[..|a|] == b;
    assert x == s[|a| + 1..] == y;
  }

  lemma {:induction false} JoinInjective(a: seq<string>, b: seq<string>)
    requires a != [] && b != [] && Join(a) == Join(b)
    requires AllFree(a, '|')
    requires AllFree(b, '|')
    ensures a == b
  {
    JoinFree(a);
    JoinFree(b);
    if |a| > 1 && |b| > 1 {
      HeadUnique(a[0], Join(a[1..]), b[0], Join(b[1..]), '|');
      JoinInjective(a[1..], b[1..]);
      assert a == [a[0]] + a[1..] && b == [b[0]] + b[1..];
    }
  }

  // Only a single segment joins to a string without the delimiter.
  lemma JoinFree(a: seq<string>)
    requires a != [] && AllFree(a, '|')
    ensures Free(Join(a), '|') <==> |a| == 1
  {
    if |a| > 1 {
      assert Join(a)[|a[0]|] == '|' && '|' in Join(a);
    }
  }

  // ---------------------------------------------------------------- keys are injective

  lemma {:induction false} FieldsFine(fields: seq<Field>, k: nat, i: nat)
    requires k <= i < |fields| && FieldsError(fields, k).None?
    ensures FieldError(fields[i]).None?
    decreases i - k
  {
    if k < i {
      FieldsFine(fields, k + 1, i);
    }
  }

  lemma SegmentFree(f: Field)
    requires FieldError(f).None?
    ensures Free(f.0, '=') && Free(f.0, '|') && Free(Render(f.1), '|') && Free(Segment(f), '|')
  {
  }

  lemma NamespacesFree(namespace: string)
    requires namespace in PRODUCER_NAMESPACES
    ensures Free(namespace, '|')
  {
  }

  // The names and the rendered values agree.
  predicate SameRenderings(fields: seq<Field>, fields': seq<Field>) {
    |fields| == |fields'|
    && forall i | 0 <= i < |fields| :: fields[i].0 == fields'[i].0 && Render(fields[i].1) == Render(fields'[i].1)
  }

  // Two accepted inputs give the same key exactly when their namespaces, field names and rendered values agree.
  lemma SameKeyRendered(namespace: string, fields: seq<Field>, namespace': string, fields': seq<Field>)
    requires KeyFor(PRODUCER_NAMESPACES, namespace, fields).Ok? && KeyFor(PRODUCER_NAMESPACES, namespace', fields').Ok?
    ensures KeyFor(PRODUCER_NAMESPACES, namespace, fields) == KeyFor(PRODUCER_NAMESPACES, namespace', fields') <==>
      namespace == namespace' && SameRenderings(fields, fields')
  {
    if namespace == namespace' && SameRenderings(fields, fields') {
      assert Segments(fields) == Segments(fields');
    }
    if KeyFor(PRODUCER_NAMESPACES, namespace, fields) == KeyFor(PRODUCER_NAMESPACES, namespace', fields') {
      NamespacesFree(namespace);
      NamespacesFree(namespace');
      SamePrefix(PREFIX, Join([namespace] + Segments(fields)), Join([namespace'] + Segments(fields')));
      SameRendering(namespace, fields, namespace', fields');
    }
  }

  lemma SameRendering(namespace: string, fields: seq<Field>, namespace': string, fields': seq<Field>)
    requires Free(namespace, '|') && Free(namespace', '|')
    requires FieldsError(fields, 0).None? && FieldsError(fields', 0).None?
    requires Join([namespace] + Segments(fields)) == Join([namespace'] + Segments(fields'))
    ensures namespace == namespace' && SameRenderings(fields, fields')
  {
    SegmentsFree(fields);
    SegmentsFree(fields');
    ListInjective(namespace, Segments(fields), namespace', Segments(fields'));
    SameSegments(fields, fields');
  }

  lemma ListInjective(n: string, xs: seq<string>, n': string, ys: seq<string>)
    requires Free(n, '|') && Free(n', '|') && Join([n] + xs) == Join([n'] + ys)
    requires AllFree(xs, '|')
    requires AllFree(ys, '|')
    ensures n == n' && xs == ys
  {
    FreeCons(n, xs);
    FreeCons(n', ys);
    JoinInjective([n] + xs, [n'] + ys);
    ConsInjective(n, xs, n', ys);
  }

  lemma FreeCons(n: string, xs: seq<string>)
    requires Free(n, '|') && AllFree(xs, '|')
    ensures AllFree([n] + xs, '|')
  {
  }

  lemma ConsInjective<T>(x: T, xs: seq<T>, y: T, ys: seq<T>)
    requires [x] + xs == [y] + ys
    ensures x == y && xs == ys
  {
    assert x == ([x] + xs)[0] == ([y] + ys)[0] == y;
    assert xs == ([x] + xs)[1..] == ([y] + ys)[1..] == ys;
  }

  lemma SameSegments(fields: seq<Field>, fields': seq<Field>)
    requires FieldsError(fields, 0).None? && FieldsError(fields', 0).None? && Segments(fields) == Segments(fields')
    ensures SameRenderings(fields, fields')
  {
    assert |fields| == |Segments(fields)| == |fields'|;
    forall i | 0 <= i < |fields| ensures fields[i].0 == fields'[i].0 && Render(fields[i].1) == Render(fields'[i].1) {
      assert Segment(fields[i]) == Segments(fields)[i] == Segments(fields')[i] == Segment(fields'[i]);
      SameSegment(fields, fields', i);
    }
  }

  lemma SamePrefix(p: string, x: string, y: string)
    requires p + x == p + y
    ensures x == y
  {
    assert x == (p + x)[|p|..] == (p + y)[|p|..] == y;
  }

  lemma SameSegment(fields: seq<Field>, fields': seq<Field>, i: nat)
    requires i < |fields| && i < |fields'| && FieldsError(fields, 0).None? && FieldsError(fields', 0).None?
    requires Segment(fields[i]) == Segment(fields'[i])
    ensures fields[i].0 == fields'[i].0 && Render(fields[i].1) == Render(fields'[i].1)
  {
    FieldsFine(fields, 0, i);
    FieldsFine(fields', 0, i);
    SegmentFree(fields[i]);
    SegmentFree(fields'[i]);
    HeadUnique(fields[i].0, Render(fields[i].1), fields'[i].0, Render(fields'[i].1), '=');
  }

  lemma SegmentsFree(fields: seq<Field>)
    requires FieldsError(fields, 0).None?
    ensures AllFree(Segments(fields), '|')
  {
    forall i | 0 <= i < |fields| ensures Free(Segments(fields)[i], '|') {
      FieldsFine(fields, 0, i);
      SegmentFree(fields[i]);
    }
  }

  // The values themselves need not agree: an integer and its decimal string give one and the same key.
  lemma RenderingsCollide(n: int)
    ensures var a, b := [("episode", Int(n))], [("episode", Text(Render(Int(n))))];
      && KeyFor(PRODUCER_NAMESPACES, THETA, a).Ok? && a != b
      && KeyFor(PRODUCER_NAMESPACES, THETA, a) == KeyFor(PRODUCER_NAMESPACES, THETA, b)
  {
    var a, b := [("episode", Int(n))], [("episode", Text(Render(Int(n))))];
    IntegersRenderClean(n);
    assert CanonicalName("episode");
    assert CleanField(a[0]);
    CleanRendering(THETA, a);
    CleanFieldsPass(a, 0);
    assert FieldError(a[0]) == FieldError(b[0]);
    assert FieldsError(a, 0) == FieldsError(b, 0) by {
      assert FieldsError(a, 1).None? && FieldsError(b, 1).None?;
    }
    assert Segments(a) == Segments(b);
    assert a[0] != b[0];
  }

  lemma IntegersRenderClean(n: int)
    ensures var s := Render(Int(n)); s != [] && (forall i | 0 <= i < |s| :: ValueChar(s[i])) && Ascii(s)
  {
    DecimalClean(if n < 0 then -n else n);
  }

  // Two values that a builder cannot tell apart: equal, or an integer and its decimal text.
  predicate Alike(v: Value, w: Value) {
    v == w || (v.Int? && w == Text(Render(v))) || (w.Int? && v == Text(Render(w)))
  }

  lemma RenderAlike(v: Value, w: Value)
    requires (v.Int? || v.Text?) && (w.Int? || w.Text?)
    ensures Render(v) == Render(w) <==> Alike(v, w)
  {
    if v.Int? && w.Int? {
      IntegersRenderApart(v.number, w.number);
    }
  }

  // The names agree and the values are alike.
  predicate SameFields(fields: seq<Field>, fields': seq<Field>) {
    |fields| == |fields'| && forall i | 0 <= i < |fields| :: fields[i].0 == fields'[i].0 && Alike(fields[i].1, fields'[i].1)
  }

  // Two accepted inputs give the same key exactly when namespaces and names agree and every value is equal, or one is
  // an integer and the other its decimal text.
  lemma SameKeyExactly(namespace: string, fields: seq<Field>, namespace': string, fields': seq<Field>)
    requires KeyFor(PRODUCER_NAMESPACES, namespace, fields).Ok? && KeyFor(PRODUCER_NAMESPACES, namespace', fields').Ok?
    ensures KeyFor(PRODUCER_NAMESPACES, namespace, fields) == KeyFor(PRODUCER_NAMESPACES, namespace', fields') <==>
      namespace == namespace' && SameFields(fields, fields')
  {
    SameKeyRendered(namespace, fields, namespace', fields');
    if |fields| == |fields'| {
      forall i | 0 <= i < |fields| ensures Render(fields[i].1) == Render(fields'[i].1) <==> Alike(fields[i].1, fields'[i].1) {
        FieldsFine(fields, 0, i);
        FieldsFine(fields', 0, i);
        RenderAlike(fields[i].1, fields'[i].1);
      }
    }
  }

  lemma IntegersRenderApart(n: int, m: int)
    ensures Render(Int(n)) == Render(Int(m)) <==> n == m
  {
    var a, b := if n < 0 then -n else n, if m < 0 then -m else m;
    DecimalClean(a);
    DecimalClean(b);
    if Render(Int(n)) == Render(Int(m)) {
      if n < 0 && m < 0 {
        assert Render(Int(n))[1..] == Identifiers.Decimal(a) && Render(Int(m))[1..] == Identifiers.Decimal(b);
      }
      assert Render(Int(n))[0] == Render(Int(m))[0] && Identifiers.Decimal(a)[0] != '-' && Identifiers.Decimal(b)[0] != '-';
      Identifiers.DecimalInjective(a, b);
    }
  }

  // The auditor's builder knows the private namespaces only; on those it gives the same bytes and the same errors.
  lemma AuditorBuildsTheSame(namespace: string, fields: seq<Field>)
    ensures KeyFor(PRIVATE_NAMESPACES, namespace, fields) ==
      if namespace == UNIFORM then Err(UndeclaredNamespace) else KeyFor(PRODUCER_NAMESPACES, namespace, fields)
  {
    assert PRODUCER_NAMESPACES == PRIVATE_NAMESPACES + [UNIFORM];
    assert |UNIFORM| == 12 && |THETA| == 25 && |PULSE| == 18 && |NUISANCE| == 21 && |TERMINAL| == 21;
  }

  // ---------------------------------------------------------------- the families of draws

  const PULSE_ACTIONS: seq<string> := ["weak", "strong", "overpowered"]

  // What one private digest is drawn for.
  datatype Draw =
    | Theta(master: nat, episode: nat)
    | Pulse(master: nat, episode: nat, action: string)
    | Nuisance(master: nat, episode: nat)
    | Terminal(master: nat, episode: nat, decision: int)

  predicate Canonical(d: Draw) {
    match d
    case Pulse(_, _, action) => action in PULSE_ACTIONS
    case Terminal(_, _, decision) => decision == 1 || decision == -1
    case _ => true
  }

  function SignedInteger(n: int): string { if n > 0 then "+" + Render(Int(n)) else Render(Int(n)) }

  function NamespaceOf(d: Draw): string {
    match d case Theta(_, _) => THETA case Pulse(_, _, _) => PULSE case Nuisance(_, _) => NUISANCE case Terminal(_, _, _) => TERMINAL
  }

  function FieldsOf(d: Draw): seq<Field> {
    var place: seq<Field> := [("master", Int(d.master)), ("episode", Int(d.episode))];
    match d
    case Theta(_, _) => place + [("role", Text("order"))]
    case Pulse(_, _, action) => place + [("action", Text(action)), ("role", Text("observation"))]
    case Nuisance(_, _) => place + [("action", Text("nuisance")), ("role", Text("observation"))]
    case Terminal(_, _, decision) => place + [("decision", Text(SignedInteger(decision))), ("role", Text("success"))]
  }

  function KeyOf(allowed: seq<string>, d: Draw): Result<string, KeyError> {
    KeyFor(allowed, NamespaceOf(d), FieldsOf(d))
  }

  lemma DecimalClean(n: nat)
    ensures var s := Identifiers.Decimal(n); s != [] && (forall i | 0 <= i < |s| :: ValueChar(s[i])) && Ascii(s)
  {
  }

  // Two accepted keys of draws are equal only for the same draw: the families are disjoint, and within a family
  // master, episode and action or decision are determined.
  lemma KeysIdentifyDraws(d: Draw, e: Draw)
    requires Canonical(d) && Canonical(e)
    requires KeyOf(PRODUCER_NAMESPACES, d).Ok? && KeyOf(PRODUCER_NAMESPACES, d) == KeyOf(PRODUCER_NAMESPACES, e)
    ensures d == e
  {
    SameKeyRendered(NamespaceOf(d), FieldsOf(d), NamespaceOf(e), FieldsOf(e));
    NamespacesDiffer(d, e);
    var f, g := FieldsOf(d), FieldsOf(e);
    assert Render(f[0].1) == Render(g[0].1) && Render(f[1].1) == Render(g[1].1);
    Identifiers.DecimalInjective(d.master, e.master);
    Identifiers.DecimalInjective(d.episode, e.episode);
    assert Render(f[2].1) == Render(g[2].1);
    SignsDiffer();
  }

  lemma NamespacesDiffer(d: Draw, e: Draw)
    requires NamespaceOf(d) == NamespaceOf(e)
    ensures d.Theta? <==> e.Theta?
    ensures d.Pulse? <==> e.Pulse?
    ensures d.Nuisance? <==> e.Nuisance?
    ensures d.Terminal? <==> e.Terminal?
  {
    assert |THETA| == 25 && |PULSE| == 18 && |NUISANCE| == 21 && |TERMINAL| == 21;
    assert NUISANCE[5] == 'n' && TERMINAL[5] == 't';
  }

  lemma SignsDiffer()
    ensures SignedInteger(1) != SignedInteger(-1)
  {
    assert SignedInteger(1)[0] == '+' && SignedInteger(-1)[0] == '-';
  }

  // ---------------------------------------------------------------- every draw has a key

  lemma AsciiConcat(a: string, b: string)
    ensures Ascii(a + b) <==> Ascii(a) && Ascii(b)
  {
    if Ascii(a + b) {
      assert forall i | 0 <= i < |a| :: (a + b)[i] == a[i];
      assert forall i | 0 <= i < |b| :: (a + b)[|a| + i] == b[i];
    }
  }

  lemma {:induction false} AsciiJoin(segments: seq<string>)
    requires segments != [] && forall i | 0 <= i < |segments| :: Ascii(segments[i])
    ensures Ascii(Join(segments))
  {
    if |segments| > 1 {
      AsciiJoin(segments[1..]);
      AsciiConcat(segments[0], "|");
      AsciiConcat(segments[0] + "|", Join(segments[1..]));
    }
  }

  // A field whose name and rendering are clean and ASCII passes every check.
  predicate CleanField(f: Field) {
    FieldError(f).None? && Ascii(Segment(f))
  }

  lemma {:induction false} CleanFieldsPass(fields: seq<Field>, k: nat)
    requires k <= |fields| && forall i | 0 <= i < |fields| :: CleanField(fields[i])
    ensures FieldsError(fields, k).None?
    decreases |fields| - k
  {
    if k < |fields| {
      CleanFieldsPass(fields, k + 1);
    }
  }

  lemma PlaceFieldsClean(d: Draw)
    ensures CleanField(("master", Int(d.master))) && CleanField(("episode", Int(d.episode)))
  {
    DecimalClean(d.master);
    DecimalClean(d.episode);
    AsciiConcat("master=", Identifiers.Decimal(d.master));
    AsciiConcat("episode=", Identifiers.Decimal(d.episode));
  }

  lemma RolesClean()
    ensures CleanField(("role", Text("order"))) && CleanField(("role", Text("observation"))) && CleanField(("role", Text("success")))
  {
  }

  lemma ActionsClean(action: string)
    requires action == "nuisance" || action in PULSE_ACTIONS
    ensures CleanField(("action", Text(action)))
  {
  }

  lemma DecisionsClean(decision: int)
    requires decision == 1 || decision == -1
    ensures CleanField(("decision", Text(SignedInteger(decision))))
  {
    assert Identifiers.Decimal(1) == "1";
    assert SignedInteger(1) == "+1" && SignedInteger(-1) == "-1";
  }

  // Every canonical draw has a key, and the auditor builds the same one.
  lemma DrawsHaveKeys(d: Draw)
    requires Canonical(d)
    ensures KeyOf(PRODUCER_NAMESPACES, d).Ok? && KeyOf(PRIVATE_NAMESPACES, d) == KeyOf(PRODUCER_NAMESPACES, d)
  {
    var fields := FieldsOf(d);
    PlaceFieldsClean(d);
    RolesClean();
    ActionsClean("nuisance");
    if d.Pulse? {
      ActionsClean(d.action);
    }
    if d.Terminal? {
      DecisionsClean(d.decision);
    }
    assert forall i | 0 <= i < |fields| :: CleanField(fields[i]);
    CleanFieldsPass(fields, 0);
    CleanRendering(NamespaceOf(d), fields);
    AuditorBuildsTheSame(NamespaceOf(d), fields);
    assert |UNIFORM| == 12 && |THETA| == 25 && |PULSE| == 18 && |NUISANCE| == 21 && |TERMINAL| == 21;
  }

  lemma CleanRendering(namespace: string, fields: seq<Field>)
    requires namespace in PRODUCER_NAMESPACES && forall i | 0 <= i < |fields| :: CleanField(fields[i])
    ensures Ascii(Rendered(namespace, fields))
  {
    assert Ascii(PREFIX) && Ascii(namespace);
    AsciiJoin([namespace] + Segments(fields));
    AsciiConcat(PREFIX, Join([namespace] + Segments(fields)));
  }

  // ---------------------------------------------------------------- the public uniform key

  // Its bytes are not built from fields.
  function UniformKey(master: nat, episode: nat): string {
    "WM-002|0.3.0-q1|q1v3-uniform|" + (Identifiers.Decimal(master) + ("|" + Identifiers.Decimal(episode)))
  }

  // It is never the key of a private draw, and it too identifies its master and episode.
  lemma UniformKeyApart(master: nat, episode: nat, namespace: string, fields: seq<Field>)
    ensures UniformKey(master, episode) != Rendered(namespace, fields)
  {
    assert UniformKey(master, episode)[20] == '-' && Rendered(namespace, fields)[20] == PREFIX[20] == '|';
  }

  lemma UniformKeysIdentify(master: nat, episode: nat, master': nat, episode': nat)
    requires UniformKey(master, episode) == UniformKey(master', episode')
    ensures master == master' && episode == episode'
  {
    var m, e, m', e' := Identifiers.Decimal(master), Identifiers.Decimal(episode), Identifiers.Decimal(master'), Identifiers.Decimal(episode');
    SamePrefix("WM-002|0.3.0-q1|q1v3-uniform|", m + ("|" + e), m' + ("|" + e'));
    assert m + ("|" + e) == m + "|" + e && m' + ("|" + e') == m' + "|" + e';
    HeadUnique(m, e, m', e', '|');
    Identifiers.DecimalInjective(master, master');
    Identifiers.DecimalInjective(episode, episode');
  }
}
