/** The private-prefix scanner (q1_audit_privacy.py): every string of a public JSON value, key or value, is searched
    for an indexed 16-byte prefix, raw, in hexadecimal or in base64. */
module PrivacyScanner {
  import opened Wrappers
  import opened Frames
  import opened Base64

  // ---------------------------------------------------------------- the index

  // None for a value that is too short to be indexed.
  method IndexPrivateValues(values: seq<seq<Byte>>) returns (prefixes: Option<set<seq<Byte>>>)
    ensures prefixes.Some? <==> forall v | v in values :: |v| >= PREFIX_BYTES
    ensures prefixes.Some? ==> forall p :: p in prefixes.value <==> exists v | v in values :: |v| >= PREFIX_BYTES && p == v[..PREFIX_BYTES]
  {
    var index: set<seq<Byte>> := {};
    for i := 0 to |values|
      invariant forall k | 0 <= k < i :: |values[k]| >= PREFIX_BYTES && values[k][..PREFIX_BYTES] in index
      invariant forall p | p in index :: exists k | 0 <= k < i :: |values[k]| >= PREFIX_BYTES && p == values[k][..PREFIX_BYTES]
    {
      if |values[i]| < PREFIX_BYTES {
        return None;
      }
      index := index + {values[i][..PREFIX_BYTES]};
    }
    return Some(index);
  }

  // ---------------------------------------------------------------- hexadecimal

  function HexDigit(c: Byte): Option<nat>
    ensures HexDigit(c).Some? ==> HexDigit(c).value < 16
  {
    if '0' as int <= c <= '9' as int then Some(c - '0' as int)
    else if 'a' as int <= c <= 'f' as int then Some(c - 'a' as int + 10)
    else if 'A' as int <= c <= 'F' as int then Some(c - 'A' as int + 10)
    else None
  }

  function Lower(c: Byte): Byte {
    if 'A' as int <= c <= 'Z' as int then c + 32 else c
  }

  function HexChar(d: nat): Byte
    requires d < 16
  {
    if d < 10 then '0' as int + d else 'a' as int + d - 10
  }

  // Half-byte k of the bytes, high half first.
  function Nibble(b: seq<Byte>, k: nat): (d: nat)
    requires k < 2 * |b|
    ensures d < 16
  {
    if k % 2 == 0 then b[k / 2] / 16 else b[k / 2] % 16
  }

  // The lower-case rendering that is indexed.
  function HexOf(b: seq<Byte>): (h: seq<Byte>)
    ensures |h| == 2 * |b|
  {
    seq(2 * |b|, k requires 0 <= k < 2 * |b| => HexChar(Nibble(b, k)))
  }

  // The bytes that pairs of hexadecimal digits, of any case, stand for.
  predicate HexReads(h: seq<Byte>, b: seq<Byte>) {
    |h| == 2 * |b| && forall k | 0 <= k < |h| :: HexDigit(h[k]) == Some(Nibble(b, k))
  }

  function Lowered(h: seq<Byte>): (l: seq<Byte>)
    ensures |l| == |h|
  {
    seq(|h|, i requires 0 <= i < |h| => Lower(h[i]))
  }

  predicate AllHex(h: seq<Byte>) {
    forall i | 0 <= i < |h| :: HexDigit(h[i]).Some?
  }

  lemma DigitCase(c: Byte, d: nat)
    requires d < 16
    ensures HexDigit(c) == Some(d) <==> HexDigit(c).Some? && Lower(c) == HexChar(d)
  {
  }

  // Lower-casing and comparing with the rendered prefix is reading digits of any case.
  lemma LoweredMatches(h: seq<Byte>, b: seq<Byte>)
    requires |h| == 2 * |b|
    ensures AllHex(h) && Lowered(h) == HexOf(b) <==> HexReads(h, b)
  {
    forall k | 0 <= k < |h|
      ensures HexDigit(h[k]) == Some(Nibble(b, k)) <==> HexDigit(h[k]).Some? && Lowered(h)[k] == HexOf(b)[k]
    {
      DigitCase(h[k], Nibble(b, k));
    }
  }

  // Bytes written out in digits of any case are read back.
  lemma DigitsAreFound(text: seq<Byte>, value: seq<Byte>, h: seq<Byte>, prefixes: set<seq<Byte>>)
    requires |value| >= PREFIX_BYTES && value[..PREFIX_BYTES] in prefixes && HexReads(h, value) && h <= text
    ensures HexHere(text, prefixes)
  {
    var p := value[..PREFIX_BYTES];
    forall k | 0 <= k < 2 * PREFIX_BYTES ensures text[..2 * PREFIX_BYTES][k] == h[k] && Nibble(p, k) == Nibble(value, k) {
      assert p[k / 2] == value[k / 2];
    }
    assert HexReads(text[..2 * PREFIX_BYTES], p);
  }

  predicate HexHere(text: seq<Byte>, prefixes: set<seq<Byte>>) {
    |text| >= 2 * PREFIX_BYTES && exists p | p in prefixes :: HexReads(text[..2 * PREFIX_BYTES], p)
  }

  method HexMatches(payload: seq<Byte>, offset: nat, prefixes: set<seq<Byte>>) returns (found: bool)
    requires offset <= |payload| && forall p | p in prefixes :: |p| == PREFIX_BYTES
    ensures found <==> HexHere(payload[offset..], prefixes)
  {
    var text := payload[offset..];
    var end := offset + 2 * PREFIX_BYTES;
    if end > |payload| {
      return false;
    }
    var candidate := payload[offset..end];
    assert candidate == text[..2 * PREFIX_BYTES];
    forall p | p in prefixes ensures AllHex(candidate) && Lowered(candidate) == HexOf(p) <==> HexReads(candidate, p) {
      LoweredMatches(candidate, p);
    }
    if !AllHex(candidate) {
      return false;
    }
    var rendered := set p | p in prefixes :: HexOf(p);
    found := Lowered(candidate) in rendered;
  }

  // ---------------------------------------------------------------- one string

  predicate RawHere(text: seq<Byte>, prefixes: set<seq<Byte>>) {
    |text| >= PREFIX_BYTES && text[..PREFIX_BYTES] in prefixes
  }

  // A private prefix starts here, in one of the three forms.
  predicate Here(text: seq<Byte>, prefixes: set<seq<Byte>>) {
    RawHere(text, prefixes) || HexHere(text, prefixes) || Base64Here(text, prefixes)
  }

  ghost predicate Leaks(payload: seq<Byte>, prefixes: set<seq<Byte>>) {
    exists offset | 0 <= offset <= |payload| :: Here(payload[offset..], prefixes)
  }

  method ContainsPrivatePrefix(payload: seq<Byte>, prefixes: set<seq<Byte>>) returns (found: bool)
    requires forall p | p in prefixes :: |p| == PREFIX_BYTES
    ensures found <==> Leaks(payload, prefixes)
  {
    if prefixes == {} || |payload| < PREFIX_BYTES {
      return false;
    }
    for offset := 0 to |payload| - PREFIX_BYTES + 1
      invariant forall k | 0 <= k < offset :: !Here(payload[k..], prefixes)
    {
      if payload[offset..offset + PREFIX_BYTES] in prefixes {
        assert payload[offset..][..PREFIX_BYTES] == payload[offset..offset + PREFIX_BYTES];
        assert Here(payload[offset..], prefixes);
        return true;
      }
      var hex := HexMatches(payload, offset, prefixes);
      if hex {
        assert Here(payload[offset..], prefixes);
        return true;
      }
      var base64 := Base64Matches(payload, offset, prefixes);
      if base64 {
        assert Here(payload[offset..], prefixes);
        return true;
      }
      assert payload[offset..][..PREFIX_BYTES] == payload[offset..offset + PREFIX_BYTES];
    }
    forall offset | 0 <= offset <= |payload| ensures !Here(payload[offset..], prefixes) {
      if offset > |payload| - PREFIX_BYTES {
        assert |payload[offset..]| < PREFIX_BYTES;
      }
    }
    return false;
  }

  // ---------------------------------------------------------------- JSON values

  datatype Text = Utf8(bytes: seq<Byte>) | NotUtf8

  datatype Name = Named(text: Text) | NotAString

  datatype Json =
    | Scalar                                 // null, booleans, integers
    | Float(finite: bool)
    | Str(text: Text)
    | List(items: seq<Json>)
    | Object(fields: seq<(Name, Json)>)
    | Foreign                                // anything outside the JSON data model

  datatype Step = Item(index: nat) | Field(key: seq<Byte>) | KeyName(key: seq<Byte>)

  type Path = seq<Step>

  predicate WellFormed(v: Json) {
    match v
    case Scalar => true
    case Float(finite) => finite
    case Str(text) => text.Utf8?
    case List(items) => forall i | 0 <= i < |items| :: WellFormed(items[i])
    case Object(fields) =>
      forall i | 0 <= i < |fields| :: fields[i].0.Named? && fields[i].0.text.Utf8? && WellFormed(fields[i].1)
    case Foreign => false
  }

  function KeyOf(name: Name): seq<Byte> {
    if name.Named? && name.text.Utf8? then name.text.bytes else []
  }

  // The string t, value or key, stands at path p of the value.
  ghost predicate AtomAt(v: Json, p: Path, t: seq<Byte>) {
    match v
    case Str(text) => p == [] && text == Utf8(t)
    case List(items) => p != [] && p[0].Item? && p[0].index < |items| && AtomAt(items[p[0].index], p[1..], t)
    case Object(fields) =>
      p != [] && exists i | 0 <= i < |fields| ::
        || (p == [KeyName(KeyOf(fields[i].0))] && t == KeyOf(fields[i].0))
        || (p[0] == Field(KeyOf(fields[i].0)) && AtomAt(fields[i].1, p[1..], t))
    case _ => false
  }

  // ---------------------------------------------------------------- the traversal

  ghost function TextHits(path: Path, t: seq<Byte>, prefixes: set<seq<Byte>>): set<Path> {
    if Leaks(t, prefixes) then {path} else {}
  }

  function Width(v: Json): nat {
    match v case List(items) => |items| case Object(fields) => |fields| case _ => 0
  }

  ghost function Hits(v: Json, path: Path, prefixes: set<seq<Byte>>): set<Path>
    decreases v, Width(v) + 1
  {
    match v
    case Str(text) => if text.Utf8? then TextHits(path, text.bytes, prefixes) else {}
    case List(items) => ItemHits(v, |items|, path, prefixes)
    case Object(fields) => FieldHits(v, |fields|, path, prefixes)
    case _ => {}
  }

  ghost function ItemHits(v: Json, n: nat, path: Path, prefixes: set<seq<Byte>>): set<Path>
    requires v.List? && n <= |v.items|
    decreases v, n
  {
    if n == 0 then {} else ItemHits(v, n - 1, path, prefixes) + Hits(v.items[n - 1], path + [Item(n - 1)], prefixes)
  }

  ghost function FieldHits(v: Json, n: nat, path: Path, prefixes: set<seq<Byte>>): set<Path>
    requires v.Object? && n <= |v.fields|
    decreases v, n
  {
    if n == 0 then {} else FieldHits(v, n - 1, path, prefixes) + FieldHit(v, n - 1, path, prefixes)
  }

  ghost function FieldHit(v: Json, i: nat, path: Path, prefixes: set<seq<Byte>>): set<Path>
    requires v.Object? && i < |v.fields|
    decreases v, i
  {
    var key := KeyOf(v.fields[i].0);
    TextHits(path + [KeyName(key)], key, prefixes) + Hits(v.fields[i].1, path + [Field(key)], prefixes)
  }

  class Scan {
    const prefixes: set<seq<Byte>>
    var matches: set<Path>

    ghost predicate Valid() {
      forall p | p in prefixes :: |p| == PREFIX_BYTES
    }

    constructor (prefixes: set<seq<Byte>>)
      requires forall p | p in prefixes :: |p| == PREFIX_BYTES
      ensures Valid() && matches == {} && this.prefixes == prefixes
    {
      this.prefixes := prefixes;
      matches := {};
    }

    // Returns whether the value could be scanned; otherwise the scan raises.
    method Visit(v: Json, path: Path) returns (ok: bool)
      requires Valid()
      modifies this
      ensures ok <==> WellFormed(v)
      ensures ok ==> matches == old(matches) + Hits(v, path, prefixes)
      decreases v, 1
    {
      match v
      case Scalar => return true;
      case Float(finite) => return finite;
      case Str(text) => ok := VisitText(text, path);
      case List(items) => ok := VisitItems(v, path);
      case Object(fields) => ok := VisitFields(v, path);
      case Foreign => return false;
    }

    method VisitText(text: Text, path: Path) returns (ok: bool)
      requires Valid()
      modifies this
      ensures ok <==> text.Utf8?
      ensures ok ==> matches == old(matches) + TextHits(path, text.bytes, prefixes)
    {
      if text.NotUtf8? {
        return false;
      }
      var found := ContainsPrivatePrefix(text.bytes, prefixes);
      if found {
        matches := matches + {path};
      }
      return true;
    }

    method VisitItems(v: Json, path: Path) returns (ok: bool)
      requires Valid() && v.List?
      modifies this
      ensures ok <==> WellFormed(v)
      ensures ok ==> matches == old(matches) + ItemHits(v, |v.items|, path, prefixes)
      decreases v, 0
    {
      for i := 0 to |v.items|
        invariant forall k | 0 <= k < i :: WellFormed(v.items[k])
        invariant matches == old(matches) + ItemHits(v, i, path, prefixes)
      {
        var fine := Visit(v.items[i], path + [Item(i)]);
        if !fine {
          return false;
        }
      }
      return true;
    }

    method VisitFields(v: Json, path: Path) returns (ok: bool)
      requires Valid() && v.Object?
      modifies this
      ensures ok <==> WellFormed(v)
      ensures ok ==> matches == old(matches) + FieldHits(v, |v.fields|, path, prefixes)
      decreases v, 0, 1
    {
      for i := 0 to |v.fields|
        invariant forall k | 0 <= k < i :: v.fields[k].0.Named? && v.fields[k].0.text.Utf8? && WellFormed(v.fields[k].1)
        invariant matches == old(matches) + FieldHits(v, i, path, prefixes)
      {
        var fine := VisitField(v, i, path);
        if !fine {
          return false;
        }
      }
      return true;
    }

    // The key's own text first, then the value.
    method VisitField(v: Json, i: nat, path: Path) returns (ok: bool)
      requires Valid() && v.Object? && i < |v.fields|
      modifies this
      ensures ok <==> v.fields[i].0.Named? && v.fields[i].0.text.Utf8? && WellFormed(v.fields[i].1)
      ensures ok ==> matches == old(matches) + FieldHit(v, i, path, prefixes)
      decreases v, 0, 0
    {
      var (name, child) := v.fields[i];
      if name.NotAString? {
        return false;
      }
      ok := VisitText(name.text, path + [KeyName(KeyOf(name))]);
      if ok {
        ok := Visit(child, path + [Field(KeyOf(name))]);
      }
    }
  }

  // ---------------------------------------------------------------- the scan refines its specification

  lemma {:induction false} ItemHitsHas(v: Json, n: nat, path: Path, prefixes: set<seq<Byte>>, i: nat)
    requires v.List? && i < n <= |v.items|
    ensures Hits(v.items[i], path + [Item(i)], prefixes) <= ItemHits(v, n, path, prefixes)
  {
    if i < n - 1 {
      ItemHitsHas(v, n - 1, path, prefixes, i);
    }
  }

  lemma {:induction false} ItemOfHit(v: Json, n: nat, path: Path, prefixes: set<seq<Byte>>, hit: Path) returns (i: nat)
    requires v.List? && n <= |v.items| && hit in ItemHits(v, n, path, prefixes)
    ensures i < n && hit in Hits(v.items[i], path + [Item(i)], prefixes)
  {
    if hit in Hits(v.items[n - 1], path + [Item(n - 1)], prefixes) {
      i := n - 1;
    } else {
      i := ItemOfHit(v, n - 1, path, prefixes, hit);
    }
  }

  lemma {:induction false} FieldHitsHas(v: Json, n: nat, path: Path, prefixes: set<seq<Byte>>, i: nat)
    requires v.Object? && i < n <= |v.fields|
    ensures FieldHit(v, i, path, prefixes) <= FieldHits(v, n, path, prefixes)
  {
    if i < n - 1 {
      FieldHitsHas(v, n - 1, path, prefixes, i);
    }
  }

  lemma {:induction false} FieldOfHit(v: Json, n: nat, path: Path, prefixes: set<seq<Byte>>, hit: Path) returns (i: nat)
    requires v.Object? && n <= |v.fields| && hit in FieldHits(v, n, path, prefixes)
    ensures i < n && hit in FieldHit(v, i, path, prefixes)
  {
    if hit in FieldHit(v, n - 1, path, prefixes) {
      i := n - 1;
    } else {
      i := FieldOfHit(v, n - 1, path, prefixes, hit);
    }
  }

  // Every leaking string is reported at its own path.
  lemma {:induction false} LeaksAreHit(v: Json, path: Path, prefixes: set<seq<Byte>>, p: Path, t: seq<Byte>)
    requires AtomAt(v, p, t) && Leaks(t, prefixes)
    ensures path + p in Hits(v, path, prefixes)
    decreases v
  {
    match v
    case Str(text) => assert path + p == path;
    case List(items) =>
      var i := p[0].index;
      LeaksAreHit(items[i], path + [Item(i)], prefixes, p[1..], t);
      assert path + [Item(i)] + p[1..] == path + p;
      ItemHitsHas(v, |items|, path, prefixes, i);
    case Object(fields) =>
      var i :| 0 <= i < |fields|
        && ((p == [KeyName(KeyOf(fields[i].0))] && t == KeyOf(fields[i].0))
            || (p[0] == Field(KeyOf(fields[i].0)) && AtomAt(fields[i].1, p[1..], t)));
      if p[0].Field? {
        LeaksAreHit(fields[i].1, path + [p[0]], prefixes, p[1..], t);
        assert path + [p[0]] + p[1..] == path + p;
      }
      FieldHitsHas(v, |fields|, path, prefixes, i);
  }

  lemma Onwards(path: Path, step: Step, rest: Path)
    ensures path + [step] + rest == path + ([step] + rest) && ([step] + rest)[1..] == rest && ([step] + rest)[0] == step
  {
  }

  // And nothing else is reported.
  lemma {:induction false} HitsLeak(v: Json, path: Path, prefixes: set<seq<Byte>>, hit: Path) returns (p: Path, t: seq<Byte>)
    requires WellFormed(v) && hit in Hits(v, path, prefixes)
    ensures hit == path + p && AtomAt(v, p, t) && Leaks(t, prefixes)
    decreases v
  {
    match v
    case Str(text) =>
      p, t := [], text.bytes;
    case List(items) =>
      var i := ItemOfHit(v, |items|, path, prefixes, hit);
      var q, u := HitsLeak(items[i], path + [Item(i)], prefixes, hit);
      p, t := [Item(i)] + q, u;
      Onwards(path, Item(i), q);
    case Object(fields) =>
      var i := FieldOfHit(v, |fields|, path, prefixes, hit);
      var key := KeyOf(fields[i].0);
      if hit in TextHits(path + [KeyName(key)], key, prefixes) {
        p, t := [KeyName(key)], key;
      } else {
        var q, u := HitsLeak(fields[i].1, path + [Field(key)], prefixes, hit);
        p, t := [Field(key)] + q, u;
        Onwards(path, Field(key), q);
      }
  }

  // A scan of a well-formed value reports exactly the paths of its leaking strings, at any depth, keys and values.
  lemma ScanRefinesSpecification(v: Json, prefixes: set<seq<Byte>>, hit: Path)
    requires WellFormed(v)
    ensures hit in Hits(v, [], prefixes) <==> exists t :: AtomAt(v, hit, t) && Leaks(t, prefixes)
  {
    if hit in Hits(v, [], prefixes) {
      var p, t := HitsLeak(v, [], prefixes, hit);
      assert hit == p;
    }
    if t :| AtomAt(v, hit, t) && Leaks(t, prefixes) {
      LeaksAreHit(v, [], prefixes, hit, t);
      assert [] + hit == hit;
    }
  }

  // The text starts with a base64 form, whole or cut, of a multiple of three bytes and the value, far enough for its
  // 16 bytes, and outside the lone-pad exception.
  predicate Encoded(text: seq<Byte>, pre: seq<Byte>, value: seq<Byte>, urlSafe: bool, padded: bool, length: nat) {
    && |pre| % 3 == 0 && StartsWithEncoding(text, pre + value, urlSafe, padded, length)
    && |pre| / 3 * 4 + MIN_CHARS <= length <= |text| && !LonePadAhead(text[|pre| / 3 * 4..])
  }

  // A private value of 16 bytes or more that is written anywhere into a string makes the string leak: raw, in
  // hexadecimal of any case, or in base64 of either alphabet behind any multiple of three other bytes, unless the
  // lone-pad exception applies.
  lemma EmbeddedValuesLeak(payload: seq<Byte>, offset: nat, value: seq<Byte>, prefixes: set<seq<Byte>>)
    requires |value| >= PREFIX_BYTES && value[..PREFIX_BYTES] in prefixes && offset <= |payload|
    requires value <= payload[offset..] || (exists form :: HexReads(form, value) && form <= payload[offset..])
      || exists pre, urlSafe, padded, length :: Encoded(payload[offset..], pre, value, urlSafe, padded, length)
    ensures Leaks(payload, prefixes)
  {
    var text := payload[offset..];
    if value <= text {
      assert text[..PREFIX_BYTES] == value[..PREFIX_BYTES];
      assert Here(payload[offset..], prefixes);
    } else if form :| HexReads(form, value) && form <= text {
      DigitsAreFound(text, value, form, prefixes);
      assert Here(payload[offset..], prefixes);
    } else {
      var pre, urlSafe, padded, length :| Encoded(text, pre, value, urlSafe, padded, length);
      var c := |pre| / 3 * 4;
      EncodingsAreFound(text, pre, value, urlSafe, padded, length, prefixes);
      assert payload[offset + c..] == text[c..];
      assert Here(payload[offset + c..], prefixes);
    }
  }

  // Behind one or two other bytes the value is not written at a character of its own, and is missed: a string that holds
  // nothing but such an encoding does not leak.
  lemma MisalignedIsMissed(r: nat, urlSafe: bool, padded: bool)
    requires r == 1 || r == 2
    ensures var zeros: seq<Byte> := seq(PREFIX_BYTES, i => 0); var pre: seq<Byte> := seq(r, i => 255);
      !Leaks(Encode(pre + zeros, urlSafe, padded), {zeros})
  {
    var zeros: seq<Byte> := seq(PREFIX_BYTES, i => 0);
    var pre: seq<Byte> := seq(r, i => 255);
    var payload := Encode(pre + zeros, urlSafe, padded);
    assert |payload| <= 24 && payload[..|payload|] == payload;
    forall offset | 0 <= offset <= |payload| ensures !Here(payload[offset..], {zeros}) {
      var text := payload[offset..];
      if |text| >= PREFIX_BYTES {
        EncodingHasNoZero(pre + zeros, urlSafe, padded, offset);
        assert text[0] == payload[offset] != zeros[0];
      }
      NothingElseIsFound(pre + zeros, urlSafe, padded, |payload|, offset, {zeros});
      if Covers(pre + zeros, |payload|, offset) {
        MisalignedReads(r, offset);
      }
    }
  }

  lemma EncodingHasNoZero(b: seq<Byte>, urlSafe: bool, padded: bool, k: nat)
    requires k < |Encode(b, urlSafe, padded)|
    ensures Encode(b, urlSafe, padded)[k] != 0
  {
    CharIs(b, urlSafe, padded, k);
  }

  lemma MisalignedReads(r: nat, c: nat)
    requires (r == 1 && c < 2) || (r == 2 && c < 3)
    ensures var zeros: seq<Byte> := seq(PREFIX_BYTES, i => 0); var pre: seq<Byte> := seq(r, i => 255);
      ReadFrom(pre + zeros, c) != zeros
  {
    var zeros: seq<Byte> := seq(PREFIX_BYTES, i => 0);
    var pre: seq<Byte> := seq(r, i => 255);
    var b := pre + zeros;
    assert b[0] == 255 && b[r] == 0 && (r == 2 ==> b[1] == 255);
    assert ReadFrom(b, c)[0] == PairByte(b, 3 * c) != 0;
  }

  // The exception is real: a string that holds nothing but such a form does not leak.
  lemma LonePadIsMissed()
    ensures var zeros: seq<Byte> := seq(PREFIX_BYTES, i => 0);
      !Leaks(Encode(zeros, false, false) + [PAD, 'A' as int], {zeros})
  {
    var zeros: seq<Byte> := seq(PREFIX_BYTES, i => 0);
    var e := Encode(zeros, false, false);
    var payload := e + [PAD, 'A' as int];
    forall k | 0 <= k < 22 ensures payload[k] == 'A' as int {
      assert e[k] == Encode6(SextetOf(zeros, k), false) && SextetOf(zeros, k) == 0;
    }
    forall offset | 0 <= offset <= |payload| ensures !Here(payload[offset..], {zeros}) {
      var text := payload[offset..];
      if |text| >= PREFIX_BYTES {
        assert text[0] == payload[offset] != 0 == zeros[0];
      }
      if offset > 0 && |text| >= MIN_CHARS {
        assert text[22 - offset] == payload[22] == PAD && !IsData(text[22 - offset]);
      }
    }
  }
}
