/** The base64 side of the private-prefix scanner (q1_audit_privacy.py): a strict decoder run over a window of public
    text, measured against the encodings of sections 4 and 5 of RFC 4648. */
module Base64 {
  import opened Wrappers
  import opened Frames

  const PREFIX_BYTES: nat := 16
  const MIN_CHARS: nat := 22
  const SCAN_CHARS: nat := 24
  const PAD: Byte := '=' as int

  type Sextet = x: int | 0 <= x < 64

  datatype Symbol = Data(value: Sextet) | Pad | Other

  // ---------------------------------------------------------------- alphabets

  // A character under the standard alphabet; with `alt`, `-` and `_` are translated to `+` and `/` first.
  function Classify(c: Byte, alt: bool): Symbol {
    if 'A' as int <= c <= 'Z' as int then Data(c - 'A' as int)
    else if 'a' as int <= c <= 'z' as int then Data(c - 'a' as int + 26)
    else if '0' as int <= c <= '9' as int then Data(c - '0' as int + 52)
    else if c == '+' as int || (alt && c == '-' as int) then Data(62)
    else if c == '/' as int || (alt && c == '_' as int) then Data(63)
    else if c == PAD then Pad
    else Other
  }

  // The scanner's own character set is what the URL-safe pass can read.
  predicate InWindowAlphabet(c: Byte) {
    || 'A' as int <= c <= 'Z' as int || 'a' as int <= c <= 'z' as int || '0' as int <= c <= '9' as int
    || c == '+' as int || c == '/' as int || c == '-' as int || c == '_' as int || c == PAD
  }

  predicate IsData(c: Byte) {
    Classify(c, true).Data?
  }

  function Encode6(v: Sextet, urlSafe: bool): (c: Byte)
    ensures Classify(c, true) == Data(v) && (!urlSafe ==> Classify(c, false) == Data(v))
  {
    if v < 26 then 'A' as int + v
    else if v < 52 then 'a' as int + v - 26
    else if v < 62 then '0' as int + v - 52
    else if v == 62 then if urlSafe then '-' as int else '+' as int
    else if urlSafe then '_' as int else '/' as int
  }

  // ---------------------------------------------------------------- the strict decoder

  datatype State = State(quad: nat, left: nat, pads: nat, padding: bool, out: seq<Byte>)

  const START: State := State(0, 0, 0, false, [])

  predicate Good(st: State) {
    && st.quad < 4 && (st.quad == 0 || st.quad == 1 ==> st.left < 64) && (st.quad == 2 ==> st.left < 16)
    && (st.quad == 3 ==> st.left < 4)
  }

  // One data character: four sextets give three bytes.
  function Shift(st: State, v: Sextet): (r: State)
    requires Good(st)
    ensures Good(r) && r.quad == (st.quad + 1) % 4 && r.padding == st.padding
  {
    if st.quad == 0 then st.(quad := 1, left := v, pads := 0)
    else if st.quad == 1 then st.(quad := 2, left := v % 16, pads := 0, out := st.out + [st.left * 4 + v / 16])
    else if st.quad == 2 then st.(quad := 3, left := v % 4, pads := 0, out := st.out + [st.left * 16 + v / 4])
    else st.(quad := 0, left := 0, pads := 0, out := st.out + [st.left * 64 + v])
  }

  // None stands for a decoding error.
  function DecodeFrom(s: seq<Symbol>, i: nat, st: State): Option<seq<Byte>>
    requires i <= |s| && Good(st)
    decreases |s| - i
  {
    if i == |s| then if st.quad == 0 then Some(st.out) else None
    else match s[i]
      case Other => None
      case Data(v) => if st.padding then None else DecodeFrom(s, i + 1, Shift(st, v))
      case Pad =>
        if st.quad >= 2 && st.quad + st.pads + 1 >= 4 then if i + 1 < |s| then None else Some(st.out)
        else DecodeFrom(s, i + 1, st.(padding := true, pads := if st.quad >= 2 then st.pads + 1 else st.pads))
  }

  function StrictDecode(s: seq<Symbol>): Option<seq<Byte>> {
    if s != [] && s[0].Pad? then None else DecodeFrom(s, 0, START)
  }

  // ---------------------------------------------------------------- what data characters decode to

  // The decoder after the first n symbols, all of them data.
  function After(s: seq<Symbol>, n: nat): (st: State)
    requires n <= |s| && forall k | 0 <= k < n :: s[k].Data?
    ensures Good(st) && st.quad == n % 4 && !st.padding && st.pads == 0
  {
    if n == 0 then START else Shift(After(s, n - 1), s[n - 1].value)
  }

  lemma {:induction false} DecodesData(s: seq<Symbol>, n: nat)
    requires n <= |s| && forall k | 0 <= k < n :: s[k].Data?
    ensures DecodeFrom(s, 0, START) == DecodeFrom(s, n, After(s, n))
  {
    if n > 0 {
      DecodesData(s, n - 1);
    }
  }

  // Byte r of group q, read directly off the sextets of that group.
  function GroupByte(s: seq<Symbol>, q: nat, r: nat): Byte
    requires r < 3 && 4 * q + r + 1 < |s| && s[4 * q + r].Data? && s[4 * q + r + 1].Data?
  {
    Across(s[4 * q + r].value, s[4 * q + r + 1].value, r)
  }

  // The byte that starts 2r bits into the first of two sextets.
  function Across(a: Sextet, b: Sextet, r: nat): Byte
    requires r < 3
  {
    if r == 0 then a * 4 + b / 16 else if r == 1 then a % 16 * 16 + b / 4 else a % 4 * 64 + b
  }

  // Byte j of a decoding.
  function ByteAt(s: seq<Symbol>, j: nat): Byte
    requires 4 * (j / 3) + j % 3 + 1 < |s| && s[4 * (j / 3) + j % 3].Data? && s[4 * (j / 3) + j % 3 + 1].Data?
  {
    GroupByte(s, j / 3, j % 3)
  }

  // What is left over of the last sextet after n of them.
  function Leftover(s: seq<Symbol>, n: nat): nat
    requires n <= |s| && forall k | 0 <= k < n :: s[k].Data?
  {
    if n % 4 == 0 then 0
    else if n % 4 == 1 then s[n - 1].value
    else if n % 4 == 2 then s[n - 1].value % 16
    else s[n - 1].value % 4
  }

  lemma {:induction false} AfterShape(s: seq<Symbol>, n: nat)
    requires n <= |s| && forall k | 0 <= k < n :: s[k].Data?
    ensures |After(s, n).out| == n * 3 / 4 && After(s, n).left == Leftover(s, n)
  {
    if n > 0 {
      AfterShape(s, n - 1);
      ThreeQuarters(n);
    }
  }

  lemma ThreeQuarters(n: nat)
    requires n > 0
    ensures n * 3 / 4 == (n - 1) * 3 / 4 + if n % 4 == 1 then 0 else 1
    ensures n % 4 == ((n - 1) % 4 + 1) % 4
  {
    assert n == 4 * (n / 4) + n % 4;
  }

  // The byte that completes with sextet number n = 4q + r + 2.
  lemma NewByte(s: seq<Symbol>, q: nat, r: nat)
    requires r < 3 && 4 * q + r + 2 <= |s| && forall k | 0 <= k < 4 * q + r + 2 :: s[k].Data?
    ensures var out := After(s, 4 * q + r + 2).out;
      |out| == 3 * q + r + 1 && out[3 * q + r] == GroupByte(s, q, r)
  {
    var n := 4 * q + r + 1;
    BytesBefore(q, r);
    AfterShape(s, n);
    ShiftAdds(After(s, n), s[n].value, s, q, r);
    assert After(s, n + 1) == Shift(After(s, n), s[n].value);
  }

  lemma BytesBefore(q: nat, r: nat)
    requires r < 3
    ensures var n := 4 * q + r + 1; n % 4 == r + 1 && n * 3 / 4 == 3 * q + r
  {
  }

  lemma ShiftAdds(st: State, sextet: Sextet, s: seq<Symbol>, q: nat, r: nat)
    requires r < 3 && 4 * q + r + 2 <= |s| && forall k | 0 <= k < 4 * q + r + 2 :: s[k].Data?
    requires Good(st) && st.quad == r + 1 && st.left == Leftover(s, 4 * q + r + 1) && sextet == s[4 * q + r + 1].value && |st.out| == 3 * q + r
    ensures |Shift(st, sextet).out| == 3 * q + r + 1 && Shift(st, sextet).out[3 * q + r] == GroupByte(s, q, r)
  {
    BytesBefore(q, r);
    LeftoverIs(s[4 * q + r].value, sextet, r);
    assert Shift(st, sextet).out == st.out + [Across(s[4 * q + r].value, sextet, r)];
  }

  lemma LeftoverIs(a: Sextet, b: Sextet, r: nat)
    requires r < 3
    ensures Across(a, b, r) == if r == 0 then a * 4 + b / 16 else if r == 1 then a % 16 * 16 + b / 4 else a % 4 * 64 + b
  {
  }

  lemma {:induction false} AfterByte(s: seq<Symbol>, n: nat, q: nat, r: nat)
    requires n <= |s| && (forall k | 0 <= k < n :: s[k].Data?) && r < 3 && 4 * q + r + 2 <= n
    ensures |After(s, n).out| == n * 3 / 4 && 3 * q + r < n * 3 / 4 && After(s, n).out[3 * q + r] == GroupByte(s, q, r)
  {
    AfterShape(s, n);
    if n == 4 * q + r + 2 {
      NewByte(s, q, r);
    } else {
      AfterByte(s, n - 1, q, r);
    }
  }

  // Once a pad has been seen, decoding adds nothing.
  lemma {:induction false} PaddingAddsNothing(s: seq<Symbol>, i: nat, st: State)
    requires i <= |s| && Good(st) && st.padding
    ensures DecodeFrom(s, i, st).Some? ==> DecodeFrom(s, i, st).value == st.out
    decreases |s| - i
  {
    if i < |s| && s[i].Pad? && !(st.quad >= 2 && st.quad + st.pads + 1 >= 4) {
      PaddingAddsNothing(s, i + 1, st.(padding := true, pads := if st.quad >= 2 then st.pads + 1 else st.pads));
    }
  }

  // ---------------------------------------------------------------- a whole window

  // 24 characters, of which all that the scanner took belong to the alphabet.
  predicate Window(s: seq<Symbol>) {
    |s| == SCAN_CHARS && forall k | 0 <= k < |s| :: !s[k].Other?
  }

  predicate DataUpTo(s: seq<Symbol>, n: nat) {
    n <= |s| && forall k | 0 <= k < n :: s[k].Data?
  }

  // The first pad stands at d < 22: too few bytes, or an error.
  lemma EarlyPad(s: seq<Symbol>, d: nat)
    requires Window(s) && d < MIN_CHARS && DataUpTo(s, d) && s[d].Pad?
    ensures StrictDecode(s).Some? ==> |StrictDecode(s).value| < PREFIX_BYTES
  {
    if d > 0 {
      DecodesData(s, d);
      AfterShape(s, d);
      var st := After(s, d);
      PaddingAddsNothing(s, d + 1, st.(padding := true, pads := if st.quad >= 2 then 1 else 0));
    }
  }

  // A pad directly behind 22 data characters, and then another data character.
  predicate LonePad(s: seq<Symbol>) {
    |s| == SCAN_CHARS && s[22].Pad? && s[23].Data?
  }

  lemma LatePad(s: seq<Symbol>)
    requires Window(s) && DataUpTo(s, MIN_CHARS)
    ensures StrictDecode(s).None? <==> LonePad(s)
    ensures StrictDecode(s).Some? ==> |StrictDecode(s).value| >= PREFIX_BYTES && StrictDecode(s).value[..16] == After(s, 22).out
  {
    DecodesData(s, 22);
    AfterShape(s, 22);
    var st := After(s, 22);
    if s[22].Data? {
      var st1 := Shift(st, s[22].value);
      assert DecodeFrom(s, 22, st) == DecodeFrom(s, 23, st1);
      if s[23].Data? {
        assert DecodeFrom(s, 23, st1) == DecodeFrom(s, 24, Shift(st1, s[23].value));
      }
    } else {
      var st1 := st.(padding := true, pads := 1);
      assert DecodeFrom(s, 22, st) == DecodeFrom(s, 23, st1);
    }
  }

  // Where the first pad stands, if there is one before n.
  function FirstPad(s: seq<Symbol>, i: nat, n: nat): (d: nat)
    requires i <= n <= |s| && forall k | 0 <= k < |s| :: !s[k].Other?
    ensures i <= d <= n && (forall k | i <= k < d :: s[k].Data?) && (d < n ==> s[d].Pad?)
    decreases n - i
  {
    if i < n && s[i].Data? then FirstPad(s, i + 1, n) else i
  }

  // The decoder yields 16 bytes or more exactly when the first 22 characters are data and no lone pad follows;
  // then its first bytes are those of the groups of sextets.
  lemma WindowDecodes(s: seq<Symbol>)
    requires Window(s)
    ensures StrictDecode(s).Some? && |StrictDecode(s).value| >= PREFIX_BYTES <==> DataUpTo(s, MIN_CHARS) && !LonePad(s)
    ensures StrictDecode(s).Some? && |StrictDecode(s).value| >= PREFIX_BYTES ==>
      forall j | 0 <= j < PREFIX_BYTES :: StrictDecode(s).value[j] == ByteAt(s, j)
  {
    var d := FirstPad(s, 0, MIN_CHARS);
    if d < MIN_CHARS {
      EarlyPad(s, d);
    } else {
      LatePad(s);
      if StrictDecode(s).Some? {
        forall j | 0 <= j < PREFIX_BYTES ensures StrictDecode(s).value[j] == ByteAt(s, j) {
          AfterByte(s, 22, j / 3, j % 3);
          assert StrictDecode(s).value[..16][j] == After(s, 22).out[j];
        }
      }
    }
  }

  // ---------------------------------------------------------------- the encoders

  function Symbols(b: seq<Byte>, alt: bool): (s: seq<Symbol>)
    ensures |s| == |b|
  {
    seq(|b|, i requires 0 <= i < |b| => Classify(b[i], alt))
  }

  function Octet(b: seq<Byte>, i: nat): Byte {
    if i < |b| then b[i] else 0
  }

  // Sextet r of group q of the bytes, read as one bit string filled with zero bits.
  function GroupSextet(b: seq<Byte>, q: nat, r: nat): Sextet
    requires r < 4
  {
    SextetIn(Octet(b, 3 * q), Octet(b, 3 * q + 1), Octet(b, 3 * q + 2), r)
  }

  function SextetIn(x: Byte, y: Byte, z: Byte, r: nat): Sextet
    requires r < 4
  {
    if r == 0 then x / 4 else if r == 1 then x % 4 * 16 + y / 16 else if r == 2 then y % 16 * 4 + z / 64 else z % 64
  }

  function SextetOf(b: seq<Byte>, k: nat): Sextet {
    GroupSextet(b, k / 4, k % 4)
  }

  function DataChars(n: nat): nat { (4 * n + 2) / 3 }

  function PadChars(n: nat): nat { if n % 3 == 0 then 0 else 3 - n % 3 }

  // Sections 4 and 5 of RFC 4648, with or without the trailing pad characters.
  function Encode(b: seq<Byte>, urlSafe: bool, padded: bool): (e: seq<Byte>)
    ensures |e| == DataChars(|b|) + if padded then PadChars(|b|) else 0
  {
    seq(DataChars(|b|), k requires 0 <= k < DataChars(|b|) => Encode6(SextetOf(b, k), urlSafe))
    + seq(if padded then PadChars(|b|) else 0, k => PAD)
  }

  // The four sextets of a group give back its bytes.
  lemma GroupBytes(b: seq<Byte>, s: seq<Symbol>, q: nat, r: nat)
    requires r < 3 && 3 * q + r < |b| && 4 * q + r + 1 < |s|
    requires s[4 * q + r] == Data(GroupSextet(b, q, r)) && s[4 * q + r + 1] == Data(GroupSextet(b, q, r + 1))
    ensures GroupByte(s, q, r) == b[3 * q + r]
  {
    var x, y, z := Octet(b, 3 * q), Octet(b, 3 * q + 1), Octet(b, 3 * q + 2);
    if r == 0 { FirstByte(x, y); } else if r == 1 { SecondByte(x, y, z); } else { ThirdByte(y, z); }
  }

  lemma FirstByte(x: Byte, y: Byte)
    ensures x / 4 * 4 + (x % 4 * 16 + y / 16) / 16 == x
  {
  }

  lemma SecondByte(x: Byte, y: Byte, z: Byte)
    ensures (x % 4 * 16 + y / 16) % 16 * 16 + (y % 16 * 4 + z / 64) / 4 == y
  {
  }

  lemma ThirdByte(y: Byte, z: Byte)
    ensures (y % 16 * 4 + z / 64) % 4 * 64 + z % 64 == z
  {
  }

  lemma SextetAt(b: seq<Byte>, q: nat, r: nat)
    requires r < 4
    ensures SextetOf(b, 4 * q + r) == GroupSextet(b, q, r)
  {
    assert (4 * q + r) / 4 == q && (4 * q + r) % 4 == r;
  }

  // Data characters that carry the sextets of b decode to b's bytes.
  lemma SextetsDecode(b: seq<Byte>, s: seq<Symbol>, j: nat)
    requires j < |b| && 4 * (j / 3) + j % 3 + 1 < |s|
    requires forall k | 0 <= k <= 4 * (j / 3) + j % 3 + 1 :: s[k] == Data(SextetOf(b, k))
    ensures ByteAt(s, j) == b[j]
  {
    var q, r := j / 3, j % 3;
    SextetAt(b, q, r);
    SextetAt(b, q, r + 1);
    GroupBytes(b, s, q, r);
  }

  // The strict decoder undoes the padded encoders, in either alphabet.
  lemma DecodeEncode(b: seq<Byte>, urlSafe: bool)
    ensures StrictDecode(Symbols(Encode(b, urlSafe, true), true)) == Some(b)
  {
    var s := Symbols(Encode(b, urlSafe, true), true);
    var n := DataChars(|b|);
    EncodedSymbols(b, urlSafe);
    EncodedBytes(b, s, n);
    DecodesData(s, n);
    PadsFinish(s, n, After(s, n));
  }

  lemma EncodedSymbols(b: seq<Byte>, urlSafe: bool)
    ensures var s := Symbols(Encode(b, urlSafe, true), true); var n := DataChars(|b|);
      && n <= |s| && |s| % 4 == 0 && n + 3 > |s| && (s != [] ==> n > 0)
      && (forall k | 0 <= k < n :: s[k] == Data(SextetOf(b, k))) && forall k | n <= k < |s| :: s[k].Pad?
  {
    var e := Encode(b, urlSafe, true);
    var s := Symbols(e, true);
    var n := DataChars(|b|);
    PaddedLength(|b|);
    forall k | 0 <= k < n ensures s[k] == Data(SextetOf(b, k)) {
      assert e[k] == Encode6(SextetOf(b, k), urlSafe);
    }
    forall k | n <= k < |s| ensures s[k].Pad? {
      assert e[k] == PAD;
    }
  }

  lemma PaddedLength(n: nat)
    ensures (DataChars(n) + PadChars(n)) % 4 == 0 && PadChars(n) < 3 && (n > 0 ==> DataChars(n) > 0) && (n == 0 ==> PadChars(n) == 0)
  {
    var q, r := n / 3, n % 3;
    assert n == 3 * q + r;
    assert DataChars(n) == 4 * q + (if r == 0 then 0 else r + 1);
  }

  lemma EncodedBytes(b: seq<Byte>, s: seq<Symbol>, n: nat)
    requires n == DataChars(|b|) <= |s| && forall k | 0 <= k < n :: s[k] == Data(SextetOf(b, k))
    ensures After(s, n).out == b
  {
    AfterShape(s, n);
    assert n * 3 / 4 == |b|;
    forall j | 0 <= j < |b| ensures After(s, n).out[j] == b[j] {
      AfterByte(s, n, j / 3, j % 3);
      SextetsDecode(b, s, j);
    }
  }

  // The pads that complete a group end the decoding.
  lemma PadsFinish(s: seq<Symbol>, n: nat, st: State)
    requires n <= |s| && Good(st) && st.quad == n % 4 && !st.padding && st.pads == 0
    requires |s| % 4 == 0 && n + 3 > |s| && forall k | n <= k < |s| :: s[k].Pad?
    ensures DecodeFrom(s, n, st) == Some(st.out)
  {
    if n + 2 == |s| {
      assert DecodeFrom(s, n, st) == DecodeFrom(s, n + 1, st.(padding := true, pads := 1));
    }
  }

  // ---------------------------------------------------------------- the scanner's window

  // The text from an offset on starts with 22 data characters of either alphabet.
  predicate DataAhead(text: seq<Byte>) {
    |text| >= MIN_CHARS && forall k | 0 <= k < MIN_CHARS :: IsData(text[k])
  }

  // The 16 bytes they encode.
  function PrefixAhead(text: seq<Byte>): (p: seq<Byte>)
    requires DataAhead(text)
    ensures |p| == PREFIX_BYTES
  {
    seq(PREFIX_BYTES, j requires 0 <= j < PREFIX_BYTES => AheadByte(text, j))
  }

  function AheadByte(text: seq<Byte>, j: nat): Byte
    requires DataAhead(text) && j < PREFIX_BYTES
  {
    var s := Symbols(text, true);
    assert 4 * (j / 3) + j % 3 + 1 < MIN_CHARS;
    assert IsData(text[4 * (j / 3) + j % 3]) && IsData(text[4 * (j / 3) + j % 3 + 1]);
    ByteAt(s, j)
  }

  predicate LonePadAhead(text: seq<Byte>) {
    |text| >= SCAN_CHARS && text[22] == PAD && IsData(text[23])
  }

  // What the scanner finds: 22 data characters that encode an indexed prefix, unless exactly one pad and then
  // another data character follows them.
  predicate Base64Here(text: seq<Byte>, prefixes: set<seq<Byte>>) {
    DataAhead(text) && PrefixAhead(text) in prefixes && !LonePadAhead(text)
  }

  // The first `length` characters, padded to a whole number of groups.
  function Candidate(text: seq<Byte>, length: nat): seq<Byte>
    requires length <= |text|
  {
    text[..length] + seq((4 - length % 4) % 4, i => PAD)
  }

  predicate Decoded(candidate: seq<Byte>, alt: bool, prefixes: set<seq<Byte>>) {
    match StrictDecode(Symbols(candidate, alt))
    case None => false
    case Some(out) => |out| >= PREFIX_BYTES && out[..PREFIX_BYTES] in prefixes
  }

  method Base64Matches(payload: seq<Byte>, offset: nat, prefixes: set<seq<Byte>>) returns (found: bool)
    requires offset <= |payload|
    ensures found <==> Base64Here(payload[offset..], prefixes)
  {
    var text := payload[offset..];
    var available := if |text| < SCAN_CHARS then |text| else SCAN_CHARS;
    var length := 0;
    while length < available && InWindowAlphabet(text[length])
      invariant length <= available && forall k | 0 <= k < length :: InWindowAlphabet(text[k])
    {
      length := length + 1;
    }
    if length < MIN_CHARS {
      ShortWindow(text, length);
      return false;
    }
    var candidate := Candidate(text, length);
    StandardIsCovered(candidate, prefixes);
    CandidateMatches(text, length, prefixes);
    if Decoded(candidate, false, prefixes) {
      return true;
    }
    return Decoded(candidate, true, prefixes);
  }

  // The scanner takes `length` characters: up to 24, as long as they are of its alphabet.
  predicate Takes(text: seq<Byte>, length: nat) {
    && length <= |text| && length <= SCAN_CHARS
    && (forall k | 0 <= k < length :: InWindowAlphabet(text[k]))
    && (length == SCAN_CHARS || length == |text| || !InWindowAlphabet(text[length]))
  }

  lemma ShortWindow(text: seq<Byte>, length: nat)
    requires Takes(text, length) && length < MIN_CHARS
    ensures !DataAhead(text)
  {
    assert length < |text| ==> !IsData(text[length]);
  }

  // Whatever the standard pass decodes, the URL-safe pass decodes to the same bytes.
  lemma {:induction false} SameDecoding(s: seq<Symbol>, t: seq<Symbol>, i: nat, st: State)
    requires |s| == |t| && i <= |s| && Good(st) && DecodeFrom(s, i, st).Some?
    requires forall k | 0 <= k < |s| :: s[k].Other? || s[k] == t[k]
    ensures DecodeFrom(t, i, st) == DecodeFrom(s, i, st)
    decreases |s| - i
  {
    if i < |s| {
      match s[i]
      case Data(v) => SameDecoding(s, t, i + 1, Shift(st, v));
      case Pad =>
        if !(st.quad >= 2 && st.quad + st.pads + 1 >= 4) {
          SameDecoding(s, t, i + 1, st.(padding := true, pads := if st.quad >= 2 then st.pads + 1 else st.pads));
        }
      case Other =>
    }
  }

  lemma StandardIsCovered(candidate: seq<Byte>, prefixes: set<seq<Byte>>)
    ensures Decoded(candidate, false, prefixes) ==> Decoded(candidate, true, prefixes)
  {
    var s, t := Symbols(candidate, false), Symbols(candidate, true);
    if StrictDecode(s).Some? {
      SameDecoding(s, t, 0, START);
      assert candidate == [] || s[0] == t[0];
    }
  }

  lemma CandidateMatches(text: seq<Byte>, length: nat, prefixes: set<seq<Byte>>)
    requires Takes(text, length) && length >= MIN_CHARS
    ensures Decoded(Candidate(text, length), true, prefixes) <==> Base64Here(text, prefixes)
  {
    var s := Symbols(Candidate(text, length), true);
    CandidateSymbols(text, length);
    WindowDecodes(s);
    if DataAhead(text) && !LonePad(s) {
      var out := StrictDecode(s).value;
      forall j | 0 <= j < PREFIX_BYTES ensures out[j] == PrefixAhead(text)[j] {
        SameByte(s, Symbols(text, true), j);
      }
      assert out[..PREFIX_BYTES] == PrefixAhead(text);
    }
  }

  lemma SameByte(s: seq<Symbol>, t: seq<Symbol>, j: nat)
    requires j < PREFIX_BYTES && |s| >= MIN_CHARS && |t| >= MIN_CHARS
    requires forall k | 0 <= k < MIN_CHARS :: s[k] == t[k] && s[k].Data?
    ensures ByteAt(s, j) == ByteAt(t, j)
  {
    var q, r := j / 3, j % 3;
    assert s[4 * q + r] == t[4 * q + r] && s[4 * q + r + 1] == t[4 * q + r + 1];
  }

  lemma CandidateSymbols(text: seq<Byte>, length: nat)
    requires Takes(text, length) && length >= MIN_CHARS
    ensures var s := Symbols(Candidate(text, length), true);
      && Window(s) && (DataUpTo(s, MIN_CHARS) <==> DataAhead(text)) && (LonePad(s) <==> LonePadAhead(text))
      && forall k | 0 <= k < MIN_CHARS :: s[k] == Classify(text[k], true)
  {
    var c := Candidate(text, length);
    var s := Symbols(c, true);
    assert |c| == SCAN_CHARS;
    assert forall k | 0 <= k < length :: c[k] == text[k];
    assert forall k | length <= k < SCAN_CHARS :: c[k] == PAD;
    assert forall k | 0 <= k < MIN_CHARS :: s[k].Data? <==> IsData(text[k]);
  }

  // ---------------------------------------------------------------- encodings are found

  // The byte that starts at a pair of bits, counted from the first.
  function PairByte(b: seq<Byte>, pair: nat): Byte {
    var x, y := Octet(b, pair / 4), Octet(b, pair / 4 + 1);
    if pair % 4 == 0 then x
    else if pair % 4 == 1 then x % 64 * 4 + y / 64
    else if pair % 4 == 2 then x % 16 * 16 + y / 16
    else x % 4 * 64 + y / 4
  }

  // The 16 bytes that start with sextet c of the bytes.
  function ReadFrom(b: seq<Byte>, c: nat): (r: seq<Byte>)
    ensures |r| == PREFIX_BYTES
  {
    seq(PREFIX_BYTES, j requires 0 <= j < PREFIX_BYTES => PairByte(b, 3 * c + 4 * j))
  }

  // Two neighbouring sextets hold a byte at three places.
  lemma SextetsHold(b: seq<Byte>, n: nat, r: nat)
    requires r < 3
    ensures Across(SextetOf(b, n), SextetOf(b, n + 1), r) == PairByte(b, 3 * n + r)
  {
    var q, m := n / 4, n % 4;
    assert n == 4 * q + m;
    SextetAt(b, q, m);
    if m < 3 {
      SextetAt(b, q, m + 1);
    } else {
      SextetAt(b, q + 1, 0);
    }
    AcrossGroup(b, q, m, r);
  }

  lemma PairPlace(q: nat, m: nat, r: nat)
    ensures 3 * (4 * q + m) + r == 12 * q + (3 * m + r)
  {
  }

  lemma AcrossGroup(b: seq<Byte>, q: nat, m: nat, r: nat)
    requires m < 4 && r < 3
    ensures var next := if m < 3 then GroupSextet(b, q, m + 1) else GroupSextet(b, q + 1, 0);
      Across(GroupSextet(b, q, m), next, r) == PairByte(b, 3 * (4 * q + m) + r)
  {
    PairInGroup(b, q, 3 * m + r);
    PairPlace(q, m, r);
    AcrossIn(Octet(b, 3 * q), Octet(b, 3 * q + 1), Octet(b, 3 * q + 2), Octet(b, 3 * q + 3), m, r);
    assert GroupSextet(b, q + 1, 0) == Octet(b, 3 * q + 3) / 4;
  }

  lemma AcrossIn(x: Byte, y: Byte, z: Byte, w: Byte, m: nat, r: nat)
    requires m < 4 && r < 3
    ensures Across(SextetIn(x, y, z, m), if m < 3 then SextetIn(x, y, z, m + 1) else w / 4, r) == InGroup(x, y, z, w, 3 * m + r)
  {
    match 3 * m + r
    case 0 => FirstByte(x, y);
    case 1 => FirstSecond(x, y);
    case 2 => FirstThird(x, y);
    case 3 => MiddleFirst(x, y, z);
    case 4 => SecondByte(x, y, z);
    case 5 => MiddleThird(x, y, z);
    case 6 => LastFirst(y, z);
    case 7 => LastSecond(y, z);
    case 8 => ThirdByte(y, z);
    case 9 => NextFirst(z, w);
    case 10 => NextSecond(z, w);
    case 11 => NextThird(z, w);
  }

  // The byte at one of the twelve pairs of a group.
  function InGroup(x: Byte, y: Byte, z: Byte, w: Byte, pair: nat): Byte
    requires pair < 12
  {
    match pair
    case 0 => x
    case 1 => x % 64 * 4 + y / 64
    case 2 => x % 16 * 16 + y / 16
    case 3 => x % 4 * 64 + y / 4
    case 4 => y
    case 5 => y % 64 * 4 + z / 64
    case 6 => y % 16 * 16 + z / 16
    case 7 => y % 4 * 64 + z / 4
    case 8 => z
    case 9 => z % 64 * 4 + w / 64
    case 10 => z % 16 * 16 + w / 16
    case _ => z % 4 * 64 + w / 4
  }

  lemma PairInGroup(b: seq<Byte>, q: nat, pair: nat)
    requires pair < 12
    ensures PairByte(b, 12 * q + pair) == InGroup(Octet(b, 3 * q), Octet(b, 3 * q + 1), Octet(b, 3 * q + 2), Octet(b, 3 * q + 3), pair)
  {
    assert (12 * q + pair) / 4 == 3 * q + pair / 4 && (12 * q + pair) % 4 == pair % 4;
  }

  lemma FirstSecond(x: Byte, y: Byte)
    ensures x / 4 % 16 * 16 + (x % 4 * 16 + y / 16) / 4 == x % 64 * 4 + y / 64
  {
    assert x % 64 == x / 4 % 16 * 4 + x % 4;
    assert (x % 4 * 16 + y / 16) / 4 == x % 4 * 4 + y / 16 / 4;
    assert y / 16 / 4 == y / 64;
  }

  lemma FirstThird(x: Byte, y: Byte)
    ensures x / 4 % 4 * 64 + (x % 4 * 16 + y / 16) == x % 16 * 16 + y / 16
  {
    assert x % 16 == x / 4 % 4 * 4 + x % 4;
  }

  lemma MiddleFirst(x: Byte, y: Byte, z: Byte)
    ensures (x % 4 * 16 + y / 16) * 4 + (y % 16 * 4 + z / 64) / 16 == x % 4 * 64 + y / 4
  {
    assert (y % 16 * 4 + z / 64) / 16 == y % 16 / 4;
    assert y / 4 == y / 16 * 4 + y % 16 / 4;
  }

  lemma MiddleThird(x: Byte, y: Byte, z: Byte)
    ensures (x % 4 * 16 + y / 16) % 4 * 64 + (y % 16 * 4 + z / 64) == y % 64 * 4 + z / 64
  {
    assert (x % 4 * 16 + y / 16) % 4 == y / 16 % 4;
    assert y % 64 == y / 16 % 4 * 16 + y % 16;
  }

  lemma LastFirst(y: Byte, z: Byte)
    ensures (y % 16 * 4 + z / 64) * 4 + z % 64 / 16 == y % 16 * 16 + z / 16
  {
    assert z / 16 == z / 64 * 4 + z % 64 / 16;
  }

  lemma LastSecond(y: Byte, z: Byte)
    ensures (y % 16 * 4 + z / 64) % 16 * 16 + z % 64 / 4 == y % 4 * 64 + z / 4
  {
    ModOfSum(y % 16, z / 64);
    assert y % 16 % 4 == y % 4;
    Quarter(z);
  }

  lemma ModOfSum(a: nat, b: nat)
    requires a < 16 && b < 4
    ensures (a * 4 + b) % 16 == a % 4 * 4 + b
  {
  }

  lemma Quarter(z: Byte)
    ensures z / 4 == z / 64 * 16 + z % 64 / 4
  {
  }

  lemma NextFirst(z: Byte, w: Byte)
    ensures z % 64 * 4 + w / 4 / 16 == z % 64 * 4 + w / 64
  {
  }

  lemma NextSecond(z: Byte, w: Byte)
    ensures z % 64 % 16 * 16 + w / 4 / 4 == z % 16 * 16 + w / 16
  {
    assert z % 64 % 16 == z % 16;
  }

  lemma NextThird(z: Byte, w: Byte)
    ensures z % 64 % 4 * 64 + w / 4 == z % 4 * 64 + w / 4
  {
  }

  // A text that starts with at least `length` characters of an encoding, which may be cut there.
  predicate StartsWithEncoding(text: seq<Byte>, b: seq<Byte>, urlSafe: bool, padded: bool, length: nat) {
    length <= |Encode(b, urlSafe, padded)| && Encode(b, urlSafe, padded)[..length] <= text
  }

  // 22 characters from c on are data of the encoding.
  predicate Covers(b: seq<Byte>, length: nat, c: nat) {
    c + MIN_CHARS <= length && c + MIN_CHARS <= DataChars(|b|)
  }

  lemma EncodingAhead(text: seq<Byte>, b: seq<Byte>, urlSafe: bool, padded: bool, length: nat, c: nat)
    requires StartsWithEncoding(text, b, urlSafe, padded, length) && Covers(b, length, c)
    ensures DataAhead(text[c..]) && PrefixAhead(text[c..]) == ReadFrom(b, c)
  {
    forall k | 0 <= k < MIN_CHARS ensures Classify(text[c..][k], true) == Data(SextetOf(b, c + k)) {
      assert text[c..][k] == text[c + k] == Encode(b, urlSafe, padded)[c + k] == Encode6(SextetOf(b, c + k), urlSafe);
    }
    SextetsAhead(text[c..], b, c);
  }

  lemma SextetsAhead(text: seq<Byte>, b: seq<Byte>, c: nat)
    requires |text| >= MIN_CHARS && forall k | 0 <= k < MIN_CHARS :: Classify(text[k], true) == Data(SextetOf(b, c + k))
    ensures DataAhead(text) && PrefixAhead(text) == ReadFrom(b, c)
  {
    forall j | 0 <= j < PREFIX_BYTES ensures PrefixAhead(text)[j] == ReadFrom(b, c)[j] {
      SextetsHold(b, c + (4 * (j / 3) + j % 3), j % 3);
      PairOf(c, j);
    }
  }

  lemma PairOf(c: nat, j: nat)
    ensures 3 * (c + (4 * (j / 3) + j % 3)) + j % 3 == 3 * c + 4 * j
  {
  }

  // An encoding of any bytes, in either alphabet, padded or not, cut anywhere and with anything behind it, is found at
  // a character exactly if the 16 bytes that start at that character's bits are an indexed prefix, and no lone pad
  // and another data character follow the 22 characters that hold them.
  lemma EncodingFoundExactly(
    text: seq<Byte>, b: seq<Byte>, urlSafe: bool, padded: bool, length: nat, c: nat, prefixes: set<seq<Byte>>)
    requires StartsWithEncoding(text, b, urlSafe, padded, length) && Covers(b, length, c)
    ensures Base64Here(text[c..], prefixes) <==> ReadFrom(b, c) in prefixes && !LonePadAhead(text[c..])
  {
    EncodingAhead(text, b, urlSafe, padded, length, c);
  }

  // Behind a multiple of three bytes a value starts at a character of its own.
  lemma AlignedReads(pre: seq<Byte>, value: seq<Byte>)
    requires |pre| % 3 == 0 && |value| >= PREFIX_BYTES
    ensures ReadFrom(pre + value, |pre| / 3 * 4) == value[..PREFIX_BYTES]
  {
    var c := |pre| / 3 * 4;
    forall j | 0 <= j < PREFIX_BYTES ensures ReadFrom(pre + value, c)[j] == value[..PREFIX_BYTES][j] {
      assert 3 * c + 4 * j == 4 * (|pre| + j);
      assert (pre + value)[|pre| + j] == value[j];
    }
  }

  // So a value that is encoded behind a multiple of three bytes, and at least as far as its 16 bytes, is found there
  // except exactly for a lone pad. That can only stand where the encoding was cut, or where it was never padded.
  lemma EncodingsAreFound(
    text: seq<Byte>, pre: seq<Byte>, value: seq<Byte>, urlSafe: bool, padded: bool, length: nat, prefixes: set<seq<Byte>>)
    requires |pre| % 3 == 0 && |value| >= PREFIX_BYTES && value[..PREFIX_BYTES] in prefixes
    requires StartsWithEncoding(text, pre + value, urlSafe, padded, length) && |pre| / 3 * 4 + MIN_CHARS <= length
    ensures var c := |pre| / 3 * 4;
      && |text| >= c && (Base64Here(text[c..], prefixes) <==> !LonePadAhead(text[c..]))
      && (LonePadAhead(text[c..]) ==> length == c + 22 || (length == c + 23 && |value| == PREFIX_BYTES && padded))
  {
    var c := |pre| / 3 * 4;
    CharsOf(|pre|, |value|);
    EncodingFoundExactly(text, pre + value, urlSafe, padded, length, c, prefixes);
    AlignedReads(pre, value);
    PadPlaces(text, pre + value, urlSafe, padded, length, c);
  }

  lemma CharsOf(m: nat, n: nat)
    requires m % 3 == 0 && n >= PREFIX_BYTES
    ensures DataChars(m + n) >= m / 3 * 4 + MIN_CHARS
    ensures n > PREFIX_BYTES ==> DataChars(m + n) > m / 3 * 4 + MIN_CHARS
    ensures n == PREFIX_BYTES ==> DataChars(m + n) == m / 3 * 4 + MIN_CHARS && PadChars(m + n) == 2
  {
    var q := m / 3;
    assert m == 3 * q && 4 * (m + n) + 2 == 3 * (4 * q) + (4 * n + 2);
    assert DataChars(m + n) == 4 * q + DataChars(n);
  }

  lemma CharIs(b: seq<Byte>, urlSafe: bool, padded: bool, k: nat)
    requires k < |Encode(b, urlSafe, padded)|
    ensures var c := Encode(b, urlSafe, padded)[k]; if k < DataChars(|b|) then IsData(c) && c != PAD else c == PAD && padded
  {
    assert k < DataChars(|b|) ==> Encode(b, urlSafe, padded)[k] == Encode6(SextetOf(b, k), urlSafe);
  }

  lemma PadPlaces(text: seq<Byte>, b: seq<Byte>, urlSafe: bool, padded: bool, length: nat, c: nat)
    requires StartsWithEncoding(text, b, urlSafe, padded, length) && Covers(b, length, c)
    ensures LonePadAhead(text[c..]) && length > c + 22 ==> length == c + 23 && DataChars(|b|) == c + 22 && padded
  {
    if length > c + 22 {
      CharIs(b, urlSafe, padded, c + 22);
      assert text[c..][22] == text[c + 22] == Encode(b, urlSafe, padded)[c + 22];
    }
    if length > c + 23 {
      CharIs(b, urlSafe, padded, c + 23);
      assert text[c..][23] == text[c + 23] == Encode(b, urlSafe, padded)[c + 23];
    }
  }

  // A text that is nothing but an encoding, whole or cut, holds no other finds: exactly those characters at which an
  // indexed prefix can be read.
  lemma NothingElseIsFound(b: seq<Byte>, urlSafe: bool, padded: bool, length: nat, c: nat, prefixes: set<seq<Byte>>)
    requires length <= |Encode(b, urlSafe, padded)| && c <= length
    ensures Base64Here(Encode(b, urlSafe, padded)[..length][c..], prefixes) <==> Covers(b, length, c) && ReadFrom(b, c) in prefixes
  {
    var e := Encode(b, urlSafe, padded);
    var text := e[..length];
    if Covers(b, length, c) {
      EncodingFoundExactly(text, b, urlSafe, padded, length, c, prefixes);
      PadPlaces(text, b, urlSafe, padded, length, c);
    } else if c + 21 < length {
      CharIs(b, urlSafe, padded, c + 21);
      assert text[c..][21] == e[c + 21];
    }
  }
}
