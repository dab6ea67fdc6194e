/** The two payload builders: greedy packing under a character budget, the EMVCo body, and the CRC
    over everything before it. */
module KhqrPayload {
  import opened Common
  import opened KhqrTlv
  import opened KhqrCrc

  // ---------------------------------------------------------------------------
  // Greedy packing
  // ---------------------------------------------------------------------------

  function TotalSize(fs: seq<Field>): nat {
    if fs == [] then 0 else TotalSize(fs[..|fs| - 1]) + fs[|fs| - 1].Size()
  }

  /** The parts a greedy pass keeps: each one, in order, if it still fits after those kept before. */
  function Kept(parts: seq<Field>, budget: nat): seq<Field> {
    if parts == [] then []
    else
      var before := Kept(parts[..|parts| - 1], budget);
      var part := parts[|parts| - 1];
      if TotalSize(before) + part.Size() <= budget then before + [part] else before
  }

  predicate AnyTooLong(parts: seq<Field>) {
    exists i :: 0 <= i < |parts| && |parts[i].value| > MAX_VALUE
  }

  predicate TwoDigitTags(parts: seq<Field>) {
    forall i :: 0 <= i < |parts| ==> |parts[i].tag| == 2 && IsDigit(parts[i].tag[0]) && IsDigit(parts[i].tag[1])
  }

  lemma {:induction false} KeptEncodable(parts: seq<Field>, budget: nat)
    requires TwoDigitTags(parts) && !AnyTooLong(parts)
    ensures AllEncodable(Kept(parts, budget))
    decreases |parts|
  {
    if parts != [] {
      assert Encodable(parts[|parts| - 1]);
      KeptEncodable(parts[..|parts| - 1], budget);
    }
  }

  lemma {:induction false} PrintSize(fs: seq<Field>)
    requires AllEncodable(fs)
    ensures |Print(fs)| == TotalSize(fs)
    decreases |fs|
  {
    if fs != [] {
      var n := |fs| - 1;
      assert fs == fs[..n] + [fs[n]];
      PrintConcat(fs[..n], [fs[n]]);
      PrintSize(fs[..n]);
      PrintOne(fs[n]);
    }
  }

  lemma PrintOne(f: Field)
    requires Encodable(f)
    ensures Print([f]) == PrintField(f)
  {
    assert [f][1..] == [] && PrintField(f) + "" == PrintField(f);
  }

  /** The packed block never exceeds its budget. */
  lemma {:induction false} KeptFits(parts: seq<Field>, budget: nat)
    ensures TotalSize(Kept(parts, budget)) <= budget
    decreases |parts|
  {
    if parts != [] {
      var before := Kept(parts[..|parts| - 1], budget);
      KeptFits(parts[..|parts| - 1], budget);
      assert (before + [parts[|parts| - 1]])[..|before|] == before;
    }
  }

  /** Maximal: every part offered is in the finished block, or would overflow it. */
  lemma {:induction false} KeptOrOverflows(parts: seq<Field>, budget: nat, i: nat)
    requires i < |parts|
    ensures parts[i] in Kept(parts, budget) || TotalSize(Kept(parts, budget)) + parts[i].Size() > budget
    decreases |parts|
  {
    var n := |parts| - 1;
    var before := Kept(parts[..n], budget);
    assert (before + [parts[n]])[..|before|] == before;
    if i < n {
      KeptOrOverflows(parts[..n], budget, i);
    } else {
      assert (before + [parts[n]])[|before|] == parts[n];
    }
  }

  /** `xs` is `ys` with some elements left out. */
  predicate Subsequence<T(==)>(xs: seq<T>, ys: seq<T>)
    decreases |ys|
  {
    if ys == [] then xs == []
    else
      || Subsequence(xs, ys[..|ys| - 1])
      || (xs != [] && xs[|xs| - 1] == ys[|ys| - 1] && Subsequence(xs[..|xs| - 1], ys[..|ys| - 1]))
  }

  /** In order: what is kept is the offer with some parts left out. */
  lemma {:induction false} KeptInOrder(parts: seq<Field>, budget: nat)
    ensures Subsequence(Kept(parts, budget), parts)
    decreases |parts|
  {
    if parts != [] {
      var front, last := parts[..|parts| - 1], parts[|parts| - 1];
      KeptInOrder(front, budget);
      assert (Kept(front, budget) + [last])[..|Kept(front, budget)|] == Kept(front, budget);
    }
  }

  /** What is kept of the first `n + 1` parts, from what is kept of the first `n`. */
  lemma KeptIsGreedy(parts: seq<Field>, budget: nat, n: nat)
    requires n < |parts|
    ensures Kept(parts[..n + 1], budget) ==
              Kept(parts[..n], budget)
              + (if TotalSize(Kept(parts[..n], budget)) + parts[n].Size() <= budget then [parts[n]] else [])
  {
    assert parts[..n + 1][..n] == parts[..n];
  }

  /** `text` is the greedy packing of the first `n` parts. */
  predicate PackedUpTo(parts: seq<Field>, budget: nat, n: nat, text: string)
    requires n <= |parts|
  {
    AllEncodable(Kept(parts[..n], budget)) && text == Print(Kept(parts[..n], budget))
  }

  /** The text with one more part, if there is room. */
  function Grown(text: string, part: Field, budget: nat): string
    requires Encodable(part)
  {
    if |text| + part.Size() <= budget then text + PrintField(part) else text
  }

  lemma PackStep(parts: seq<Field>, budget: nat, n: nat, text: string)
    requires n < |parts| && Encodable(parts[n]) && PackedUpTo(parts, budget, n, text)
    ensures PackedUpTo(parts, budget, n + 1, Grown(text, parts[n], budget))
  {
    var kept := Kept(parts[..n], budget);
    KeptIsGreedy(parts, budget, n);
    PrintConcat(kept, [parts[n]]);
    PrintOne(parts[n]);
    PrintSize(kept);
    assert kept + [] == kept;
  }

  lemma PackedAll(parts: seq<Field>, budget: nat, text: string)
    requires PackedUpTo(parts, budget, |parts|, text)
    ensures AllEncodable(Kept(parts, budget)) && text == Print(Kept(parts, budget))
  {
    assert parts[..|parts|] == parts;
  }

  method PackOne(part: Field, budget: nat, text: string) returns (b: Built)
    requires TwoDigitTags([part])
    ensures b.TooLong? <==> |part.value| > MAX_VALUE
    ensures b.Text? ==> Encodable(part) && b.text == Grown(text, part, budget)
  {
    assert [part][0] == part;
    var piece := Tlv(part.tag, part.value);
    if piece.TooLong? { return TooLong; }
    var candidate := text + piece.text;
    b := Text(if |candidate| <= budget then candidate else text);
  }

  /** The packing loop: a candidate is formed with `tlv`, which fails on an overlong value, and
      adopted while it stays within the budget. */
  method Pack(parts: seq<Field>, budget: nat) returns (inner: Built)
    requires TwoDigitTags(parts)
    ensures AnyTooLong(parts) ==> inner == TooLong
    ensures !AnyTooLong(parts) ==>
              AllEncodable(Kept(parts, budget)) && inner == Text(Print(Kept(parts, budget)))
  {
    var text := "";
    for n := 0 to |parts|
      invariant forall i :: 0 <= i < n ==> |parts[i].value| <= MAX_VALUE
      invariant PackedUpTo(parts, budget, n, text)
    {
      var next := PackOne(parts[n], budget, text);
      if next.TooLong? { return TooLong; }
      PackStep(parts, budget, n, text);
      text := next.text;
    }
    PackedAll(parts, budget, text);
    inner := Text(text);
  }

  // ---------------------------------------------------------------------------
  // Numbers and bytes as text
  // ---------------------------------------------------------------------------

  function Decimal(n: nat): string {
    if n < 10 then [Digit(n)] else Decimal(n / 10) + [Digit(n % 10)]
  }

  /** The last `width` decimal digits of `n`, zero padded. */
  function LastDigits(n: nat, width: nat): (s: string)
    ensures |s| == width
    decreases width
  {
    if width == 0 then "" else LastDigits(n / 10, width - 1) + [Digit(n % 10)]
  }

  /** The last `width` binary digits of `n`. */
  function Binary(n: nat, width: nat): (bits: seq<bool>)
    ensures |bits| == width
    decreases width
  {
    if width == 0 then [] else Binary(n / 2, width - 1) + [n % 2 == 1]
  }

  function ByteOf(n: nat): Byte { Binary(n, 8) }

  function Bytes(v: seq<nat>): (bytes: seq<Byte>)
    ensures |bytes| == |v| && forall i :: 0 <= i < |v| ==> bytes[i] == ByteOf(v[i])
  {
    seq(|v|, i requires 0 <= i < |v| => ByteOf(v[i]))
  }

  /** One code point in UTF-8. */
  function Utf8Point(n: nat): seq<nat> {
    if n < 0x80 then [n]
    else if n < 0x800 then [0xC0 + n / 0x40, 0x80 + n % 0x40]
    else if n < 0x10000 then [0xE0 + n / 0x1000, 0x80 + n / 0x40 % 0x40, 0x80 + n % 0x40]
    else [0xF0 + n / 0x40000, 0x80 + n / 0x1000 % 0x40, 0x80 + n / 0x40 % 0x40, 0x80 + n % 0x40]
  }

  function Utf8(s: string): seq<Byte> {
    if s == [] then [] else Bytes(Utf8Point(s[0] as int)) + Utf8(s[1..])
  }

  /** The number that binary digits stand for. */
  function Value(bits: seq<bool>): (n: nat)
    ensures n < Pow2(|bits|)
  {
    if bits == [] then 0 else 2 * Value(bits[..|bits| - 1]) + (if bits[|bits| - 1] then 1 else 0)
  }

  function HexChar(n: nat): char
    requires n < 16
  {
    if n < 10 then (48 + n) as char else (55 + n) as char
  }

  function HexDigit(w: Word, at: nat): char
    requires at + 4 <= 16
  {
    assert Pow2(2) == 4 && Pow2(4) == 16;
    HexChar(Value(w[at..at + 4]))
  }

  /** Four upper-case hexadecimal digits. */
  function Hex4(w: Word): (s: string)
    ensures |s| == 4
  {
    [HexDigit(w, 0), HexDigit(w, 4), HexDigit(w, 8), HexDigit(w, 12)]
  }

  const ONES: seq<bool> :=
    [true, true, true, true, true, true, true, true, true, true, true, true, true, true, true, true]

  function Checksum(s: string): string { Hex4(Crc(ONES, Utf8(s))) }

  // ---------------------------------------------------------------------------
  // Assembly
  // ---------------------------------------------------------------------------

  /** What a builder is given. `amount` and `currencyIso` are already formatted; `ttl` is in
      seconds; `direct` is the router's plain account-to-account form. */
  datatype Request = Request(
    account: string, client: string, bill: string, reference: string,
    currencyIso: string, amount: string, name: string, now: nat, ttl: nat, direct: bool)

  function TerminalId(r: Request): string { LastDigits(r.now, 9) }

  /** The private sub-tags in priority order. */
  function PrivateParts(r: Request): seq<Field> {
    (if r.client != "" then [Field("00", "PAYWAY@ABA")] else [])
    + (if r.bill != "" then [Field("02", r.bill), Field("06", r.reference)] else [])
    + [Field("05", Decimal(r.now + r.ttl))]
    + (if r.client != "" then [Field("01", r.client)] else [])
    + [Field("03", TerminalId(r)), Field("04", Decimal(r.now))]
  }

  /** The sub-tags offered to Tag 62: the private block whole, then the plain copies. */
  function TemplateParts(r: Request, inner: string): seq<Field> {
    (if inner != "" then [Field("50", inner)] else [])
    + (if r.bill != "" then [Field("01", r.bill)] else [])
    + [Field("03", TerminalId(r))]
  }

  function AccountParts(r: Request): seq<Field> {
    [Field("00", "abaakhppxxx@abaa"), Field("01", r.account), Field("02", "ABA Bank")]
  }

  const VALIDITY_MS: nat := 30 * 24 * 60 * 60 * 1000

  function ValidityParts(r: Request): seq<Field> {
    [Field("00", Decimal(r.now * 1000)), Field("01", Decimal(r.now * 1000 + VALIDITY_MS))]
  }

  function FirstChars(s: string, n: nat): string { if |s| <= n then s else s[..n] }

  /** The body's fields, given the values of its templates. */
  function BodyFields(r: Request, t30: string, t62: string, t99: string): seq<Field> {
    [Field("00", "01"), Field("01", "12"), Field("30", t30), Field("52", "8999"), Field("53", r.currencyIso),
     Field("54", r.amount), Field("58", "KH"), Field("59", FirstChars(r.name, MAX_VALUE)), Field("60", "N/A")]
    + (if t62 != "" then [Field("62", t62)] else [])
    + (if r.direct then [] else [Field("99", t99)])
  }

  lemma TagsAreDigits(r: Request, inner: string, t30: string, t62: string, t99: string)
    ensures TwoDigitTags(PrivateParts(r)) && TwoDigitTags(TemplateParts(r, inner)) && TwoDigitTags(AccountParts(r))
    ensures TwoDigitTags(ValidityParts(r)) && TwoDigitTags(BodyFields(r, t30, t62, t99))
  {}

  lemma NotTooLongIsEncodable(fs: seq<Field>)
    requires TwoDigitTags(fs) && !AnyTooLong(fs)
    ensures AllEncodable(fs)
  {}

  /** The packed text, where every offered value can be measured. */
  function Packed(parts: seq<Field>, budget: nat): string
    requires TwoDigitTags(parts) && !AnyTooLong(parts)
  {
    KeptEncodable(parts, budget);
    Print(Kept(parts, budget))
  }

  function Joined(parts: seq<Field>): string
    requires TwoDigitTags(parts) && !AnyTooLong(parts)
  {
    NotTooLongIsEncodable(parts);
    Print(parts)
  }

  /** The value of Tag 62.50, packed under the builder's own budget. */
  function PrivateBlock(r: Request, budget: nat): Option<string> {
    TagsAreDigits(r, "", "", "", "");
    if r.direct then Some("")
    else if AnyTooLong(PrivateParts(r)) then None
    else Some(Packed(PrivateParts(r), budget))
  }

  /** The value of Tag 62. */
  function Template(r: Request, inner: string): Option<string> {
    TagsAreDigits(r, inner, "", "", "");
    if AnyTooLong(TemplateParts(r, inner)) then None else Some(Packed(TemplateParts(r, inner), MAX_VALUE))
  }

  /** The value of Tag 30. */
  function AccountTemplate(r: Request): Option<string> {
    TagsAreDigits(r, "", "", "", "");
    if AnyTooLong(AccountParts(r)) then None else Some(Joined(AccountParts(r)))
  }

  /** The value of Tag 99. */
  function ValidityTemplate(r: Request): Option<string> {
    TagsAreDigits(r, "", "", "", "");
    if r.direct then Some("")
    else if AnyTooLong(ValidityParts(r)) then None
    else Some(Joined(ValidityParts(r)))
  }

  /** All fields before the CRC, or nothing when some value is too long. */
  function Fields(r: Request, budget: nat): Option<seq<Field>> {
    var inner := PrivateBlock(r, budget);
    if inner.None? then None else
    var t62 := Template(r, inner.value);
    if t62.None? then None else
    var t30 := AccountTemplate(r);
    if t30.None? then None else
    var t99 := ValidityTemplate(r);
    if t99.None? then None else
    Some(BodyFields(r, t30.value, t62.value, t99.value))
  }

  function Sealed(body: string): string { body + "6304" + Checksum(body + "6304") }

  /** The payload, as `build_khqr_payload` (budget 99) and `khqr_from_link` (budget 95) define it. */
  function Payload(r: Request, budget: nat): Built {
    var fs := Fields(r, budget);
    if fs.None? || AnyTooLong(fs.value) then TooLong
    else
      FieldsHaveDigitTags(r, budget);
      Text(Sealed(Joined(fs.value)))
  }

  lemma FieldsHaveDigitTags(r: Request, budget: nat)
    ensures Fields(r, budget).Some? ==> TwoDigitTags(Fields(r, budget).value)
  {}

  const SERVICE_BUDGET: nat := 99
  const ROUTER_BUDGET: nat := 95

  // ---------------------------------------------------------------------------
  // The builders as they work
  // ---------------------------------------------------------------------------

  /** `tlv(..) + tlv(..) + ..` */
  method Join(parts: seq<Field>) returns (b: Built)
    requires TwoDigitTags(parts)
    ensures AnyTooLong(parts) ==> b == TooLong
    ensures !AnyTooLong(parts) ==> b == Text(Joined(parts))
  {
    var text := "";
    for n := 0 to |parts|
      invariant forall i :: 0 <= i < n ==> |parts[i].value| <= MAX_VALUE
      invariant AllEncodable(parts[..n]) && text == Print(parts[..n])
    {
      var part := parts[n];
      var piece := Tlv(part.tag, part.value);
      if piece.TooLong? { return TooLong; }
      assert piece.text == PrintField(part);
      JoinStep(parts, n);
      text := text + piece.text;
    }
    assert parts[..|parts|] == parts;
    b := Text(text);
  }

  lemma JoinStep(parts: seq<Field>, n: nat)
    requires n < |parts| && AllEncodable(parts[..n]) && Encodable(parts[n])
    ensures AllEncodable(parts[..n + 1]) && Print(parts[..n + 1]) == Print(parts[..n]) + PrintField(parts[n])
  {
    assert parts[..n + 1] == parts[..n] + [parts[n]];
    PrintConcat(parts[..n], [parts[n]]);
    PrintOne(parts[n]);
  }

  method BuildPrivateBlock(r: Request, budget: nat) returns (inner: Option<string>)
    ensures inner == PrivateBlock(r, budget)
  {
    if r.direct { return Some(""); }
    TagsAreDigits(r, "", "", "", "");
    var b := Pack(PrivateParts(r), budget);
    inner := if b.TooLong? then None else Some(b.text);
  }

  method BuildTemplate(r: Request, inner: string) returns (t62: Option<string>)
    ensures t62 == Template(r, inner)
  {
    TagsAreDigits(r, inner, "", "", "");
    var b := Pack(TemplateParts(r, inner), MAX_VALUE);
    t62 := if b.TooLong? then None else Some(b.text);
  }

  method BuildAccountTemplate(r: Request) returns (t30: Option<string>)
    ensures t30 == AccountTemplate(r)
  {
    TagsAreDigits(r, "", "", "", "");
    var b := Join(AccountParts(r));
    t30 := if b.TooLong? then None else Some(b.text);
  }

  method BuildValidityTemplate(r: Request) returns (t99: Option<string>)
    ensures t99 == ValidityTemplate(r)
  {
    if r.direct { return Some(""); }
    TagsAreDigits(r, "", "", "", "");
    var b := Join(ValidityParts(r));
    t99 := if b.TooLong? then None else Some(b.text);
  }

  /** The templates and the body's fields, in the order both builders form them. */
  method BuildFields(r: Request, budget: nat) returns (fs: Option<seq<Field>>)
    ensures fs == Fields(r, budget)
  {
    var t30 := BuildAccountTemplate(r);
    if t30.None? { return None; }
    var inner := BuildPrivateBlock(r, budget);
    if inner.None? { return None; }
    var t62 := BuildTemplate(r, inner.value);
    if t62.None? { return None; }
    var t99 := BuildValidityTemplate(r);
    if t99.None? { return None; }
    fs := Some(BodyFields(r, t30.value, t62.value, t99.value));
  }

  /** `build_khqr_payload` and the assembly in `khqr_from_link`. */
  method BuildPayload(r: Request, budget: nat) returns (b: Built)
    ensures b == Payload(r, budget)
  {
    var fields := BuildFields(r, budget);
    if fields.None? { return TooLong; }
    FieldsHaveDigitTags(r, budget);
    var body := Join(fields.value);
    if body.TooLong? { return TooLong; }
    var crc := Crc16(Utf8(body.text + "6304"), ONES);
    b := Text(body.text + "6304" + Hex4(crc));
  }

  // ---------------------------------------------------------------------------
  // Every built payload parses
  // ---------------------------------------------------------------------------

  /** The last four characters are the CRC of everything before them. */
  predicate CrcOk(p: string) { |p| >= 4 && p[|p| - 4..] == Checksum(p[..|p| - 4]) }

  lemma SealedIsOk(body: string)
    ensures CrcOk(Sealed(body)) && Sealed(body)[|Sealed(body)| - 4..] == Checksum(body + "6304")
  {
    var p := Sealed(body);
    assert p[..|p| - 4] == body + "6304";
  }

  lemma CrcField(fs: seq<Field>, check: string)
    requires AllEncodable(fs) && |check| == 4
    ensures Parse(Print(fs) + "6304" + check) == fs + [Field("63", check)]
  {
    var last := Field("63", check);
    assert TwoDigits(4) == "04";
    assert PrintField(last) == "6304" + check;
    Regroup(Print(fs), "6304", check);
    RoundTrip(fs, PrintField(last));
    FieldRoundTrip(last, "");
    assert PrintField(last) + "" == PrintField(last) && Parse("") == [];
  }

  /** Every payload built parses to its fields in order, closed by a CRC field that covers all the
      characters before its own value. */
  lemma PayloadParses(r: Request, budget: nat)
    requires Payload(r, budget).Text?
    ensures var p := Payload(r, budget).text;
            && Fields(r, budget).Some?
            && |p| >= 4 && Parse(p) == Fields(r, budget).value + [Field("63", p[|p| - 4..])]
            && CrcOk(p)
  {
    var fs := Fields(r, budget).value;
    FieldsHaveDigitTags(r, budget);
    NotTooLongIsEncodable(fs);
    CrcField(fs, Checksum(Print(fs) + "6304"));
    SealedIsOk(Print(fs));
  }

  /** The three nesting levels: Tag 62 parses to the sub-tags it kept, and the private block to the
      parts it kept. */
  lemma NestedTemplatesParse(r: Request, budget: nat)
    requires Fields(r, budget).Some?
    ensures PrivateBlock(r, budget).Some? && Template(r, PrivateBlock(r, budget).value).Some?
    ensures var inner := PrivateBlock(r, budget).value;
            && Parse(Template(r, inner).value) == Kept(TemplateParts(r, inner), MAX_VALUE)
            && (!r.direct ==> Parse(inner) == Kept(PrivateParts(r), budget))
  {
    var inner := PrivateBlock(r, budget).value;
    TagsAreDigits(r, inner, "", "", "");
    KeptEncodable(TemplateParts(r, inner), MAX_VALUE);
    ParsePrint(Kept(TemplateParts(r, inner), MAX_VALUE));
    if !r.direct {
      KeptEncodable(PrivateParts(r), budget);
      ParsePrint(Kept(PrivateParts(r), budget));
    }
  }

  // ---------------------------------------------------------------------------
  // What reaches the payload
  // ---------------------------------------------------------------------------

  /** Tag 62 is at most 99 characters, and it holds the private block whole exactly when the block is
      not empty and at most 95 characters long; otherwise it holds no Tag 50 at all. */
  lemma PrivateBlockWholeOrAbsent(r: Request, inner: string)
    requires Template(r, inner).Some?
    ensures |Template(r, inner).value| <= MAX_VALUE
    ensures Field("50", inner) in Kept(TemplateParts(r, inner), MAX_VALUE) <==> inner != "" && |inner| <= 95
    ensures forall f :: f in Kept(TemplateParts(r, inner), MAX_VALUE) && f.tag == "50" ==>
            f.value == inner && |inner| <= 95
  {
    var parts := TemplateParts(r, inner);
    TagsAreDigits(r, inner, "", "", "");
    KeptEncodable(parts, MAX_VALUE);
    KeptFits(parts, MAX_VALUE);
    PrintSize(Kept(parts, MAX_VALUE));
    TemplateOrder(r, inner);
    if inner != "" {
      FirstKept(parts, MAX_VALUE);
    } else {
      KeptTail(parts, MAX_VALUE);
    }
  }

  lemma TemplateOrder(r: Request, inner: string)
    ensures inner != "" ==> TemplateParts(r, inner)[0] == Field("50", inner)
    ensures forall k :: (if inner != "" then 1 else 0) <= k < |TemplateParts(r, inner)| ==>
            TemplateParts(r, inner)[k].tag != "50"
  {
    assert "50" != "01" && "50" != "03" by { assert "50"[0] == '5' && "01"[0] == '0' && "03"[0] == '0'; }
  }

  /** A first part whose tag comes back nowhere is kept exactly when it fits an empty block. */
  lemma {:induction false} FirstKept(parts: seq<Field>, budget: nat)
    requires parts != [] && forall k :: 1 <= k < |parts| ==> parts[k].tag != parts[0].tag
    ensures parts[0] in Kept(parts, budget) <==> parts[0].Size() <= budget
    ensures forall f :: f in Kept(parts, budget) && f.tag == parts[0].tag ==> f == parts[0] && f.Size() <= budget
    decreases |parts|
  {
    var m := |parts| - 1;
    if m == 0 {
      assert Kept(parts[..0], budget) == [];
    } else {
      FirstKept(parts[..m], budget);
    }
  }

  /** Nothing is invented: what is kept was offered. */
  lemma {:induction false} KeptTail(parts: seq<Field>, budget: nat)
    ensures forall f :: f in Kept(parts, budget) ==> f in parts
    decreases |parts|
  {
    if parts != [] { KeptTail(parts[..|parts| - 1], budget); }
  }

  /** Under the router's budget every packed private sub-tag reaches the payload. */
  lemma RouterBlockReachesPayload(r: Request)
    requires Fields(r, ROUTER_BUDGET).Some? && !r.direct
    ensures var inner := PrivateBlock(r, ROUTER_BUDGET).value;
            && Parse(inner) == Kept(PrivateParts(r), ROUTER_BUDGET)
            && (inner != "" ==> Field("50", inner) in Parse(Template(r, inner).value))
  {
    var inner := PrivateBlock(r, ROUTER_BUDGET).value;
    NestedTemplatesParse(r, ROUTER_BUDGET);
    TagsAreDigits(r, inner, "", "", "");
    KeptEncodable(PrivateParts(r), ROUTER_BUDGET);
    KeptFits(PrivateParts(r), ROUTER_BUDGET);
    PrintSize(Kept(PrivateParts(r), ROUTER_BUDGET));
    PrivateBlockWholeOrAbsent(r, inner);
  }
}
