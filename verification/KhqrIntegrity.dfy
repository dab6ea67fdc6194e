/** What a wallet, a reader and an operator can rely on in a finished payload. */
module KhqrIntegrity {
  import opened Common
  import opened KhqrTlv
  import opened KhqrCrc
  import opened KhqrPayload
  import opened KhqrLookup

  // ---------------------------------------------------------------------------
  // The check characters
  // ---------------------------------------------------------------------------

  /** What an upper-case hexadecimal digit stands for. */
  function HexValue(c: char): int {
    if '0' <= c <= '9' then c as int - '0' as int else if 'A' <= c <= 'F' then c as int - 'A' as int + 10 else -1
  }

  lemma ValueMore(s: seq<bool>, bit: bool)
    ensures Value(s + [bit]) == 2 * Value(s) + if bit then 1 else 0
  {
    assert (s + [bit])[..|s|] == s;
  }

  lemma ValueFourMore(s: seq<bool>, a: bool, b: bool, c: bool, d: bool)
    ensures Value(s + [a] + [b] + [c] + [d]) == 16 * Value(s) + Value([] + [a] + [b] + [c] + [d])
  {
    ValueMore(s, a);
    ValueMore(s + [a], b);
    ValueMore(s + [a] + [b], c);
    ValueMore(s + [a] + [b] + [c], d);
    ValueMore([], a);
    ValueMore([] + [a], b);
    ValueMore([] + [a] + [b], c);
    ValueMore([] + [a] + [b] + [c], d);
  }

  lemma ValueWithQuarter(s: seq<bool>, q: seq<bool>)
    requires |q| == 4
    ensures Value(s + q) == 16 * Value(s) + Value(q)
  {
    assert q == [] + [q[0]] + [q[1]] + [q[2]] + [q[3]];
    assert s + q == s + [q[0]] + [q[1]] + [q[2]] + [q[3]];
    ValueFourMore(s, q[0], q[1], q[2], q[3]);
  }

  lemma ValueOfQuarters(a: seq<bool>, b: seq<bool>, c: seq<bool>, d: seq<bool>)
    requires |a| == 4 && |b| == 4 && |c| == 4 && |d| == 4
    ensures Value(a + b + c + d) == 4096 * Value(a) + 256 * Value(b) + 16 * Value(c) + Value(d)
  {
    ValueWithQuarter(a + b + c, d);
    ValueWithQuarter(a + b, c);
    ValueWithQuarter(a, b);
  }

  lemma HexDigitWrites(w: Word, at: nat)
    requires at + 4 <= 16
    ensures HexValue(HexDigit(w, at)) == Value(w[at..at + 4])
  {
    assert Pow2(2) == 4 && Pow2(4) == 16;
  }

  lemma ValueInQuarters(w: Word)
    ensures Value(w) ==
              4096 * Value(w[0..4]) + 256 * Value(w[4..8]) + 16 * Value(w[8..12]) + Value(w[12..16])
  {
    FromQuarters(w);
    ValueOfQuarters(w[0..4], w[4..8], w[8..12], w[12..16]);
  }

  /** The number four hexadecimal digits write. */
  function HexNumber(h: string): int
    requires |h| == 4
  {
    4096 * HexValue(h[0]) + 256 * HexValue(h[1]) + 16 * HexValue(h[2]) + HexValue(h[3])
  }

  /** Four characters are hexadecimal digits that write the four quarters of a word. */
  predicate WritesQuarters(h: string, w: Word) {
    && |h| == 4 && HexValue(h[0]) == Value(w[0..4]) && HexValue(h[1]) == Value(w[4..8])
    && HexValue(h[2]) == Value(w[8..12]) && HexValue(h[3]) == Value(w[12..16])
  }

  lemma Hex4WritesQuarters(w: Word)
    ensures WritesQuarters(Hex4(w), w)
  {
    HexDigitWrites(w, 0);
    HexDigitWrites(w, 4);
    HexDigitWrites(w, 8);
    HexDigitWrites(w, 12);
  }

  lemma HexNumberIs(h: string, a: nat, b: nat, c: nat, d: nat)
    requires |h| == 4
    requires HexValue(h[0]) == a && HexValue(h[1]) == b && HexValue(h[2]) == c && HexValue(h[3]) == d
    ensures HexNumber(h) == 4096 * a + 256 * b + 16 * c + d
    ensures forall i :: 0 <= i < 4 ==> HexValue(h[i]) >= 0
  {}

  lemma QuartersWrite(h: string, w: Word)
    requires WritesQuarters(h, w)
    ensures HexNumber(h) == Value(w)
    ensures forall i :: 0 <= i < 4 ==> HexValue(h[i]) >= 0
  {
    ValueInQuarters(w);
    HexNumberIs(h, Value(w[0..4]), Value(w[4..8]), Value(w[8..12]), Value(w[12..16]));
  }

  /** The four check characters write the check word in upper-case hexadecimal. */
  lemma HexWrites(w: Word)
    ensures HexNumber(Hex4(w)) == Value(w)
    ensures forall i :: 0 <= i < 4 ==> HexValue(Hex4(w)[i]) >= 0
  {
    Hex4WritesQuarters(w);
    QuartersWrite(Hex4(w), w);
  }

  lemma {:induction false} BinaryWrites(n: nat, width: nat)
    requires n < Pow2(width)
    ensures Value(Binary(n, width)) == n
    decreases width
  {
    if width > 0 {
      BinaryWrites(n / 2, width - 1);
      assert Binary(n, width)[..width - 1] == Binary(n / 2, width - 1);
    }
  }

  /** A payload's check characters write, in hexadecimal, the remainder that section 4.7.3 asks for:
      of its bytes before them, from an initial value of sixteen ones. */
  lemma ChecksumWritesRemainder(s: string)
    ensures var h := Checksum(s);
            && |h| == 4 && (forall i :: 0 <= i < 4 ==> HexValue(h[i]) >= 0)
            && HexNumber(h) == Value(Remainder(Dividend(seq(16, _ => true), Bits(Utf8(s)))))
  {
    SameBits(ONES, seq(16, _ => true));
    CrcIsRemainder(ONES, Utf8(s));
    HexWrites(Crc(ONES, Utf8(s)));
  }

  // ---------------------------------------------------------------------------
  // Corruption is detected
  // ---------------------------------------------------------------------------

  lemma {:induction false} ValueInjective(a: seq<bool>, b: seq<bool>)
    requires |a| == |b| && Value(a) == Value(b)
    ensures a == b
    decreases |a|
  {
    if a != [] {
      var n := |a| - 1;
      ValueInjective(a[..n], b[..n]);
      assert a == a[..n] + [a[n]] && b == b[..n] + [b[n]];
    }
  }

  lemma HexDigitInjective(v: Word, w: Word, at: nat)
    requires at + 4 <= 16 && HexDigit(v, at) == HexDigit(w, at)
    ensures v[at..at + 4] == w[at..at + 4]
  {
    ValueInjective(v[at..at + 4], w[at..at + 4]);
  }

  lemma HexInjective(v: Word, w: Word)
    requires Hex4(v) == Hex4(w)
    ensures v == w
  {
    assert Hex4(v)[0] == Hex4(w)[0] && Hex4(v)[1] == Hex4(w)[1] && Hex4(v)[2] == Hex4(w)[2] && Hex4(v)[3] == Hex4(w)[3];
    HexDigitInjective(v, w, 0);
    HexDigitInjective(v, w, 4);
    HexDigitInjective(v, w, 8);
    HexDigitInjective(v, w, 12);
    FromQuarters(v);
    FromQuarters(w);
  }

  lemma FromQuarters(w: Word)
    ensures w == w[0..4] + w[4..8] + w[8..12] + w[12..16]
  {}

  /** Different check words print different check characters. */
  lemma ChecksumsDiffer(a: string, b: string)
    requires Crc(ONES, Utf8(a)) != Crc(ONES, Utf8(b))
    ensures Checksum(a) != Checksum(b)
  {
    if Checksum(a) == Checksum(b) { HexInjective(Crc(ONES, Utf8(a)), Crc(ONES, Utf8(b))); }
  }

  /** A text whose bytes differ from a sealed payload's by one burst of at most sixteen bits, under
      the same four check characters, does not pass the check. */
  lemma CorruptionDetected(p: string, q: string, k: nat)
    requires CrcOk(p) && |q| >= 4 && q[|q| - 4..] == p[|p| - 4..]
    requires var m, n := Utf8(p[..|p| - 4]), Utf8(q[..|q| - 4]);
             && |m| == |n| && m != n
             && forall i :: 0 <= i < 8 * |m| && Bits(m)[i] != Bits(n)[i] ==> k <= i < k + 16
    ensures !CrcOk(q)
  {
    var m, n := Utf8(p[..|p| - 4]), Utf8(q[..|q| - 4]);
    BurstDetected(ONES, m, n, k);
    ChecksumsDiffer(p[..|p| - 4], q[..|q| - 4]);
  }

  predicate Ascii(s: string) { forall i :: 0 <= i < |s| ==> s[i] as int < 0x80 }

  lemma {:induction false} AsciiBytes(s: string)
    requires Ascii(s)
    ensures |Utf8(s)| == |s| && forall i :: 0 <= i < |s| ==> Utf8(s)[i] == ByteOf(s[i] as int)
    decreases |s|
  {
    if s != [] { AsciiBytes(s[1..]); }
  }

  lemma {:induction false} BinaryInjective(a: nat, b: nat, w: nat)
    requires a < Pow2(w) && b < Pow2(w) && Binary(a, w) == Binary(b, w)
    ensures a == b
    decreases w
  {
    if w > 0 {
      assert Binary(a, w)[w - 1] == Binary(b, w)[w - 1];
      assert Binary(a, w)[..w - 1] == Binary(a / 2, w - 1) && Binary(b, w)[..w - 1] == Binary(b / 2, w - 1);
      BinaryInjective(a / 2, b / 2, w - 1);
    }
  }

  lemma AsciiDiffers(a: string, b: string, i: nat)
    requires Ascii(a) && Ascii(b) && |a| == |b| && i < |a| && a[i] != b[i]
    ensures Utf8(a) != Utf8(b)
  {
    AsciiBytes(a);
    AsciiBytes(b);
    if Utf8(a) == Utf8(b) {
      assert ByteOf(a[i] as int) == ByteOf(b[i] as int);
      assert Pow2(4) == 16;
      assert Pow2(8) == 256;
      BinaryInjective(a[i] as int, b[i] as int, 8);
    }
  }

  /** Changing one character, or two adjacent ones, of an ASCII payload is always noticed. */
  lemma AdjacentCharactersDetected(p: string, q: string, at: nat, i: nat)
    requires CrcOk(p) && |q| == |p| && q[|q| - 4..] == p[|p| - 4..]
    requires Ascii(p[..|p| - 4]) && Ascii(q[..|q| - 4]) && i < |p| - 4 && p[i] != q[i]
    requires forall j :: 0 <= j < |p| - 4 && j != at && j != at + 1 ==> p[j] == q[j]
    ensures !CrcOk(q)
  {
    var a, b := p[..|p| - 4], q[..|q| - 4];
    AsciiDiffers(a, b, i);
    AsciiBytes(a);
    AsciiBytes(b);
    TwoByteErrorDetected(ONES, Utf8(a), Utf8(b), at);
    ChecksumsDiffer(a, b);
  }

  // ---------------------------------------------------------------------------
  // The private block of an ordinary payment
  // ---------------------------------------------------------------------------

  lemma {:induction false} DecimalLength(n: nat, d: nat)
    requires d >= 1 && n < Pow10(d) && (d == 1 || Pow10(d - 1) <= n)
    ensures |Decimal(n)| == d
    decreases d
  {
    if d > 1 {
      assert Pow10(d) == 10 * Pow10(d - 1) && Pow10(d - 1) == 10 * Pow10(d - 2);
      assert Pow10(0) == 1;
      DecimalLength(n / 10, d - 1);
    }
  }

  lemma TenDigits(n: nat)
    requires 1_000_000_000 <= n < 10_000_000_000
    ensures |Decimal(n)| == 10
  {
    assert Pow10(3) == 1000;
    assert Pow10(6) == 1_000_000;
    assert Pow10(9) == 1_000_000_000;
    assert Pow10(10) == 10_000_000_000;
    DecimalLength(n, 10);
  }

  /** A request as the payment service makes it: a 24-character bill that is its own reference, epoch
      seconds of ten digits, and a PayWay client id of the usual length or none. */
  predicate Ordinary(r: Request) {
    && |r.bill| == 24 && r.reference == r.bill && !r.direct
    && (r.client == "" || 12 <= |r.client| <= 99)
    && 1_000_000_000 <= r.now && r.now + r.ttl < 10_000_000_000
  }

  /** Sizes of the offers of an ordinary request. */
  lemma OrdinarySizes(r: Request)
    requires Ordinary(r)
    ensures var s := PrivateParts(r);
            if r.client == "" then
              && |s| == 5 && s[0].Size() == 28 && s[1].Size() == 28 && s[2].Size() == 14
              && s[3].Size() == 13 && s[4].Size() == 14
            else
              && |s| == 7 && s[0].Size() == 14 && s[1].Size() == 28 && s[2].Size() == 28 && s[3].Size() == 14
              && s[4].Size() >= 16 && s[5].Size() == 13 && s[6].Size() == 14
  {
    TenDigits(r.now);
    TenDigits(r.now + r.ttl);
  }

  lemma KeptSize(parts: seq<Field>, budget: nat, n: nat, used: nat)
    requires n < |parts| && TotalSize(Kept(parts[..n], budget)) == used
    ensures TotalSize(Kept(parts[..n + 1], budget)) ==
              if used + parts[n].Size() <= budget then used + parts[n].Size() else used
  {
    KeptIsGreedy(parts, budget, n);
    var kept := Kept(parts[..n], budget);
    assert (kept + [parts[n]])[..|kept|] == kept && kept + [] == kept;
  }

  lemma BlockWithoutClient(s: seq<Field>)
    requires |s| == 5 && s[0].Size() == 28 && s[1].Size() == 28 && s[2].Size() == 14 && s[3].Size() == 13
    requires s[4].Size() == 14
    ensures TotalSize(Kept(s, SERVICE_BUDGET)) == 97
  {
    assert s[..0] == [] && s[..5] == s;
    KeptSize(s, SERVICE_BUDGET, 0, 0);
    KeptSize(s, SERVICE_BUDGET, 1, 28);
    KeptSize(s, SERVICE_BUDGET, 2, 56);
    KeptSize(s, SERVICE_BUDGET, 3, 70);
    KeptSize(s, SERVICE_BUDGET, 4, 83);
  }

  lemma BlockWithClient(s: seq<Field>)
    requires |s| == 7 && s[0].Size() == 14 && s[1].Size() == 28 && s[2].Size() == 28 && s[3].Size() == 14
    requires s[4].Size() >= 16 && s[5].Size() == 13 && s[6].Size() == 14
    ensures TotalSize(Kept(s, SERVICE_BUDGET)) == 97
  {
    assert s[..0] == [] && s[..7] == s;
    KeptSize(s, SERVICE_BUDGET, 0, 0);
    KeptSize(s, SERVICE_BUDGET, 1, 14);
    KeptSize(s, SERVICE_BUDGET, 2, 42);
    KeptSize(s, SERVICE_BUDGET, 3, 70);
    KeptSize(s, SERVICE_BUDGET, 4, 84);
    KeptSize(s, SERVICE_BUDGET, 5, 84);
    KeptSize(s, SERVICE_BUDGET, 6, 97);
  }

  lemma OrdinaryBlockSize(r: Request)
    requires Ordinary(r)
    ensures TotalSize(Kept(PrivateParts(r), SERVICE_BUDGET)) == 97
  {
    OrdinarySizes(r);
    if r.client == "" { BlockWithoutClient(PrivateParts(r)); } else { BlockWithClient(PrivateParts(r)); }
  }

  /** For every ordinary request the service's budget of 99 packs a block of 97 characters, which Tag
      62 cannot hold: the finished payload carries no private block at all. */
  lemma OrdinaryPaymentLosesItsPrivateBlock(r: Request)
    requires Ordinary(r) && Fields(r, SERVICE_BUDGET).Some?
    ensures PrivateBlock(r, SERVICE_BUDGET).Some? && Template(r, PrivateBlock(r, SERVICE_BUDGET).value).Some?
    ensures var inner := PrivateBlock(r, SERVICE_BUDGET).value;
            && |inner| == 97
            && forall f :: f in Parse(Template(r, inner).value) ==> f.tag != "50"
  {
    NestedTemplatesParse(r, SERVICE_BUDGET);
    var inner := PrivateBlock(r, SERVICE_BUDGET).value;
    OrdinaryBlockSize(r);
    TagsAreDigits(r, "", "", "", "");
    KeptEncodable(PrivateParts(r), SERVICE_BUDGET);
    PrintSize(Kept(PrivateParts(r), SERVICE_BUDGET));
    PrivateBlockWholeOrAbsent(r, inner);
  }

  /** How full a greedy pass over parts of these sizes gets. */
  function Fill(sizes: seq<nat>, budget: nat): nat {
    if sizes == [] then 0
    else
      var before := Fill(sizes[..|sizes| - 1], budget);
      if before + sizes[|sizes| - 1] <= budget then before + sizes[|sizes| - 1] else before
  }

  function Sizes(parts: seq<Field>): seq<nat> { seq(|parts|, i requires 0 <= i < |parts| => parts[i].Size()) }

  lemma {:induction false} KeptIsFill(parts: seq<Field>, budget: nat)
    ensures TotalSize(Kept(parts, budget)) == Fill(Sizes(parts), budget)
    decreases |parts|
  {
    if parts != [] {
      var n := |parts| - 1;
      KeptIsFill(parts[..n], budget);
      assert Sizes(parts)[..n] == Sizes(parts[..n]);
      var before := Kept(parts[..n], budget);
      assert (before + [parts[n]])[..|before|] == before;
    }
  }

  /** The sizes of the private sub-tags at a ten-digit instant, from the lengths of the request. */
  function PrivateSizes(r: Request): seq<nat> {
    (if r.client != "" then [14] else [])
    + (if r.bill != "" then [4 + |r.bill|, 4 + |r.reference|] else [])
    + [14]
    + (if r.client != "" then [4 + |r.client|] else [])
    + [13, 14]
  }

  lemma SizesConcat(a: seq<Field>, b: seq<Field>)
    ensures Sizes(a + b) == Sizes(a) + Sizes(b)
  {}

  lemma SizesFive(a: seq<Field>, b: seq<Field>, c: seq<Field>, d: seq<Field>, e: seq<Field>)
    ensures Sizes(a + b + c + d + e) == Sizes(a) + Sizes(b) + Sizes(c) + Sizes(d) + Sizes(e)
  {
    SizesConcat(a + b + c + d, e);
    SizesConcat(a + b + c, d);
    SizesConcat(a + b, c);
    SizesConcat(a, b);
  }

  lemma SizesOffered(c: bool, fs: seq<Field>)
    ensures Sizes(Offered(c, fs)) == if c then Sizes(fs) else []
  {}

  lemma SizesOne(f: Field)
    ensures Sizes([f]) == [f.Size()]
  {}

  lemma SizesTwo(f: Field, g: Field)
    ensures Sizes([f, g]) == [f.Size(), g.Size()]
  {}

  lemma PrivateSizesAre(r: Request)
    requires 1_000_000_000 <= r.now && r.now + r.ttl < 10_000_000_000
    ensures Sizes(PrivateParts(r)) == PrivateSizes(r)
  {
    TenDigits(r.now);
    TenDigits(r.now + r.ttl);
    var name, bill, client := Field("00", "PAYWAY@ABA"), Field("02", r.bill), Field("01", r.client);
    var reference, expiry := Field("06", r.reference), Field("05", Decimal(r.now + r.ttl));
    var terminal, issued := Field("03", TerminalId(r)), Field("04", Decimal(r.now));
    PrivatePartsOffered(r);
    SizesFive(Offered(r.client != "", [name]), Offered(r.bill != "", [bill, reference]), [expiry],
              Offered(r.client != "", [client]), [terminal, issued]);
    SizesOffered(r.client != "", [name]);
    SizesOffered(r.bill != "", [bill, reference]);
    SizesOffered(r.client != "", [client]);
    SizesOne(name);
    SizesOne(client);
    SizesOne(expiry);
    SizesTwo(bill, reference);
    SizesTwo(terminal, issued);
  }

  lemma BlockSizeIsFill(r: Request, budget: nat)
    requires PrivateBlock(r, budget).Some? && !r.direct
    requires 1_000_000_000 <= r.now && r.now + r.ttl < 10_000_000_000
    ensures |PrivateBlock(r, budget).value| == Fill(PrivateSizes(r), budget)
  {
    TagsAreDigits(r, "", "", "", "");
    KeptEncodable(PrivateParts(r), budget);
    PrintSize(Kept(PrivateParts(r), budget));
    KeptIsFill(PrivateParts(r), budget);
    PrivateSizesAre(r);
  }

  lemma {:induction false} FillIsPositive(sizes: seq<nat>, budget: nat)
    requires sizes != [] && 0 < sizes[|sizes| - 1] <= budget
    ensures Fill(sizes, budget) > 0
  {}

  lemma PrivateFillIsPositive(r: Request, budget: nat)
    requires budget >= 14
    ensures Fill(PrivateSizes(r), budget) > 0
  {
    var sizes := PrivateSizes(r);
    assert sizes[|sizes| - 1] == 14;
    FillIsPositive(sizes, budget);
  }

  lemma BlockReaches(r: Request, budget: nat, size: nat)
    requires Fields(r, budget).Some? && !r.direct
    requires PrivateBlock(r, budget).Some? && |PrivateBlock(r, budget).value| == size > 0
    ensures Template(r, PrivateBlock(r, budget).value).Some?
    ensures var inner := PrivateBlock(r, budget).value;
            Field("50", inner) in Parse(Template(r, inner).value) <==> size <= 95
  {
    NestedTemplatesParse(r, budget);
    PrivateBlockWholeOrAbsent(r, PrivateBlock(r, budget).value);
  }

  /** Whether a payload carries its private block can be told from the lengths of the bill, the
      reference and the client id: it does exactly when the greedy fill of their sizes is at most 95. */
  lemma PrivateBlockReachesExactlyWhen(r: Request, budget: nat)
    requires Fields(r, budget).Some? && !r.direct && budget >= 14
    requires 1_000_000_000 <= r.now && r.now + r.ttl < 10_000_000_000
    ensures PrivateBlock(r, budget).Some? && Template(r, PrivateBlock(r, budget).value).Some?
    ensures var inner := PrivateBlock(r, budget).value;
            Field("50", inner) in Parse(Template(r, inner).value) <==> Fill(PrivateSizes(r), budget) <= 95
  {
    BlockSizeIsFill(r, budget);
    PrivateFillIsPositive(r, budget);
    BlockReaches(r, budget, Fill(PrivateSizes(r), budget));
  }

  // ---------------------------------------------------------------------------
  // When a payload can be built
  // ---------------------------------------------------------------------------

  lemma {:induction false} DecimalAtMost(n: nat, d: nat)
    requires d >= 1 && n < Pow10(d)
    ensures |Decimal(n)| <= d
    decreases d
  {
    if n >= 10 {
      assert Pow10(d) == 10 * Pow10(d - 1) && Pow10(0) == 1;
      DecimalAtMost(n / 10, d - 1);
    }
  }

  /** Epoch seconds of at most ten digits stay short, also in milliseconds and with the validity. */
  lemma TimesAreShort(r: Request)
    requires r.now + r.ttl < 10_000_000_000
    ensures |Decimal(r.now)| <= 14 && |Decimal(r.now + r.ttl)| <= 14
    ensures |Decimal(r.now * 1000)| <= 14 && |Decimal(r.now * 1000 + VALIDITY_MS)| <= 14
  {
    assert Pow10(3) == 1000;
    assert Pow10(6) == 1_000_000;
    assert Pow10(9) == 1_000_000_000;
    assert Pow10(12) == 1_000_000_000_000;
    assert Pow10(14) == 100_000_000_000_000;
    DecimalAtMost(r.now, 14);
    DecimalAtMost(r.now + r.ttl, 14);
    DecimalAtMost(r.now * 1000, 14);
    DecimalAtMost(r.now * 1000 + VALIDITY_MS, 14);
  }

  lemma TooLongConcat(a: seq<Field>, b: seq<Field>)
    ensures AnyTooLong(a + b) <==> AnyTooLong(a) || AnyTooLong(b)
  {
    if i :| 0 <= i < |a| && |a[i].value| > MAX_VALUE { assert (a + b)[i] == a[i]; }
    if i :| 0 <= i < |b| && |b[i].value| > MAX_VALUE { assert (a + b)[|a| + i] == b[i]; }
  }

  lemma TooLongFive(a: seq<Field>, b: seq<Field>, c: seq<Field>, d: seq<Field>, e: seq<Field>)
    ensures AnyTooLong(a + b + c + d + e) <==>
            AnyTooLong(a) || AnyTooLong(b) || AnyTooLong(c) || AnyTooLong(d) || AnyTooLong(e)
  {
    TooLongConcat(a + b + c + d, e);
    TooLongConcat(a + b + c, d);
    TooLongConcat(a + b, c);
    TooLongConcat(a, b);
  }

  lemma TooLongOne(f: Field)
    ensures AnyTooLong([f]) <==> |f.value| > MAX_VALUE
  {
    assert [f][0] == f;
  }

  lemma TooLongTwo(f: Field, g: Field)
    ensures AnyTooLong([f, g]) <==> |f.value| > MAX_VALUE || |g.value| > MAX_VALUE
    ensures TotalSize([f, g]) == f.Size() + g.Size()
  {
    assert [f, g][0] == f && [f, g][1] == g;
    assert [f, g][..1] == [f] && [f][..0] == [];
    assert TotalSize([f]) == f.Size();
  }

  lemma OfferedTooLong(c: bool, fs: seq<Field>)
    ensures AnyTooLong(Offered(c, fs)) <==> c && AnyTooLong(fs)
  {
  }

  lemma PrivatePartsTooLong(r: Request)
    requires r.now + r.ttl < 10_000_000_000
    ensures AnyTooLong(PrivateParts(r)) <==>
            |r.client| > MAX_VALUE || (r.bill != "" && (|r.bill| > MAX_VALUE || |r.reference| > MAX_VALUE))
  {
    TimesAreShort(r);
    var name, bill, client := Field("00", "PAYWAY@ABA"), Field("02", r.bill), Field("01", r.client);
    var reference, expiry := Field("06", r.reference), Field("05", Decimal(r.now + r.ttl));
    var terminal, issued := Field("03", TerminalId(r)), Field("04", Decimal(r.now));
    PrivatePartsOffered(r);
    TooLongFive(Offered(r.client != "", [name]), Offered(r.bill != "", [bill, reference]), [expiry],
                Offered(r.client != "", [client]), [terminal, issued]);
    OfferedTooLong(r.client != "", [name]);
    OfferedTooLong(r.bill != "", [bill, reference]);
    OfferedTooLong(r.client != "", [client]);
    TooLongOne(name);
    TooLongOne(client);
    TooLongOne(expiry);
    TooLongTwo(bill, reference);
    TooLongTwo(terminal, issued);
  }

  lemma TemplatePartsTooLong(r: Request, inner: string)
    requires |inner| <= MAX_VALUE
    ensures AnyTooLong(TemplateParts(r, inner)) <==> |r.bill| > MAX_VALUE
  {
    var block := if inner != "" then [Field("50", inner)] else [];
    var bill := if r.bill != "" then [Field("01", r.bill)] else [];
    TooLongConcat(block + bill, [Field("03", TerminalId(r))]);
    TooLongConcat(block, bill);
    if r.bill != "" { assert bill[0].value == r.bill; }
  }

  lemma AccountTooLong(r: Request)
    ensures AnyTooLong(AccountParts(r)) <==> |r.account| > MAX_VALUE
    ensures AccountTemplate(r).Some? ==> |AccountTemplate(r).value| == 36 + |r.account|
  {
    var parts := AccountParts(r);
    assert parts[1].value == r.account;
    TagsAreDigits(r, "", "", "", "");
    if !AnyTooLong(parts) {
      NotTooLongIsEncodable(parts);
      PrintSize(parts);
      assert parts[..2] == [parts[0], parts[1]] && parts[..2][..1] == [parts[0]] && parts[..2][..1][..0] == [];
      assert TotalSize(parts[..2]) == TotalSize(parts[..2][..1]) + parts[1].Size();
    }
  }

  lemma ValidityFits(r: Request)
    requires r.now + r.ttl < 10_000_000_000
    ensures ValidityTemplate(r).Some? && |ValidityTemplate(r).value| <= MAX_VALUE
  {
    TimesAreShort(r);
    var from, to := Field("00", Decimal(r.now * 1000)), Field("01", Decimal(r.now * 1000 + VALIDITY_MS));
    TooLongTwo(from, to);
    TagsAreDigits(r, "", "", "", "");
    NotTooLongIsEncodable([from, to]);
    PrintSize([from, to]);
  }

  lemma BodyTooLong(r: Request, t30: string, t62: string, t99: string)
    requires |t62| <= MAX_VALUE && |t99| <= MAX_VALUE
    ensures AnyTooLong(BodyFields(r, t30, t62, t99)) <==>
            |t30| > MAX_VALUE || |r.currencyIso| > MAX_VALUE || |r.amount| > MAX_VALUE
  {
    var fixed :=
      [Field("00", "01"), Field("01", "12"), Field("30", t30), Field("52", "8999"), Field("53", r.currencyIso),
       Field("54", r.amount), Field("58", "KH"), Field("59", FirstChars(r.name, MAX_VALUE)), Field("60", "N/A")];
    var template := if t62 != "" then [Field("62", t62)] else [];
    var validity := if r.direct then [] else [Field("99", t99)];
    TooLongConcat(fixed + template, validity);
    TooLongConcat(fixed, template);
    assert fixed[2].value == t30 && fixed[4].value == r.currencyIso && fixed[5].value == r.amount;
  }

  /** What a caller must respect: an account of at most 63 characters, and every other part that is
      offered at most 99. */
  predicate Measurable(r: Request) {
    && |r.account| <= 63 && |r.currencyIso| <= MAX_VALUE && |r.amount| <= MAX_VALUE && |r.bill| <= MAX_VALUE
    && (r.direct || (|r.client| <= MAX_VALUE && (r.bill == "" || |r.reference| <= MAX_VALUE)))
  }

  lemma BlockBuilds(r: Request, budget: nat)
    requires r.now + r.ttl < 10_000_000_000 && budget <= MAX_VALUE
    ensures PrivateBlock(r, budget).Some? <==>
            || r.direct
            || (|r.client| <= MAX_VALUE && (r.bill == "" || (|r.bill| <= MAX_VALUE && |r.reference| <= MAX_VALUE)))
    ensures PrivateBlock(r, budget).Some? ==> |PrivateBlock(r, budget).value| <= MAX_VALUE
  {
    PrivatePartsTooLong(r);
    TagsAreDigits(r, "", "", "", "");
    if !r.direct && !AnyTooLong(PrivateParts(r)) {
      KeptEncodable(PrivateParts(r), budget);
      KeptFits(PrivateParts(r), budget);
      PrintSize(Kept(PrivateParts(r), budget));
    }
  }

  lemma TemplateBuilds(r: Request, inner: string)
    requires |inner| <= MAX_VALUE
    ensures Template(r, inner).Some? <==> |r.bill| <= MAX_VALUE
    ensures Template(r, inner).Some? ==> |Template(r, inner).value| <= MAX_VALUE
  {
    TemplatePartsTooLong(r, inner);
    if Template(r, inner).Some? { PrivateBlockWholeOrAbsent(r, inner); }
  }

  lemma FieldsBuild(r: Request, budget: nat)
    ensures Fields(r, budget).Some? <==>
            && AccountTemplate(r).Some? && ValidityTemplate(r).Some?
            && PrivateBlock(r, budget).Some? && Template(r, PrivateBlock(r, budget).value).Some?
    ensures Fields(r, budget).Some? ==>
              (var t62 := Template(r, PrivateBlock(r, budget).value).value;
               Fields(r, budget).value == BodyFields(r, AccountTemplate(r).value, t62, ValidityTemplate(r).value))
  {
  }

  lemma FieldsMeasurable(r: Request, budget: nat)
    requires r.now + r.ttl < 10_000_000_000 && budget <= MAX_VALUE
    ensures Fields(r, budget).Some? && !AnyTooLong(Fields(r, budget).value) <==> Measurable(r)
  {
    FieldsBuild(r, budget);
    BlockBuilds(r, budget);
    AccountTooLong(r);
    ValidityFits(r);
    if PrivateBlock(r, budget).Some? { TemplateBuilds(r, PrivateBlock(r, budget).value); }
    if Fields(r, budget).Some? {
      BodyTooLong(r, AccountTemplate(r).value, Template(r, PrivateBlock(r, budget).value).value,
        ValidityTemplate(r).value);
    }
  }

  /** A builder succeeds exactly on measurable requests, under either budget, at any instant that
      epoch seconds of ten digits can name. */
  lemma BuildsExactlyWhen(r: Request, budget: nat)
    requires r.now + r.ttl < 10_000_000_000 && budget <= MAX_VALUE
    ensures Payload(r, budget).Text? <==> Measurable(r)
  {
    FieldsMeasurable(r, budget);
  }

  // ---------------------------------------------------------------------------
  // The debug dump
  // ---------------------------------------------------------------------------

  datatype SubTag = Leaf(value: string) | Private(value: string, nested: map<string, string>)
  datatype Tag = Flat(value: string) | Nested(len: nat, nested: map<string, SubTag>)

  /** A dictionary filled in order: the last field of a tag wins. */
  function Inner(fs: seq<Field>): map<string, string> {
    if fs == [] then map[] else Inner(fs[..|fs| - 1])[fs[|fs| - 1].tag := fs[|fs| - 1].value]
  }

  function SubTagOf(f: Field): SubTag {
    if f.tag == "50" then Private(f.value, Inner(Parse(f.value))) else Leaf(f.value)
  }

  function SubTags(fs: seq<Field>): map<string, SubTag> {
    if fs == [] then map[] else SubTags(fs[..|fs| - 1])[fs[|fs| - 1].tag := SubTagOf(fs[|fs| - 1])]
  }

  predicate IsTemplate(tag: string) {
    |tag| == 2 && IsDigit(tag[0]) && IsDigit(tag[1]) &&
    var n := 10 * DigitValue(tag[0]) + DigitValue(tag[1]);
    26 <= n <= 51 || n == 62 || n == 64
  }

  function TagOf(f: Field): Tag {
    if IsTemplate(f.tag) then Nested(|f.value|, SubTags(Parse(f.value))) else Flat(f.value)
  }

  function Tags(fs: seq<Field>): map<string, Tag> {
    if fs == [] then map[] else Tags(fs[..|fs| - 1])[fs[|fs| - 1].tag := TagOf(fs[|fs| - 1])]
  }

  method DumpInner(value: string) returns (inner: map<string, string>)
    ensures inner == Inner(Parse(value))
  {
    var fields := ParseTlv(value);
    inner := map[];
    for i := 0 to |fields|
      invariant inner == Inner(fields[..i])
    {
      assert fields[..i + 1][..i] == fields[..i];
      inner := inner[fields[i].tag := fields[i].value];
    }
    assert fields[..|fields|] == fields;
  }

  method DumpTemplate(value: string) returns (nested: map<string, SubTag>)
    ensures nested == SubTags(Parse(value))
  {
    var fields := ParseTlv(value);
    nested := map[];
    for i := 0 to |fields|
      invariant nested == SubTags(fields[..i])
    {
      assert fields[..i + 1][..i] == fields[..i];
      if fields[i].tag == "50" {
        var inner := DumpInner(fields[i].value);
        nested := nested[fields[i].tag := Private(fields[i].value, inner)];
      } else {
        nested := nested[fields[i].tag := Leaf(fields[i].value)];
      }
    }
    assert fields[..|fields|] == fields;
  }

  method DumpTag(f: Field) returns (tag: Tag)
    ensures tag == TagOf(f)
  {
    if IsTemplate(f.tag) {
      var nested := DumpTemplate(f.value);
      return Nested(|f.value|, nested);
    }
    return Flat(f.value);
  }

  lemma TagsMore(fs: seq<Field>, i: nat)
    requires i < |fs|
    ensures Tags(fs[..i + 1]) == Tags(fs[..i])[fs[i].tag := TagOf(fs[i])]
  {
    assert fs[..i + 1][..i] == fs[..i];
  }

  /** `_tags_dump`. */
  method TagsDump(qr: string) returns (tags: map<string, Tag>)
    ensures tags == Tags(Parse(qr))
  {
    var fields := ParseTlv(qr);
    tags := map[];
    for i := 0 to |fields|
      invariant tags == Tags(fields[..i])
    {
      TagsMore(fields, i);
      var tag := DumpTag(fields[i]);
      tags := tags[fields[i].tag := tag];
    }
    assert fields[..|fields|] == fields;
  }

  ghost predicate DistinctTags(fs: seq<Field>) {
    forall i, j :: 0 <= i < j < |fs| ==> fs[i].tag != fs[j].tag
  }

  /** Where no tag repeats, the dump shows every field of every level exactly as it was written. */
  lemma {:induction false} DumpShowsEveryTag(fs: seq<Field>, i: nat)
    requires DistinctTags(fs) && i < |fs|
    ensures fs[i].tag in Tags(fs) && Tags(fs)[fs[i].tag] == TagOf(fs[i])
    ensures fs[i].tag in SubTags(fs) && SubTags(fs)[fs[i].tag] == SubTagOf(fs[i])
    ensures fs[i].tag in Inner(fs) && Inner(fs)[fs[i].tag] == fs[i].value
    decreases |fs|
  {
    var n := |fs| - 1;
    if i < n { DumpShowsEveryTag(fs[..n], i); }
  }
}
