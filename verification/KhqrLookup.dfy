/** What a reader finds under each tag of a finished payload, said in the request's own fields. */
module KhqrLookup {
  import opened Common
  import opened KhqrTlv
  import opened KhqrPayload

  // ---------------------------------------------------------------------------
  // Looking a tag up
  // ---------------------------------------------------------------------------

  /** The values a list of fields gives a tag. */
  function Values(fs: seq<Field>, tag: string): seq<string> {
    if fs == [] then []
    else if fs[|fs| - 1].tag == tag then Values(fs[..|fs| - 1], tag) + [fs[|fs| - 1].value]
    else Values(fs[..|fs| - 1], tag)
  }

  lemma ValuesMore(fs: seq<Field>, f: Field, tag: string)
    ensures Values(fs + [f], tag) == if f.tag == tag then Values(fs, tag) + [f.value] else Values(fs, tag)
  {
    assert (fs + [f])[..|fs|] == fs;
  }

  lemma {:induction false} ValuesConcat(a: seq<Field>, b: seq<Field>, tag: string)
    ensures Values(a + b, tag) == Values(a, tag) + Values(b, tag)
    decreases |b|
  {
    if b == [] {
      assert a + b == a;
    } else {
      var front, last := b[..|b| - 1], b[|b| - 1];
      assert b == front + [last];
      assert a + b == (a + front) + [last];
      ValuesConcat(a, front, tag);
      ValuesMore(a + front, last, tag);
      ValuesMore(front, last, tag);
    }
  }

  lemma ValuesOne(f: Field, tag: string)
    ensures Values([f], tag) == if f.tag == tag then [f.value] else []
  {
    assert [f] == [] + [f];
    ValuesMore([], f, tag);
  }

  lemma ValuesTwo(f: Field, g: Field, tag: string)
    ensures Values([f, g], tag) == Values([f], tag) + Values([g], tag)
  {
    assert [f, g] == [f] + [g];
    ValuesConcat([f], [g], tag);
  }

  /** Packing loses a part only when the finished block has no room for it. */
  lemma {:induction false} KeptValues(parts: seq<Field>, budget: nat, tag: string)
    requires |Values(parts, tag)| <= 1
    ensures Values(parts, tag) == [] ==> Values(Kept(parts, budget), tag) == []
    ensures Values(parts, tag) != [] ==>
              || Values(Kept(parts, budget), tag) == Values(parts, tag)
              || (&& Values(Kept(parts, budget), tag) == []
                  && TotalSize(Kept(parts, budget)) + |tag| + 2 + |Values(parts, tag)[0]| > budget)
    decreases |parts|
  {
    if parts != [] {
      var front, last := parts[..|parts| - 1], parts[|parts| - 1];
      KeptValues(front, budget, tag);
      var before := Kept(front, budget);
      assert (before + [last])[..|before|] == before;
      ValuesMore(before, last, tag);
    }
  }

  /** A number that orders two-character tags. */
  function TagNumber(f: Field): int { if |f.tag| == 2 then 1000 * f.tag[0] as int + f.tag[1] as int else -1 }

  predicate Ascends(fs: seq<Field>) { forall i :: 0 <= i < |fs| - 1 ==> TagNumber(fs[i]) < TagNumber(fs[i + 1]) }

  lemma {:induction false} AscendsFar(fs: seq<Field>, i: nat, j: nat)
    requires Ascends(fs) && i < j < |fs|
    ensures TagNumber(fs[i]) < TagNumber(fs[j])
    decreases j - i
  {
    if i + 1 < j { AscendsFar(fs, i + 1, j); }
  }

  lemma {:induction false} PrefixValues(fs: seq<Field>, i: nat, n: nat)
    requires i < |fs| && n <= |fs| && forall j :: 0 <= j < |fs| && j != i ==> fs[j].tag != fs[i].tag
    ensures Values(fs[..n], fs[i].tag) == if n <= i then [] else [fs[i].value]
    decreases n
  {
    if n > 0 {
      PrefixValues(fs, i, n - 1);
      assert fs[..n] == fs[..n - 1] + [fs[n - 1]];
      ValuesMore(fs[..n - 1], fs[n - 1], fs[i].tag);
    }
  }

  /** Where tags ascend, each field is the only one of its tag. */
  lemma OnlyField(fs: seq<Field>, i: nat)
    requires Ascends(fs) && i < |fs|
    ensures Values(fs, fs[i].tag) == [fs[i].value]
  {
    forall j | 0 <= j < |fs| && j != i ensures fs[j].tag != fs[i].tag {
      if j < i { AscendsFar(fs, j, i); } else { AscendsFar(fs, i, j); }
    }
    PrefixValues(fs, i, |fs|);
    assert fs[..|fs|] == fs;
  }

  // ---------------------------------------------------------------------------
  // Numbers
  // ---------------------------------------------------------------------------

  predicate AllDigits(s: string) { forall i :: 0 <= i < |s| ==> '0' <= s[i] <= '9' }

  /** The number a string of digits writes. */
  function NumberOf(s: string): nat
    requires AllDigits(s)
  {
    if s == [] then 0 else 10 * NumberOf(s[..|s| - 1]) + (s[|s| - 1] as int - '0' as int)
  }

  lemma NumberMore(s: string, d: nat)
    requires AllDigits(s) && d < 10
    ensures AllDigits(s + [Digit(d)]) && NumberOf(s + [Digit(d)]) == 10 * NumberOf(s) + d
  {
    assert (s + [Digit(d)])[..|s|] == s;
  }

  lemma {:induction false} DecimalWrites(n: nat)
    ensures AllDigits(Decimal(n)) && NumberOf(Decimal(n)) == n
  {
    if n < 10 {
      assert [Digit(n)] == [] + [Digit(n)];
      NumberMore([], n);
    } else {
      DecimalWrites(n / 10);
      NumberMore(Decimal(n / 10), n % 10);
    }
  }

  lemma {:induction false} LastDigitsWrite(n: nat, width: nat)
    ensures AllDigits(LastDigits(n, width)) && NumberOf(LastDigits(n, width)) == n % Pow10(width)
    decreases width
  {
    if width > 0 {
      LastDigitsWrite(n / 10, width - 1);
      NumberMore(LastDigits(n / 10, width - 1), n % 10);
      LastDigitSplits(n, Pow10(width - 1));
    }
  }

  lemma LastDigitSplits(n: nat, p: nat)
    requires p > 0
    ensures n % (10 * p) == 10 * (n / 10 % p) + n % 10
  {
    var q, r := n / 10 / p, n / 10 % p;
    assert n / 10 == q * p + r;
    assert n == (10 * p) * q + (10 * r + n % 10);
    DivUnique(n, 10 * p, q, 10 * r + n % 10);
  }

  lemma DivUnique(n: nat, d: nat, q: nat, r: nat)
    requires 0 <= r < d && n == d * q + r
    ensures n % d == r
  {
    var m := q - n / d;
    assert d * m == d * q - d * (n / d);
    assert d * m == n % d - r;
    if m >= 1 { TimesAtLeast(d, m); } else if m <= -1 { TimesAtLeast(d, -m); }
  }

  lemma TimesAtLeast(d: nat, m: int)
    requires m >= 1
    ensures d * m >= d && d * (-m) == -(d * m)
  {}

  // ---------------------------------------------------------------------------
  // The private block
  // ---------------------------------------------------------------------------

  /** A list that is offered only under a condition. */
  function Offered(c: bool, fs: seq<Field>): seq<Field> { if c then fs else [] }

  lemma PrivatePartsOffered(r: Request)
    ensures PrivateParts(r) == Offered(r.client != "", [Field("00", "PAYWAY@ABA")])
                             + Offered(r.bill != "", [Field("02", r.bill), Field("06", r.reference)])
                             + [Field("05", Decimal(r.now + r.ttl))]
                             + Offered(r.client != "", [Field("01", r.client)])
                             + [Field("03", TerminalId(r)), Field("04", Decimal(r.now))]
  {
  }

  lemma OfferedValues(c: bool, fs: seq<Field>, tag: string)
    ensures Values(Offered(c, fs), tag) == if c then Values(fs, tag) else []
  {}

  lemma ValuesFive(a: seq<Field>, b: seq<Field>, c: seq<Field>, d: seq<Field>, e: seq<Field>, tag: string)
    ensures Values(a + b + c + d + e, tag)
         == Values(a, tag) + Values(b, tag) + Values(c, tag) + Values(d, tag) + Values(e, tag)
  {
    ValuesConcat(a + b + c + d, e, tag);
    ValuesConcat(a + b + c, d, tag);
    ValuesConcat(a + b, c, tag);
    ValuesConcat(a, b, tag);
  }

  /** The sub-tag whose second digit is `c`. */
  function Sub(c: char): string { ['0', c] }

  lemma SubTags(c: char)
    ensures forall d: char :: Sub(c) == Sub(d) <==> c == d
    ensures "00" == Sub('0') && "01" == Sub('1') && "02" == Sub('2') && "03" == Sub('3')
    ensures "04" == Sub('4') && "05" == Sub('5') && "06" == Sub('6')
  {
    forall d: char | Sub(c) == Sub(d) ensures c == d { assert Sub(c)[1] == Sub(d)[1]; }
  }

  /** What each private sub-tag is to say: 00 the scheme and 01 the client id where there is one, 02 the
      bill and 06 the reference where there is a bill, 03 the terminal, 04 the issue and 05 the expiry. */
  function PrivateValue(r: Request, c: char): seq<string> {
    if c == '0' && r.client != "" then ["PAYWAY@ABA"]
    else if c == '1' && r.client != "" then [r.client]
    else if c == '2' && r.bill != "" then [r.bill]
    else if c == '3' then [TerminalId(r)]
    else if c == '4' then [Decimal(r.now)]
    else if c == '5' then [Decimal(r.now + r.ttl)]
    else if c == '6' && r.bill != "" then [r.reference]
    else []
  }

  lemma SubValue(f: Field, d: char, c: char)
    requires f.tag == Sub(d)
    ensures Values([f], Sub(c)) == if c == d then [f.value] else []
  {
    SubTags(c);
    ValuesOne(f, Sub(c));
  }

  lemma ClientValues(r: Request, c: char)
    ensures Values(Offered(r.client != "", [Field("00", "PAYWAY@ABA")]), Sub(c))
         == if c == '0' && r.client != "" then ["PAYWAY@ABA"] else []
    ensures Values(Offered(r.client != "", [Field("01", r.client)]), Sub(c))
         == if c == '1' && r.client != "" then [r.client] else []
  {
    SubTags(c);
    OfferedValues(r.client != "", [Field("00", "PAYWAY@ABA")], Sub(c));
    OfferedValues(r.client != "", [Field("01", r.client)], Sub(c));
    SubValue(Field("00", "PAYWAY@ABA"), '0', c);
    SubValue(Field("01", r.client), '1', c);
  }

  lemma BillValues(r: Request, c: char)
    ensures Values(Offered(r.bill != "", [Field("02", r.bill), Field("06", r.reference)]), Sub(c)) ==
              if r.bill == "" then [] else if c == '2' then [r.bill] else if c == '6' then [r.reference] else []
  {
    SubTags(c);
    OfferedValues(r.bill != "", [Field("02", r.bill), Field("06", r.reference)], Sub(c));
    ValuesTwo(Field("02", r.bill), Field("06", r.reference), Sub(c));
    SubValue(Field("02", r.bill), '2', c);
    SubValue(Field("06", r.reference), '6', c);
  }

  lemma ClockValues(r: Request, c: char)
    ensures Values([Field("05", Decimal(r.now + r.ttl))], Sub(c)) == if c == '5' then [Decimal(r.now + r.ttl)] else []
    ensures Values([Field("03", TerminalId(r)), Field("04", Decimal(r.now))], Sub(c)) ==
              if c == '3' then [TerminalId(r)] else if c == '4' then [Decimal(r.now)] else []
  {
    SubTags(c);
    SubValue(Field("05", Decimal(r.now + r.ttl)), '5', c);
    ValuesTwo(Field("03", TerminalId(r)), Field("04", Decimal(r.now)), Sub(c));
    SubValue(Field("03", TerminalId(r)), '3', c);
    SubValue(Field("04", Decimal(r.now)), '4', c);
  }

  lemma AloneInFive<T>(a: seq<T>, b: seq<T>, c: seq<T>, d: seq<T>, e: seq<T>)
    ensures b == [] && c == [] && d == [] && e == [] ==> a + b + c + d + e == a
    ensures a == [] && c == [] && d == [] && e == [] ==> a + b + c + d + e == b
    ensures a == [] && b == [] && d == [] && e == [] ==> a + b + c + d + e == c
    ensures a == [] && b == [] && c == [] && e == [] ==> a + b + c + d + e == d
    ensures a == [] && b == [] && c == [] && d == [] ==> a + b + c + d + e == e
  {}

  lemma PrivateValueIs(r: Request, c: char, name: seq<string>, bill: seq<string>, expiry: seq<string>,
                       client: seq<string>, last: seq<string>)
    requires name == if c == '0' && r.client != "" then ["PAYWAY@ABA"] else []
    requires bill ==
               if r.bill == "" then [] else if c == '2' then [r.bill] else if c == '6' then [r.reference] else []
    requires expiry == if c == '5' then [Decimal(r.now + r.ttl)] else []
    requires client == if c == '1' && r.client != "" then [r.client] else []
    requires last == if c == '3' then [TerminalId(r)] else if c == '4' then [Decimal(r.now)] else []
    ensures name + bill + expiry + client + last == PrivateValue(r, c)
  {
    AloneInFive(name, bill, expiry, client, last);
  }

  lemma PrivateOffers(r: Request, c: char)
    ensures Values(PrivateParts(r), Sub(c)) == PrivateValue(r, c)
  {
    var name := Offered(r.client != "", [Field("00", "PAYWAY@ABA")]);
    var client := Offered(r.client != "", [Field("01", r.client)]);
    var bill := Offered(r.bill != "", [Field("02", r.bill), Field("06", r.reference)]);
    var expiry := [Field("05", Decimal(r.now + r.ttl))];
    var last := [Field("03", TerminalId(r)), Field("04", Decimal(r.now))];
    PrivatePartsOffered(r);
    ValuesFive(name, bill, expiry, client, last, Sub(c));
    ClientValues(r, c);
    BillValues(r, c);
    ClockValues(r, c);
    PrivateValueIs(r, c, Values(name, Sub(c)), Values(bill, Sub(c)), Values(expiry, Sub(c)),
                   Values(client, Sub(c)), Values(last, Sub(c)));
  }

  lemma BlockParses(r: Request, budget: nat)
    requires PrivateBlock(r, budget).Some? && !r.direct
    ensures var inner := PrivateBlock(r, budget).value;
            Parse(inner) == Kept(PrivateParts(r), budget) && |inner| == TotalSize(Kept(PrivateParts(r), budget))
  {
    TagsAreDigits(r, "", "", "", "");
    KeptEncodable(PrivateParts(r), budget);
    ParsePrint(Kept(PrivateParts(r), budget));
    PrintSize(Kept(PrivateParts(r), budget));
  }

  /** A private block says under each sub-tag what it is to say, once, or is too full to say it. */
  lemma PrivateBlockSays(r: Request, budget: nat, c: char)
    requires PrivateBlock(r, budget).Some? && !r.direct
    ensures var inner := PrivateBlock(r, budget).value;
            var said := Values(Parse(inner), Sub(c));
            || said == PrivateValue(r, c)
            || (said == [] && PrivateValue(r, c) != [] && |inner| + 4 + |PrivateValue(r, c)[0]| > budget)
  {
    BlockParses(r, budget);
    KeptSays(r, budget, c);
  }

  lemma KeptSays(r: Request, budget: nat, c: char)
    ensures var said := Values(Kept(PrivateParts(r), budget), Sub(c));
            || said == PrivateValue(r, c)
            || (&& said == [] && PrivateValue(r, c) != []
                && TotalSize(Kept(PrivateParts(r), budget)) + 4 + |PrivateValue(r, c)[0]| > budget)
  {
    PrivateOffers(r, c);
    KeptValues(PrivateParts(r), budget, Sub(c));
  }

  lemma {:induction false} HeldValues(fs: seq<Field>, f: Field)
    requires f in fs
    ensures Values(fs, f.tag) != []
  {
    var front, last := fs[..|fs| - 1], fs[|fs| - 1];
    if f != last { HeldValues(front, f); }
  }

  /** The size of what goes before the client id: scheme, bill, reference and expiry. */
  function EssentialSize(r: Request): nat {
    (if r.client != "" then 14 else 0) + (if r.bill != "" then 8 + |r.bill| + |r.reference| else 0)
    + 4 + |Decimal(r.now + r.ttl)|
  }

  /** The bill, the reference and the expiry have priority: a block with room for them and the scheme
      says them all, however long the client id. */
  lemma EssentialsComeFirst(r: Request, budget: nat, c: char)
    requires PrivateBlock(r, budget).Some? && !r.direct && EssentialSize(r) <= budget
    requires c == '0' || c == '2' || c == '5' || c == '6'
    ensures Values(Parse(PrivateBlock(r, budget).value), Sub(c)) == PrivateValue(r, c)
  {
    BlockParses(r, budget);
    EssentialsKept(r, budget, c);
  }

  lemma EssentialsKept(r: Request, budget: nat, c: char)
    requires EssentialSize(r) <= budget && (c == '0' || c == '2' || c == '5' || c == '6')
    ensures Values(Kept(PrivateParts(r), budget), Sub(c)) == PrivateValue(r, c)
  {
    KeptSays(r, budget, c);
    if PrivateValue(r, c) != [] {
      var f := Field(Sub(c), PrivateValue(r, c)[0]);
      EssentialIsKept(r, budget, f, c);
      HeldValues(Kept(PrivateParts(r), budget), f);
    }
  }

  function Essentials(r: Request): seq<Field> {
    Offered(r.client != "", [Field("00", "PAYWAY@ABA")])
    + Offered(r.bill != "", [Field("02", r.bill), Field("06", r.reference)])
    + [Field("05", Decimal(r.now + r.ttl))]
  }

  function Extras(r: Request): seq<Field> {
    Offered(r.client != "", [Field("01", r.client)]) + [Field("03", TerminalId(r)), Field("04", Decimal(r.now))]
  }

  lemma EssentialsThenExtras(r: Request)
    ensures PrivateParts(r) == Essentials(r) + Extras(r)
  {
    PrivatePartsOffered(r);
    Regroup(Essentials(r), Offered(r.client != "", [Field("01", r.client)]),
            [Field("03", TerminalId(r)), Field("04", Decimal(r.now))]);
  }

  lemma EssentialsSize(r: Request)
    ensures TotalSize(Essentials(r)) == EssentialSize(r)
  {
    var name := Offered(r.client != "", [Field("00", "PAYWAY@ABA")]);
    var bill := Offered(r.bill != "", [Field("02", r.bill), Field("06", r.reference)]);
    SizeConcat(name + bill, [Field("05", Decimal(r.now + r.ttl))]);
    SizeConcat(name, bill);
    assert [Field("02", r.bill), Field("06", r.reference)] == [Field("02", r.bill)] + [Field("06", r.reference)];
    SizeConcat([Field("02", r.bill)], [Field("06", r.reference)]);
  }

  lemma EssentialIsKept(r: Request, budget: nat, f: Field, c: char)
    requires EssentialSize(r) <= budget && (c == '0' || c == '2' || c == '5' || c == '6')
    requires PrivateValue(r, c) == [f.value] && f.tag == Sub(c)
    ensures f in Kept(PrivateParts(r), budget)
  {
    EssentialsThenExtras(r);
    EssentialsSize(r);
    SubTags(c);
    assert f in Essentials(r);
    FittingPrefixIsKept(Essentials(r), Extras(r), budget, f);
  }

  lemma {:induction false} SizeConcat(a: seq<Field>, b: seq<Field>)
    ensures TotalSize(a + b) == TotalSize(a) + TotalSize(b)
    decreases |b|
  {
    if b == [] {
      assert a + b == a;
    } else {
      assert (a + b)[..|a + b| - 1] == a + b[..|b| - 1];
      SizeConcat(a, b[..|b| - 1]);
    }
  }

  /** What fits together at the front of an offer is all kept. */
  lemma {:induction false} FittingPrefixIsKept(a: seq<Field>, b: seq<Field>, budget: nat, f: Field)
    requires TotalSize(a) <= budget && f in a
    ensures f in Kept(a + b, budget)
    decreases |b|
  {
    if b == [] {
      assert a + b == a;
      FittingIsKept(a, budget);
    } else {
      assert (a + b)[..|a + b| - 1] == a + b[..|b| - 1];
      FittingPrefixIsKept(a, b[..|b| - 1], budget, f);
    }
  }

  lemma {:induction false} FittingIsKept(a: seq<Field>, budget: nat)
    requires TotalSize(a) <= budget
    ensures Kept(a, budget) == a
    decreases |a|
  {
    if a != [] { FittingIsKept(a[..|a| - 1], budget); }
  }

  // ---------------------------------------------------------------------------
  // The templates
  // ---------------------------------------------------------------------------

  lemma TemplateOffers(r: Request, inner: string, tag: string)
    requires tag == "01" || tag == "03"
    ensures Values(TemplateParts(r, inner), tag) ==
              if tag == "03" then [TerminalId(r)] else if r.bill != "" then [r.bill] else []
  {
    var block := Offered(inner != "", [Field("50", inner)]);
    var bill := Offered(r.bill != "", [Field("01", r.bill)]);
    assert TemplateParts(r, inner) == block + bill + [Field("03", TerminalId(r))];
    TemplateOffersTag(block, bill, [Field("03", TerminalId(r))], tag);
    BlockOffersNeither(inner, tag);
    BillOffersItself(r.bill, tag);
    ValuesOne(Field("03", TerminalId(r)), tag);
  }

  lemma BlockOffersNeither(inner: string, tag: string)
    requires tag == "01" || tag == "03"
    ensures Values(Offered(inner != "", [Field("50", inner)]), tag) == []
  {
    assert "50"[0] == '5' && "01"[0] == '0' && "03"[0] == '0';
    OfferedValues(inner != "", [Field("50", inner)], tag);
    ValuesOne(Field("50", inner), tag);
  }

  lemma BillOffersItself(bill: string, tag: string)
    requires tag == "01" || tag == "03"
    ensures Values(Offered(bill != "", [Field("01", bill)]), tag) == if tag == "01" && bill != "" then [bill] else []
    ensures "01" != "03"
  {
    assert "01"[1] == '1' && "03"[1] == '3';
    OfferedValues(bill != "", [Field("01", bill)], tag);
    ValuesOne(Field("01", bill), tag);
  }

  lemma TemplateOffersTag(a: seq<Field>, b: seq<Field>, c: seq<Field>, tag: string)
    ensures Values(a + b + c, tag) == Values(a, tag) + Values(b, tag) + Values(c, tag)
  {
    ValuesConcat(a + b, c, tag);
    ValuesConcat(a, b, tag);
  }

  /** Tag 62 gives the bill under 01 and the terminal under 03, each once, or is too full to. */
  lemma TemplateSays(r: Request, inner: string)
    requires Template(r, inner).Some?
    ensures var t62 := Template(r, inner).value;
            && (r.bill == "" ==> Values(Parse(t62), "01") == [])
            && (r.bill != "" ==>
                  || Values(Parse(t62), "01") == [r.bill]
                  || (Values(Parse(t62), "01") == [] && |t62| + 4 + |r.bill| > MAX_VALUE))
            && (|| Values(Parse(t62), "03") == [TerminalId(r)]
                || (Values(Parse(t62), "03") == [] && |t62| + 13 > MAX_VALUE))
  {
    var parts := TemplateParts(r, inner);
    TagsAreDigits(r, inner, "", "", "");
    KeptEncodable(parts, MAX_VALUE);
    ParsePrint(Kept(parts, MAX_VALUE));
    PrintSize(Kept(parts, MAX_VALUE));
    TemplateOffers(r, inner, "01");
    TemplateOffers(r, inner, "03");
    KeptValues(parts, MAX_VALUE, "01");
    KeptValues(parts, MAX_VALUE, "03");
  }

  /** Tag 30 gives the switch, the merchant's account and the bank's label, each once. */
  lemma AccountTemplateSays(r: Request)
    requires AccountTemplate(r).Some?
    ensures var fs := Parse(AccountTemplate(r).value);
            && Values(fs, "00") == ["abaakhppxxx@abaa"]
            && Values(fs, "01") == [r.account]
            && Values(fs, "02") == ["ABA Bank"]
  {
    var parts := AccountParts(r);
    TagsAreDigits(r, "", "", "", "");
    NotTooLongIsEncodable(parts);
    ParsePrint(parts);
    assert Ascends(parts);
    OnlyField(parts, 0);
    OnlyField(parts, 1);
    OnlyField(parts, 2);
  }

  lemma ValidityFields(r: Request)
    requires ValidityTemplate(r).Some? && !r.direct
    ensures var fs := Parse(ValidityTemplate(r).value);
            Values(fs, "00") == [Decimal(r.now * 1000)] && Values(fs, "01") == [Decimal(r.now * 1000 + VALIDITY_MS)]
  {
    var parts := ValidityParts(r);
    TagsAreDigits(r, "", "", "", "");
    NotTooLongIsEncodable(parts);
    ParsePrint(parts);
    assert Ascends(parts);
    OnlyField(parts, 0);
    OnlyField(parts, 1);
  }

  /** Tag 99 gives the issue and its expiry 30 days later, in milliseconds. */
  lemma ValidityTemplateSays(r: Request)
    requires ValidityTemplate(r).Some? && !r.direct
    ensures var fs := Parse(ValidityTemplate(r).value);
            && |Values(fs, "00")| == 1 && |Values(fs, "01")| == 1
            && AllDigits(Values(fs, "00")[0]) && NumberOf(Values(fs, "00")[0]) == 1000 * r.now
            && AllDigits(Values(fs, "01")[0]) && NumberOf(Values(fs, "01")[0]) == 1000 * r.now + 30 * 24 * 3600 * 1000
  {
    ValidityFields(r);
    DecimalWrites(r.now * 1000);
    DecimalWrites(r.now * 1000 + VALIDITY_MS);
  }

  /** The terminal is the last nine digits of the issue second; issue and expiry are written in full. */
  lemma ClocksSay(r: Request)
    ensures |TerminalId(r)| == 9 && AllDigits(TerminalId(r)) && NumberOf(TerminalId(r)) == r.now % 1_000_000_000
    ensures AllDigits(Decimal(r.now)) && NumberOf(Decimal(r.now)) == r.now
    ensures AllDigits(Decimal(r.now + r.ttl)) && NumberOf(Decimal(r.now + r.ttl)) == r.now + r.ttl
  {
    LastDigitsWrite(r.now, 9);
    assert Pow10(3) == 1000;
    assert Pow10(6) == 1_000_000;
    assert Pow10(9) == 1_000_000_000;
    DecimalWrites(r.now);
    DecimalWrites(r.now + r.ttl);
  }

  // ---------------------------------------------------------------------------
  // The whole payload
  // ---------------------------------------------------------------------------

  lemma BodyAscends(r: Request, t30: string, t62: string, t99: string)
    ensures Ascends(BodyFields(r, t30, t62, t99))
  {}

  /** What the body says under each tag, and once. */
  ghost predicate SaysRequest(fs: seq<Field>, r: Request) {
    && Values(fs, "00") == ["01"] && Values(fs, "01") == ["12"] && Values(fs, "52") == ["8999"]
    && Values(fs, "53") == [r.currencyIso] && Values(fs, "54") == [r.amount]
    && Values(fs, "58") == ["KH"] && Values(fs, "60") == ["N/A"]
    && |Values(fs, "59")| == 1 && Values(fs, "59")[0] <= r.name && |Values(fs, "59")[0]| == Min(99, |r.name|)
  }

  lemma BodySaysFixed(r: Request, t30: string, t62: string, t99: string)
    ensures var fs := BodyFields(r, t30, t62, t99);
            SaysRequest(fs, r) && Values(fs, "30") == [t30]
  {
    var fs := BodyFields(r, t30, t62, t99);
    BodyAscends(r, t30, t62, t99);
    forall i | 0 <= i < 9 ensures Values(fs, fs[i].tag) == [fs[i].value] { OnlyField(fs, i); }
    assert fs[0].tag == "00" && fs[1].tag == "01" && fs[2].tag == "30" && fs[3].tag == "52" && fs[4].tag == "53";
    assert fs[5].tag == "54" && fs[6].tag == "58" && fs[7].tag == "59" && fs[8].tag == "60";
  }

  lemma {:induction false} AbsentTag(fs: seq<Field>, tag: string)
    requires forall j :: 0 <= j < |fs| ==> fs[j].tag != tag
    ensures Values(fs, tag) == []
  {
    if fs != [] { AbsentTag(fs[..|fs| - 1], tag); }
  }

  lemma BodySaysRest(r: Request, t30: string, t62: string, t99: string, tag: string)
    requires tag == "62" || tag == "99" || tag == "63"
    ensures Values(BodyFields(r, t30, t62, t99), tag) ==
              if tag == "62" && t62 != "" then [t62] else if tag == "99" && !r.direct then [t99] else []
  {
    var fixed := BodyFields(r, t30, t62, t99)[..9];
    var template, validity := Offered(t62 != "", [Field("62", t62)]), Offered(!r.direct, [Field("99", t99)]);
    assert BodyFields(r, t30, t62, t99) == fixed + template + validity;
    assert "62"[0] == '6' && "62"[1] == '2' && "99"[0] == '9' && "63"[1] == '3';
    TemplateOffersTag(fixed, template, validity, tag);
    FixedLacks(r, t30, t62, t99, tag);
    OfferedValues(t62 != "", [Field("62", t62)], tag);
    OfferedValues(!r.direct, [Field("99", t99)], tag);
    ValuesOne(Field("62", t62), tag);
    ValuesOne(Field("99", t99), tag);
  }

  lemma FixedLacks(r: Request, t30: string, t62: string, t99: string, tag: string)
    requires tag == "62" || tag == "99" || tag == "63"
    ensures Values(BodyFields(r, t30, t62, t99)[..9], tag) == []
  {
    var fixed := BodyFields(r, t30, t62, t99)[..9];
    assert tag[0] == '6' || tag[0] == '9';
    assert tag[1] != '0';
    forall j | 0 <= j < 9 ensures fixed[j].tag != tag {
      assert fixed[j].tag[0] < '6' || fixed[j].tag[1] == '0';
    }
    AbsentTag(fixed, tag);
  }

  /** What the whole payload says, on its text: under each tag the request's own value, once, with the
      templates one level down, and a closing CRC over everything before its own four characters. */
  lemma PayloadSays(r: Request, budget: nat)
    requires Payload(r, budget).Text?
    ensures AccountTemplate(r).Some? && ValidityTemplate(r).Some?
    ensures PrivateBlock(r, budget).Some? && Template(r, PrivateBlock(r, budget).value).Some?
    ensures var p := Payload(r, budget).text;
            var t62 := Template(r, PrivateBlock(r, budget).value).value;
            && SaysRequest(Parse(p), r)
            && Values(Parse(p), "30") == [AccountTemplate(r).value]
            && Values(Parse(p), "62") == (if t62 != "" then [t62] else [])
            && Values(Parse(p), "99") == (if r.direct then [] else [ValidityTemplate(r).value])
            && |p| >= 4 && Values(Parse(p), "63") == [p[|p| - 4..]] && p[|p| - 4..] == Checksum(p[..|p| - 4])
  {
    PayloadParses(r, budget);
    var p := Payload(r, budget).text;
    var t30, t99 := AccountTemplate(r).value, ValidityTemplate(r).value;
    var t62 := Template(r, PrivateBlock(r, budget).value).value;
    var fs, last := BodyFields(r, t30, t62, t99), Field("63", p[|p| - 4..]);
    assert Parse(p) == fs + [last];
    ClosedSays(fs, last, r);
    BodySaysFixed(r, t30, t62, t99);
    BodySaysRest(r, t30, t62, t99, "62");
    BodySaysRest(r, t30, t62, t99, "99");
    BodySaysRest(r, t30, t62, t99, "63");
  }

  /** A closing Tag 63 changes what no other tag says. */
  lemma ClosedSays(fs: seq<Field>, last: Field, r: Request)
    requires last.tag == "63"
    ensures SaysRequest(fs, r) ==> SaysRequest(fs + [last], r)
    ensures Values(fs + [last], "30") == Values(fs, "30") && Values(fs + [last], "62") == Values(fs, "62")
    ensures Values(fs + [last], "99") == Values(fs, "99")
    ensures Values(fs, "63") == [] ==> Values(fs + [last], "63") == [last.value]
  {
    forall tag: string | |tag| == 2 && (tag[0] != '6' || tag[1] != '3')
      ensures Values(fs + [last], tag) == Values(fs, tag)
    {
      assert "63"[0] == '6' && "63"[1] == '3';
      ValuesMore(fs, last, tag);
    }
    ValuesMore(fs, last, "63");
  }
}
