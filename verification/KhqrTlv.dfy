/** The tag-length-value format of a KHQR payload: a two-digit tag, a two-digit length, the value. */
module KhqrTlv {
  import opened Common

  /** A build either yields text or fails on a value that two digits cannot measure. */
  datatype Built = Text(text: string) | TooLong

  datatype Field = Field(tag: string, value: string) {
    function Size(): nat { |tag| + 2 + |value| }
  }

  const MAX_VALUE: nat := 99

  predicate IsDigit(c: char) { '0' <= c <= '9' }

  function Digit(d: nat): (c: char)
    requires d < 10
    ensures IsDigit(c) && DigitValue(c) == d
  {
    (48 + d) as char
  }

  function DigitValue(c: char): nat
    requires IsDigit(c)
  {
    c as int - 48
  }

  function TwoDigits(n: nat): (s: string)
    requires n <= MAX_VALUE
    ensures |s| == 2
  {
    [Digit(n / 10), Digit(n % 10)]
  }

  /** `tlv`. */
  function Tlv(tag: string, value: string): Built {
    if |value| > MAX_VALUE then TooLong else Text(tag + TwoDigits(|value|) + value)
  }

  /** A field the format can carry: a tag of two digits and a value two digits can measure. */
  predicate Encodable(f: Field) {
    |f.tag| == 2 && IsDigit(f.tag[0]) && IsDigit(f.tag[1]) && |f.value| <= MAX_VALUE
  }

  predicate AllEncodable(fs: seq<Field>) { forall i :: 0 <= i < |fs| ==> Encodable(fs[i]) }

  function PrintField(f: Field): (s: string)
    requires Encodable(f)
    ensures |s| == f.Size() && Tlv(f.tag, f.value) == Text(s)
  {
    f.tag + TwoDigits(|f.value|) + f.value
  }

  function Print(fs: seq<Field>): string
    requires AllEncodable(fs)
  {
    if fs == [] then "" else PrintField(fs[0]) + Print(fs[1..])
  }

  predicate IsSpace(c: char) { c == ' ' || '\t' <= c <= '\r' || '\U{1C}' <= c <= '\U{1F}' }

  /** What reading two characters as a whole number yields: blanks are stripped and a sign is
      allowed. */
  function ReadLength(a: char, b: char): Option<int> {
    if IsDigit(a) && IsDigit(b) then Some(10 * DigitValue(a) + DigitValue(b))
    else if IsDigit(b) && (IsSpace(a) || a == '+') then Some(DigitValue(b))
    else if IsDigit(b) && a == '-' then Some(0 - DigitValue(b))
    else if IsDigit(a) && IsSpace(b) then Some(DigitValue(a))
    else None
  }

  /** The end of the field at the front of `s`, or nothing where the parser stops. */
  function FieldEnd(s: string): (end: Option<nat>)
    ensures end.Some? ==> 4 <= end.value <= |s|
  {
    if |s| < 4 || !IsDigit(s[0]) || !IsDigit(s[1]) then None
    else
      var n := ReadLength(s[2], s[3]);
      if n.None? || n.value < 0 || 4 + n.value > |s| then None else Some(4 + n.value)
  }

  function Parse(s: string): seq<Field>
    decreases |s|
  {
    var end := FieldEnd(s);
    if end.None? then [] else [Field(s[..2], s[4..end.value])] + Parse(s[end.value..])
  }

  lemma ParseAt(s: string, i: nat, end: nat)
    requires i + 4 <= end <= |s| && FieldEnd(s[i..]) == Some(end - i)
    ensures Parse(s[i..]) == [Field(s[i..i + 2], s[i + 4..end])] + Parse(s[end..])
  {
    var rest := s[i..];
    assert rest[..2] == s[i..i + 2];
    assert rest[4..end - i] == s[i + 4..end];
    assert rest[end - i..] == s[end..];
  }

  /** The checks of one turn of `parse_tlv`: where the field at `i` ends, or that the loop stops. */
  method NextEnd(s: string, i: nat) returns (end: Option<nat>)
    requires i + 4 <= |s|
    ensures end.None? <==> FieldEnd(s[i..]).None?
    ensures end.Some? ==> i + 4 <= end.value <= |s| && FieldEnd(s[i..]) == Some(end.value - i)
  {
    ghost var rest := s[i..];
    assert |rest| == |s| - i && rest[0] == s[i] && rest[1] == s[i + 1] && rest[2] == s[i + 2] && rest[3] == s[i + 3];
    if !IsDigit(s[i]) || !IsDigit(s[i + 1]) { return None; }
    var n := ReadLength(s[i + 2], s[i + 3]);
    if n.None? { return None; }
    if n.value < 0 { return None; }
    if i + 4 + n.value > |s| { return None; }
    end := Some(i + 4 + n.value);
  }

  /** `parse_tlv`: it drops whatever it cannot read and never fails. */
  method ParseTlv(s: string) returns (fields: seq<Field>)
    ensures fields == Parse(s)
  {
    fields := [];
    var i := 0;
    assert s[0..] == s;
    while i + 4 <= |s|
      invariant 0 <= i <= |s|
      invariant fields + Parse(s[i..]) == Parse(s)
      decreases |s| - i
    {
      var end := NextEnd(s, i);
      if end.None? { break; }
      ParseAt(s, i, end.value);
      var f := Field(s[i..i + 2], s[i + 4..end.value]);
      Regroup(fields, [f], Parse(s[end.value..]));
      fields := fields + [f];
      i := end.value;
    }
    assert FieldEnd(s[i..]).None?;
    assert Parse(s[i..]) == [] && fields + [] == fields;
  }

  /** What `tlv` writes: the tag, the length of the value as two decimal digits, the value; and it fails
      exactly when two digits cannot hold the length. */
  lemma TlvWrites(tag: string, value: string)
    ensures Tlv(tag, value).TooLong? <==> |value| > 99
    ensures Tlv(tag, value).Text? ==>
              var s, n := Tlv(tag, value).text, |tag|;
              && |s| == n + 2 + |value| && s[..n] == tag && s[n + 2..] == value
              && '0' <= s[n] <= '9' && '0' <= s[n + 1] <= '9'
              && 10 * (s[n] as int - '0' as int) + (s[n + 1] as int - '0' as int) == |value|
  {}

  // ---------------------------------------------------------------------------
  // Round trip
  // ---------------------------------------------------------------------------

  lemma LengthRoundTrip(n: nat)
    requires n <= MAX_VALUE
    ensures ReadLength(TwoDigits(n)[0], TwoDigits(n)[1]) == Some(n)
  {}

  lemma FieldRoundTrip(f: Field, rest: string)
    requires Encodable(f)
    ensures Parse(PrintField(f) + rest) == [f] + Parse(rest)
  {
    var s := PrintField(f) + rest;
    LengthRoundTrip(|f.value|);
    assert s[..2] == f.tag && s[2] == TwoDigits(|f.value|)[0] && s[3] == TwoDigits(|f.value|)[1];
    assert s[4..4 + |f.value|] == f.value && s[4 + |f.value|..] == rest;
  }

  lemma ParseFirst(f: Field, more: string, rest: string)
    requires Encodable(f)
    ensures Parse((PrintField(f) + more) + rest) == [f] + Parse(more + rest)
  {
    Regroup(PrintField(f), more, rest);
    FieldRoundTrip(f, more + rest);
  }

  lemma PutBack<T>(all: seq<T>, rest: seq<T>)
    requires all != []
    ensures [all[0]] + (all[1..] + rest) == all + rest
  {
    assert [all[0]] + all[1..] == all;
    Regroup([all[0]], all[1..], rest);
  }

  /** Parsing what was printed gives the fields back, whatever follows them. */
  lemma {:induction false} RoundTrip(fs: seq<Field>, rest: string)
    requires AllEncodable(fs)
    ensures Parse(Print(fs) + rest) == fs + Parse(rest)
    decreases |fs|
  {
    if fs == [] {
      assert Print(fs) + rest == rest;
    } else {
      RoundTrip(fs[1..], rest);
      ParseFirst(fs[0], Print(fs[1..]), rest);
      PutBack(fs, Parse(rest));
    }
  }

  lemma Regroup<T>(a: seq<T>, b: seq<T>, c: seq<T>)
    ensures (a + b) + c == a + (b + c)
  {}

  lemma ParsePrint(fs: seq<Field>)
    requires AllEncodable(fs)
    ensures Parse(Print(fs)) == fs
  {
    RoundTrip(fs, "");
    assert Print(fs) + "" == Print(fs) && Parse("") == [];
  }

  /** Every field the parser reaches has its length written as two digits. */
  predicate PlainLengths(s: string)
    decreases |s|
  {
    FieldEnd(s).None? || (IsDigit(s[2]) && IsDigit(s[3]) && PlainLengths(s[FieldEnd(s).value..]))
  }

  /** Printing what was parsed gives the consumed prefix back. */
  lemma {:induction false} PrintParse(s: string) returns (unread: string)
    requires PlainLengths(s)
    ensures AllEncodable(Parse(s)) && s == Print(Parse(s)) + unread
    decreases |s|
  {
    var end := FieldEnd(s);
    if end.None? {
      unread := s;
    } else {
      var tail := s[end.value..];
      unread := PrintParse(tail);
      PlainFieldRePrints(s, end.value);
      PrintCons(Field(s[..2], s[4..end.value]), Parse(tail));
      JoinPrefix(s, end.value, tail, Print(Parse(tail)), unread);
    }
  }

  lemma JoinPrefix(s: string, end: nat, tail: string, printed: string, unread: string)
    requires end <= |s| && tail == s[end..] && tail == printed + unread
    ensures s == (s[..end] + printed) + unread
  {
    Regroup(s[..end], printed, unread);
  }

  lemma PrintCons(f: Field, fs: seq<Field>)
    requires Encodable(f) && AllEncodable(fs)
    ensures AllEncodable([f] + fs) && Print([f] + fs) == PrintField(f) + Print(fs)
  {
    assert ([f] + fs)[1..] == fs;
  }

  lemma PlainFieldRePrints(s: string, end: nat)
    requires FieldEnd(s) == Some(end) && IsDigit(s[2]) && IsDigit(s[3])
    ensures var f := Field(s[..2], s[4..end]);
            Encodable(f) && PrintField(f) == s[..end]
  {
    assert TwoDigits(end - 4) == s[2..4];
    assert s[..end] == s[..2] + s[2..4] + s[4..end];
  }

  lemma {:induction false} PrintConcat(a: seq<Field>, b: seq<Field>)
    requires AllEncodable(a) && AllEncodable(b)
    ensures AllEncodable(a + b) && Print(a + b) == Print(a) + Print(b)
    decreases |a|
  {
    if a == [] {
      assert a + b == b;
      assert Print(a) + Print(b) == Print(b);
    } else {
      PrintConcat(a[1..], b);
      PutBack(a, b);
      PrintCons(a[0], a[1..] + b);
      Regroup(PrintField(a[0]), Print(a[1..]), Print(b));
    }
  }
}
