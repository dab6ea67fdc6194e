/** The bytes a payload is checked over: decoding them as section 3 of RFC 3629 does gives the text back. */
module KhqrUtf8 {
  import opened Common
  import opened KhqrCrc
  import opened KhqrPayload
  import opened KhqrIntegrity

  // ---------------------------------------------------------------------------
  // Decoding
  // ---------------------------------------------------------------------------

  /** A continuation byte. */
  predicate Follows(b: nat) { 0x80 <= b < 0xC0 }

  function Continued(high: nat, b: nat): nat { 0x40 * high + b % 0x40 }

  /** The code point at the front of some byte values, and how many of them it takes. */
  function FirstPoint(v: seq<nat>): (r: Option<(nat, nat)>)
    ensures r.Some? ==> 0 < r.value.1 <= |v|
  {
    if v == [] then None
    else if v[0] < 0x80 then Some((v[0], 1))
    else if 0xC0 <= v[0] < 0xE0 && |v| >= 2 && Follows(v[1]) then Some((Continued(v[0] - 0xC0, v[1]), 2))
    else if 0xE0 <= v[0] < 0xF0 && |v| >= 3 && Follows(v[1]) && Follows(v[2]) then
      Some((Continued(Continued(v[0] - 0xE0, v[1]), v[2]), 3))
    else if 0xF0 <= v[0] < 0xF8 && |v| >= 4 && Follows(v[1]) && Follows(v[2]) && Follows(v[3]) then
      Some((Continued(Continued(Continued(v[0] - 0xF0, v[1]), v[2]), v[3]), 4))
    else None
  }

  /** The code points of some byte values, or nothing where they are malformed. */
  function Decode(v: seq<nat>): Option<seq<nat>>
    decreases |v|
  {
    if v == [] then Some([]) else
    var first := FirstPoint(v);
    if first.None? then None else
    var rest := Decode(v[first.value.1..]);
    if rest.None? then None else Some([first.value.0] + rest.value)
  }

  // ---------------------------------------------------------------------------
  // The round trip
  // ---------------------------------------------------------------------------

  function Numbers(bytes: seq<Byte>): (v: seq<nat>)
    ensures |v| == |bytes| && forall i :: 0 <= i < |v| ==> v[i] == Value(bytes[i])
  {
    seq(|bytes|, i requires 0 <= i < |bytes| => Value(bytes[i]))
  }

  lemma ByteWrites(n: nat)
    requires n < 0x100
    ensures Value(ByteOf(n)) == n
  {
    assert Pow2(4) == 16;
    assert Pow2(8) == 0x100;
    BinaryWrites(n, 8);
  }

  lemma BytesWrite(v: seq<nat>)
    requires forall i :: 0 <= i < |v| ==> v[i] < 0x100
    ensures Numbers(Bytes(v)) == v
  {
    forall i | 0 <= i < |v| ensures Numbers(Bytes(v))[i] == v[i] { ByteWrites(v[i]); }
  }

  /** Six bits of a code point at a time. */
  lemma SixBits(n: nat)
    ensures n / 0x1000 == n / 0x40 / 0x40 && n / 0x40000 == n / 0x1000 / 0x40
    ensures Continued(n / 0x40, 0x80 + n % 0x40) == n
  {}

  lemma ShortPoint(n: nat, rest: seq<nat>)
    requires n < 0x800
    ensures FirstPoint(Utf8Point(n) + rest) == Some((n, |Utf8Point(n)|))
  {
    SixBits(n);
  }

  lemma LongPoint(n: nat, rest: seq<nat>)
    requires 0x800 <= n < 0x110000
    ensures FirstPoint(Utf8Point(n) + rest) == Some((n, |Utf8Point(n)|))
  {
    SixBits(n);
    SixBits(n / 0x40);
    SixBits(n / 0x1000);
  }

  lemma FirstPointIs(n: nat, rest: seq<nat>)
    requires n < 0x110000
    ensures FirstPoint(Utf8Point(n) + rest) == Some((n, |Utf8Point(n)|))
    ensures forall i :: 0 <= i < |Utf8Point(n)| ==> Utf8Point(n)[i] < 0x100
  {
    if n < 0x800 { ShortPoint(n, rest); } else { LongPoint(n, rest); }
  }

  function Points(s: string): (points: seq<nat>)
    ensures |points| == |s| && forall i :: 0 <= i < |s| ==> points[i] == s[i] as int
  {
    seq(|s|, i requires 0 <= i < |s| => s[i] as int)
  }

  lemma DecodeMore(v: seq<nat>, n: nat, rest: seq<nat>, points: seq<nat>)
    requires v != [] && FirstPoint(v + rest) == Some((n, |v|)) && Decode(rest) == Some(points)
    ensures Decode(v + rest) == Some([n] + points)
  {
    assert (v + rest)[|v|..] == rest;
  }

  /** The byte values of a list of code points. */
  function Encoded(points: seq<nat>): seq<nat> {
    if points == [] then [] else Utf8Point(points[0]) + Encoded(points[1..])
  }

  lemma {:induction false} DecodeEncoded(points: seq<nat>)
    requires forall i :: 0 <= i < |points| ==> points[i] < 0x110000
    ensures Decode(Encoded(points)) == Some(points)
    decreases |points|
  {
    if points != [] {
      DecodeEncoded(points[1..]);
      PointThen(points[0], Encoded(points[1..]), points[1..]);
      assert points == [points[0]] + points[1..];
    }
  }

  lemma PointThen(n: nat, rest: seq<nat>, points: seq<nat>)
    requires n < 0x110000 && Decode(rest) == Some(points)
    ensures Decode(Utf8Point(n) + rest) == Some([n] + points)
  {
    FirstPointIs(n, rest);
    DecodeMore(Utf8Point(n), n, rest, points);
  }

  lemma NumbersConcat(v: seq<nat>, rest: seq<Byte>)
    requires forall i :: 0 <= i < |v| ==> v[i] < 0x100
    ensures Numbers(Bytes(v) + rest) == v + Numbers(rest)
  {
    BytesWrite(v);
  }

  lemma {:induction false} NumbersOfText(s: string)
    ensures Numbers(Utf8(s)) == Encoded(Points(s))
    decreases |s|
  {
    if s == [] {
      assert Numbers(Utf8(s)) == [] && Points(s) == [];
    } else {
      NumbersOfText(s[1..]);
      FirstPointIs(s[0] as int, []);
      NumbersConcat(Utf8Point(s[0] as int), Utf8(s[1..]));
      assert Points(s)[0] == s[0] as int && Points(s)[1..] == Points(s[1..]);
    }
  }

  /** The bytes of any text decode to its code points. */
  lemma Utf8Decodes(s: string)
    ensures Decode(Numbers(Utf8(s))) == Some(Points(s))
  {
    NumbersOfText(s);
    DecodeEncoded(Points(s));
  }

  /** Different texts have different bytes. */
  lemma Utf8Injective(a: string, b: string)
    requires Utf8(a) == Utf8(b)
    ensures a == b
  {
    Utf8Decodes(a);
    Utf8Decodes(b);
    forall i | 0 <= i < |a| ensures a[i] == b[i] { assert Points(a)[i] == Points(b)[i]; }
  }
}
