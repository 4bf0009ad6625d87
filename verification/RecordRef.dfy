/** Printable references to journal frames. */
module RecordRef {
  import opened Common

  // ---------- base 36 ----------

  predicate IsDigit(c: char) { '0' <= c <= '9' || 'a' <= c <= 'z' }

  predicate Digits(s: string) { forall i :: 0 <= i < |s| ==> IsDigit(s[i]) }

  function Digit(d: nat): (c: char)
    requires d < 36
    ensures IsDigit(c) && DigitValue(c) == d
  {
    if d < 10 then '0' + d as char else 'a' + (d - 10) as char
  }

  function DigitValue(c: char): nat
    requires IsDigit(c)
  {
    if c <= '9' then (c - '0') as nat else (c - 'a') as nat + 10
  }

  function ToBase36(n: nat): string {
    if n < 36 then [Digit(n)] else ToBase36(n / 36) + [Digit(n % 36)]
  }

  function FromBase36(s: string): nat
    requires Digits(s)
  {
    if s == [] then 0 else FromBase36(s[..|s| - 1]) * 36 + DigitValue(s[|s| - 1])
  }

  function Power36(k: nat): nat { if k == 0 then 1 else 36 * Power36(k - 1) }

  /** No digit is wasted: the only numeral that starts with zero is zero. */
  predicate Shortest(s: string) { s != [] && (s[0] == '0' ==> |s| == 1) }

  lemma {:induction false} Base36Numeral(n: nat)
    ensures Digits(ToBase36(n)) && FromBase36(ToBase36(n)) == n && Shortest(ToBase36(n))
    ensures n > 0 ==> ToBase36(n)[0] != '0'
  {
    if n >= 36 {
      Base36Numeral(n / 36);
      var s := ToBase36(n);
      assert s[..|s| - 1] == ToBase36(n / 36);
    }
  }

  lemma {:induction false} Base36Width(n: nat, k: nat)
    ensures k >= 1 ==> (|ToBase36(n)| <= k <==> n < Power36(k))
  {
    if k > 1 && n >= 36 {
      Base36Width(n / 36, k - 1);
      assert n == 36 * (n / 36) + n % 36;
    } else if k > 1 {
      PowerPositive(k - 1);
    }
  }

  lemma {:induction false} PowerPositive(k: nat)
    ensures Power36(k) >= 1
  {
    if k > 0 { PowerPositive(k - 1); }
  }

  lemma {:induction false} FromPositive(s: string)
    requires Digits(s) && s != [] && s[0] != '0'
    ensures FromBase36(s) > 0
  {
    if |s| > 1 { FromPositive(s[..|s| - 1]); }
  }

  lemma {:induction false} NumeralIsCanonical(s: string)
    requires Digits(s) && Shortest(s)
    ensures ToBase36(FromBase36(s)) == s
  {
    if |s| > 1 {
      var front := s[..|s| - 1];
      NumeralIsCanonical(front);
      FromPositive(front);
      DigitUnique(s[|s| - 1]);
      NumeralStep(FromBase36(front), DigitValue(s[|s| - 1]));
      assert s == front + [s[|s| - 1]];
    } else {
      assert s[..0] == [];
      DigitUnique(s[0]);
    }
  }

  lemma NumeralStep(q: nat, d: nat)
    requires q > 0 && d < 36
    ensures ToBase36(q * 36 + d) == ToBase36(q) + [Digit(d)]
  {
    assert (q * 36 + d) / 36 == q && (q * 36 + d) % 36 == d;
  }

  lemma DigitUnique(c: char)
    requires IsDigit(c)
    ensures DigitValue(c) < 36 && Digit(DigitValue(c)) == c
  {
  }

  /** The numeral as it is produced, least significant digit first. */
  method EncodeBase36(value: nat) returns (digits: string)
    ensures digits == ToBase36(value)
  {
    if value == 0 { return "0"; }
    digits := "";
    var left := value;
    while left != 0
      invariant left == 0 ==> digits == ToBase36(value)
      invariant left != 0 ==> ToBase36(left) + digits == ToBase36(value)
    {
      ghost var was := digits;
      digits := [Digit(left % 36)] + digits;
      assert left >= 36 ==> ToBase36(left / 36) + ([Digit(left % 36)] + was) == ToBase36(left) + was;
      left := left / 36;
    }
  }

  // ---------- writer identifiers ----------

  predicate Hex(s: string) { forall i :: 0 <= i < |s| ==> HexDigit(s[i]) }

  function Undashed(s: string): string {
    if s == [] then [] else (if s[0] == '-' then [] else [s[0]]) + Undashed(s[1..])
  }

  function Dashed(h: string): string
    requires |h| == 32
  {
    h[..8] + "-" + h[8..12] + "-" + h[12..16] + "-" + h[16..20] + "-" + h[20..]
  }

  lemma {:induction false} UndashAppend(a: string, b: string)
    ensures Undashed(a + b) == Undashed(a) + Undashed(b)
  {
    if a == [] {
      assert a + b == b;
    } else {
      assert (a + b)[1..] == a[1..] + b;
      UndashAppend(a[1..], b);
    }
  }

  lemma {:induction false} UndashHex(h: string)
    requires Hex(h)
    ensures Undashed(h) == h
  {
    if h != [] { UndashHex(h[1..]); }
  }

  lemma UndashGroup(h: string, rest: string)
    requires Hex(h)
    ensures Undashed(h + ("-" + rest)) == h + Undashed(rest)
  {
    UndashAppend(h, "-" + rest);
    UndashHex(h);
    UndashDash(rest);
  }

  lemma UndashDash(rest: string)
    ensures Undashed("-" + rest) == Undashed(rest)
  {
    var s := "-" + rest;
    assert s[0] == '-' && s[1..] == rest;
  }

  lemma UndashGroups(a: string, b: string, c: string, d: string, e: string)
    requires Hex(a) && Hex(b) && Hex(c) && Hex(d) && Hex(e)
    ensures Undashed(a + ("-" + (b + ("-" + (c + ("-" + (d + ("-" + e)))))))) == a + (b + (c + (d + e)))
  {
    UndashGroup(a, b + ("-" + (c + ("-" + (d + ("-" + e))))));
    UndashGroup(b, c + ("-" + (d + ("-" + e))));
    UndashGroup(c, d + ("-" + e));
    UndashGroup(d, e);
    UndashHex(e);
  }

  lemma DashGroups(a: string, b: string, c: string, d: string, e: string)
    requires |a| == 8 && |b| == |c| == |d| == 4 && |e| == 12
    ensures Dashed(a + (b + (c + (d + e)))) == a + ("-" + (b + ("-" + (c + ("-" + (d + ("-" + e)))))))
  {
    var h := a + (b + (c + (d + e)));
    assert h[..8] == a && h[8..12] == b && h[12..16] == c && h[16..20] == d && h[20..] == e;
  }

  lemma UuidRoundTrip(u: string)
    requires CanonicalUuid(u)
    ensures |Undashed(u)| == 32 && Hex(Undashed(u)) && Dashed(Undashed(u)) == u
  {
    var a, b, c, d, e := u[..8], u[9..13], u[14..18], u[19..23], u[24..];
    assert u == a + ("-" + (b + ("-" + (c + ("-" + (d + ("-" + e)))))));
    UndashGroups(a, b, c, d, e);
    DashGroups(a, b, c, d, e);
  }

  // ---------- references ----------

  /** A parsed reference; `prefix` is the first half of the frame checksum in hexadecimal. */
  datatype Ref = Ref(writer: string, segment: nat, offset: nat, length: nat, prefix: string)

  predicate WellFormed(r: Ref) { CanonicalUuid(r.writer) && |r.prefix| == 32 && Hex(r.prefix) }

  function Encode(r: Ref): string {
    ("w" + Undashed(r.writer)) + ("-" + (("s" + ToBase36(r.segment)) + ("-" + (("o" + ToBase36(r.offset))
      + ("-" + (("l" + ToBase36(r.length)) + ("-" + ("h" + r.prefix))))))))
  }

  /** The dash-separated fields of a text. */
  function Fields(s: string): seq<string> {
    if s == [] then [[]]
    else if s[0] == '-' then [[]] + Fields(s[1..])
    else var rest := Fields(s[1..]); [[s[0]] + rest[0]] + rest[1..]
  }

  predicate Tagged(field: string, tag: char, least: nat, most: nat) {
    |field| >= 1 && field[0] == tag && least <= |field| - 1 <= most
  }

  /** The reference pattern: five tagged fields of bounded width. */
  predicate Shape(f: seq<string>) {
    && |f| == 5
    && Tagged(f[0], 'w', 32, 32) && Hex(f[0][1..])
    && Tagged(f[1], 's', 1, 7) && Digits(f[1][1..])
    && Tagged(f[2], 'o', 1, 13) && Digits(f[2][1..])
    && Tagged(f[3], 'l', 1, 13) && Digits(f[3][1..])
    && Tagged(f[4], 'h', 32, 32) && Hex(f[4][1..])
  }

  function Parse(text: string): Option<Ref> {
    var f := Fields(text);
    if !Shape(f) then None
    else Some(Ref(Dashed(f[0][1..]), FromBase36(f[1][1..]), FromBase36(f[2][1..]), FromBase36(f[3][1..]), f[4][1..]))
  }

  lemma {:induction false} FieldAlone(a: string)
    requires '-' !in a
    ensures Fields(a) == [a]
  {
    if a != [] {
      FieldAlone(a[1..]);
      assert a == [a[0]] + a[1..];
    }
  }

  lemma {:induction false} FieldFirst(a: string, b: string)
    requires '-' !in a
    ensures Fields(a + ("-" + b)) == [a] + Fields(b)
  {
    var all := a + ("-" + b);
    if a == [] {
      assert all == "-" + b && all[1..] == b;
    } else {
      assert all[1..] == a[1..] + ("-" + b);
      FieldFirst(a[1..], b);
      assert a == [a[0]] + a[1..];
    }
  }

  lemma EncodeFields(r: Ref)
    requires WellFormed(r)
    ensures Fields(Encode(r)) == ["w" + Undashed(r.writer), "s" + ToBase36(r.segment), "o" + ToBase36(r.offset),
                                  "l" + ToBase36(r.length), "h" + r.prefix]
  {
    UuidRoundTrip(r.writer);
    PlainField("w", Undashed(r.writer));
    PlainNumeral("s", r.segment);
    PlainNumeral("o", r.offset);
    PlainNumeral("l", r.length);
    PlainField("h", r.prefix);
    FiveFields("w" + Undashed(r.writer), "s" + ToBase36(r.segment), "o" + ToBase36(r.offset), "l" + ToBase36(r.length),
      "h" + r.prefix);
  }

  lemma PlainField(tag: string, text: string)
    requires '-' !in tag && (Digits(text) || Hex(text))
    ensures '-' !in tag + text
  {
  }

  lemma PlainNumeral(tag: string, n: nat)
    requires '-' !in tag
    ensures '-' !in tag + ToBase36(n)
  {
    Base36Numeral(n);
    PlainField(tag, ToBase36(n));
  }

  lemma FiveFields(w: string, s: string, o: string, l: string, h: string)
    requires '-' !in w && '-' !in s && '-' !in o && '-' !in l && '-' !in h
    ensures Fields(w + ("-" + (s + ("-" + (o + ("-" + (l + ("-" + h)))))))) == [w, s, o, l, h]
  {
    FieldAlone(h);
    FieldFirst(l, h);
    FieldFirst(o, l + ("-" + h));
    FieldFirst(s, o + ("-" + (l + ("-" + h))));
    FieldFirst(w, s + ("-" + (o + ("-" + (l + ("-" + h))))));
  }

  predicate FitsFields(r: Ref) { r.segment < Power36(7) && r.offset < Power36(13) && r.length < Power36(13) }

  /** An encoded reference parses back to itself exactly when its numbers fit the fields. */
  lemma ParseInvertsEncode(r: Ref)
    requires WellFormed(r)
    ensures Parse(Encode(r)) == if FitsFields(r) then Some(r) else None
  {
    EncodeFields(r);
    var s, o, l := ToBase36(r.segment), ToBase36(r.offset), ToBase36(r.length);
    NumeralFits(r.segment, 7);
    NumeralFits(r.offset, 13);
    NumeralFits(r.length, 13);
    if FitsFields(r) {
      FieldsParse(Encode(r), r, s, o, l);
    } else {
      WideFieldsFail(Encode(r), s, o, l);
    }
  }

  lemma NumeralFits(n: nat, width: nat)
    requires width >= 1
    ensures var s := ToBase36(n); Digits(s) && |s| >= 1 && FromBase36(s) == n && (|s| <= width <==> n < Power36(width))
  {
    Base36Numeral(n);
    Base36Width(n, width);
  }

  lemma WideFieldsFail(text: string, s: string, o: string, l: string)
    requires var f := Fields(text); |f| == 5 && f[1] == "s" + s && f[2] == "o" + o && f[3] == "l" + l
    requires |s| > 7 || |o| > 13 || |l| > 13
    ensures Parse(text).None?
  {
  }

  /** Five tagged fields parse to what they spell. */
  lemma FieldsParse(text: string, r: Ref, s: string, o: string, l: string)
    requires WellFormed(r) && Fields(text) == ["w" + Undashed(r.writer), "s" + s, "o" + o, "l" + l, "h" + r.prefix]
    requires 1 <= |s| <= 7 && 1 <= |o| <= 13 && 1 <= |l| <= 13 && Digits(s) && Digits(o) && Digits(l)
    requires FromBase36(s) == r.segment && FromBase36(o) == r.offset && FromBase36(l) == r.length
    ensures Parse(text) == Some(r)
  {
    UuidRoundTrip(r.writer);
    var f := Fields(text);
    assert f[0][1..] == Undashed(r.writer) && f[1][1..] == s && f[2][1..] == o && f[3][1..] == l
      && f[4][1..] == r.prefix;
  }

  /** Seven digits hold every segment number a writer may open, thirteen every 64-bit size. */
  lemma FieldsAreWideEnough()
    ensures Power36(7) > 0x1_0000_0000 && Power36(13) > 0x1_0000_0000_0000_0000
  {
    assert Power36(3) == 46656;
    assert Power36(6) == 46656 * Power36(3) by { assert Power36(4) == 36 * Power36(3); }
    assert Power36(7) == 36 * Power36(6);
    assert Power36(9) == 1296 * Power36(7);
    assert Power36(12) == 46656 * Power36(9) by { assert Power36(10) == 36 * Power36(9); }
    assert Power36(13) == 36 * Power36(12);
  }

  /** Different references never share a text. */
  lemma EncodeInjective(a: Ref, b: Ref)
    requires WellFormed(a) && WellFormed(b) && Encode(a) == Encode(b)
    ensures a == b
  {
    EncodeFields(a);
    EncodeFields(b);
    var f := Fields(Encode(a));
    assert f[0][1..] == Undashed(a.writer) == Undashed(b.writer);
    assert f[1][1..] == ToBase36(a.segment) == ToBase36(b.segment);
    assert f[2][1..] == ToBase36(a.offset) == ToBase36(b.offset);
    assert f[3][1..] == ToBase36(a.length) == ToBase36(b.length);
    assert f[4][1..] == a.prefix == b.prefix;
    UuidRoundTrip(a.writer);
    UuidRoundTrip(b.writer);
    Base36Numeral(a.segment);
    Base36Numeral(b.segment);
    Base36Numeral(a.offset);
    Base36Numeral(b.offset);
    Base36Numeral(a.length);
    Base36Numeral(b.length);
  }

  lemma {:induction false} FieldsRejoin(s: string)
    ensures Fields(s) != [] && Rejoined(Fields(s)) == s
    ensures forall i :: 0 <= i < |Fields(s)| ==> '-' !in Fields(s)[i]
  {
    if s != [] {
      FieldsRejoin(s[1..]);
      var rest := Fields(s[1..]);
      assert rest == [rest[0]] + rest[1..];
      assert s == [s[0]] + s[1..];
    }
  }

  function Rejoined(f: seq<string>): string
    requires f != []
  {
    if |f| == 1 then f[0] else f[0] + ("-" + Rejoined(f[1..]))
  }

  /** The parser is more liberal than its description: it also accepts numerals with leading zeros,
      and those references, and only those, are not the canonical text of what they parse to. */
  lemma CanonicalIffShortest(text: string)
    requires Parse(text).Some?
    ensures WellFormed(Parse(text).value)
    ensures Encode(Parse(text).value) == text <==>
      var f := Fields(text); Shortest(f[1][1..]) && Shortest(f[2][1..]) && Shortest(f[3][1..])
  {
    var f := Fields(text);
    var r := Parse(text).value;
    FieldsRejoin(text);
    DashedIsCanonical(f[0][1..]);
    EncodeFields(r);
    var g := Fields(Encode(r));
    FieldsRejoin(Encode(r));
    assert f[0] == "w" + f[0][1..] && f[4] == "h" + f[4][1..];
    NumeralField(f[1], r.segment, 's');
    NumeralField(f[2], r.offset, 'o');
    NumeralField(f[3], r.length, 'l');
    if Shortest(f[1][1..]) && Shortest(f[2][1..]) && Shortest(f[3][1..]) {
      assert f == g;
    }
  }

  lemma NumeralField(field: string, n: nat, tag: char)
    requires |field| > 1 && field[0] == tag && Digits(field[1..]) && n == FromBase36(field[1..])
    ensures field == [tag] + ToBase36(n) <==> Shortest(field[1..])
  {
    Base36Numeral(n);
    if Shortest(field[1..]) {
      NumeralIsCanonical(field[1..]);
      assert field == [tag] + field[1..];
    } else {
      assert ([tag] + ToBase36(n))[1..] == ToBase36(n);
    }
  }

  lemma DashedIsCanonical(h: string)
    requires |h| == 32 && Hex(h)
    ensures CanonicalUuid(Dashed(h)) && Undashed(Dashed(h)) == h
  {
    var a, b, c, d, e := h[..8], h[8..12], h[12..16], h[16..20], h[20..];
    assert h == a + (b + (c + (d + e)));
    DashGroups(a, b, c, d, e);
    UndashGroups(a, b, c, d, e);
  }

  /** The text of a reference with a zero put before its segment number. */
  function Padded(r: Ref): string {
    ("w" + Undashed(r.writer)) + ("-" + (("s0" + ToBase36(r.segment)) + ("-" + (("o" + ToBase36(r.offset))
      + ("-" + (("l" + ToBase36(r.length)) + ("-" + ("h" + r.prefix))))))))
  }

  lemma {:induction false} LeadingZero(s: string)
    requires Digits(s)
    ensures Digits("0" + s) && FromBase36("0" + s) == FromBase36(s)
  {
    var padded := "0" + s;
    if s == [] {
      assert padded[..0] == [];
    } else {
      LeadingZero(s[..|s| - 1]);
      assert padded[..|padded| - 1] == "0" + s[..|s| - 1];
    }
  }

  lemma PaddedFields(r: Ref)
    requires WellFormed(r)
    ensures Fields(Padded(r)) == ["w" + Undashed(r.writer), "s0" + ToBase36(r.segment), "o" + ToBase36(r.offset),
                                  "l" + ToBase36(r.length), "h" + r.prefix]
  {
    UuidRoundTrip(r.writer);
    PlainField("w", Undashed(r.writer));
    PlainNumeral("s0", r.segment);
    PlainNumeral("o", r.offset);
    PlainNumeral("l", r.length);
    PlainField("h", r.prefix);
    FiveFields("w" + Undashed(r.writer), "s0" + ToBase36(r.segment), "o" + ToBase36(r.offset), "l" + ToBase36(r.length),
      "h" + r.prefix);
  }

  lemma PaddedDiffers(r: Ref)
    requires WellFormed(r)
    ensures Padded(r) != Encode(r)
  {
    PaddedFields(r);
    EncodeFields(r);
    var s := ToBase36(r.segment);
    assert Fields(Padded(r))[1] == "s0" + s && Fields(Encode(r))[1] == "s" + s && |"s0" + s| != |"s" + s|;
  }

  /** Every reference with a segment number of at most six digits has such a second text, which the
      parser takes for the same reference. */
  lemma PaddedParsesToo(r: Ref)
    requires WellFormed(r) && r.segment < Power36(6) && r.offset < Power36(13) && r.length < Power36(13)
    ensures Parse(Padded(r)) == Some(r) && Padded(r) != Encode(r)
  {
    PaddedDiffers(r);
    PaddedFields(r);
    var s, o, l := ToBase36(r.segment), ToBase36(r.offset), ToBase36(r.length);
    NumeralFits(r.segment, 6);
    NumeralFits(r.offset, 13);
    NumeralFits(r.length, 13);
    LeadingZero(s);
    assert "s0" + s == "s" + ("0" + s);
    FieldsParse(Padded(r), r, "0" + s, o, l);
  }

  /** For one, the first frame of the first segment of writer 0. */
  const EXAMPLE := Ref("00000000-0000-0000-0000-000000000000", 0, 12, 2, "00000000000000000000000000000000")

  lemma ExampleIsWellFormed()
    ensures WellFormed(EXAMPLE)
  {
    var u, h := EXAMPLE.writer, EXAMPLE.prefix;
    assert |u| == 36 && |h| == 32;
    assert forall i :: 0 <= i < 32 ==> h[i] == '0';
  }

  /** Written with the segment number "00" it is accepted as well. */
  lemma PaddedExample()
    ensures Parse(Padded(EXAMPLE)) == Some(EXAMPLE) && Padded(EXAMPLE) != Encode(EXAMPLE)
  {
    ExampleIsWellFormed();
    ExampleFits(EXAMPLE);
    PaddedParsesToo(EXAMPLE);
  }

  lemma ExampleFits(r: Ref)
    requires r.segment == 0 && r.offset == 12 && r.length == 2
    ensures r.segment < Power36(6) && r.offset < Power36(13) && r.length < Power36(13)
  {
    PowerPositive(6);
    FieldsAreWideEnough();
  }
}
