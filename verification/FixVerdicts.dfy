/** What the FIX parser accepts (risk/src/fix.rs), said without its own functions: which bytes are text,
    which text is a number, and exactly which messages pass. */
module FixVerdicts {
  import opened Orders
  import opened Wire
  import opened Fix
  import opened FixLaws

  // ----- text -----

  /** A Unicode scalar value: a code point that is no surrogate. */
  predicate Scalar(c: nat) {
    c < 0xD800 || 0xE000 <= c < 0x110000
  }

  /** Its UTF-8 encoding (section 3 of RFC 3629). */
  function Encoded(c: nat): (s: Bytes)
    requires Scalar(c)
    ensures 1 <= |s| <= 4
  {
    if c < 0x80 then [c]
    else if c < 0x800 then [0xC0 + c / 64, 0x80 + c % 64]
    else if c < 0x1_0000 then [0xE0 + c / 4096, 0x80 + c / 64 % 64, 0x80 + c % 64]
    else [0xF0 + c / 262144, 0x80 + c / 4096 % 64, 0x80 + c / 64 % 64, 0x80 + c % 64]
  }

  lemma CharacterRead(c: nat, rest: Bytes)
    requires Scalar(c)
    ensures CharLength(Encoded(c) + rest) == |Encoded(c)|
  {
    var s, e := Encoded(c) + rest, Encoded(c);
    assert s[0] == e[0];
    if c < 0x80 {
    } else if c < 0x800 {
      assert s[1] == e[1];
    } else if c < 0x1_0000 {
      assert s[1] == e[1] && s[2] == e[2];
      ThreeBytesFit(c);
    } else {
      assert s[1] == e[1] && s[2] == e[2] && s[3] == e[3];
      FourBytesFit(c);
    }
  }

  lemma ThreeBytesFit(c: nat)
    requires Scalar(c) && 0x800 <= c < 0x1_0000
    ensures 0xE0 <= 0xE0 + c / 4096 < 0xF0
    ensures c / 4096 == 0 ==> c / 64 % 64 >= 0x20
    ensures c / 4096 == 13 ==> c / 64 % 64 < 0x20
  {
  }

  lemma FourBytesFit(c: nat)
    requires 0x1_0000 <= c < 0x11_0000
    ensures 0xF0 <= 0xF0 + c / 262144 < 0xF5
    ensures c / 262144 == 0 ==> c / 4096 % 64 >= 0x10
    ensures c / 262144 == 4 ==> c / 4096 % 64 < 0x10
  {
  }

  lemma TwoByteCharacter(a: Byte, b: Byte) returns (c: nat)
    requires 0xC2 <= a < 0xE0 && 0x80 <= b < 0xC0
    ensures Scalar(c) && Encoded(c) == [a, b]
  {
    c := (a - 0xC0) * 64 + (b - 0x80);
    assert c / 64 == a - 0xC0 && c % 64 == b - 0x80;
  }

  lemma ThreeByteCharacter(x: Byte, y: Byte, z: Byte) returns (c: nat)
    requires 0xE0 <= x < 0xF0 && 0x80 <= y < 0xC0 && 0x80 <= z < 0xC0
    requires (x == 0xE0 ==> y >= 0xA0) && (x == 0xED ==> y < 0xA0)
    ensures Scalar(c) && Encoded(c) == [x, y, z]
  {
    var high := (x - 0xE0) * 64 + (y - 0x80);
    c := high * 64 + (z - 0x80);
    assert high / 64 == x - 0xE0 && high % 64 == y - 0x80;
    assert c / 64 == high && c % 64 == z - 0x80 && c / 4096 == x - 0xE0;
  }

  lemma FourByteCharacter(w: Byte, x: Byte, y: Byte, z: Byte) returns (c: nat)
    requires 0xF0 <= w < 0xF5 && 0x80 <= x < 0xC0 && 0x80 <= y < 0xC0 && 0x80 <= z < 0xC0
    requires (w == 0xF0 ==> x >= 0x90) && (w == 0xF4 ==> x < 0x90)
    ensures Scalar(c) && Encoded(c) == [w, x, y, z]
  {
    var high := (w - 0xF0) * 64 + (x - 0x80);
    var middle := high * 64 + (y - 0x80);
    c := middle * 64 + (z - 0x80);
    assert high / 64 == w - 0xF0 && high % 64 == x - 0x80;
    assert middle / 64 == high && middle % 64 == y - 0x80;
    assert c / 64 == middle && c % 64 == z - 0x80 && c / 4096 == high && c / 262144 == w - 0xF0;
  }

  /** What is taken for a character is the encoding of one. */
  lemma CharacterIs(s: Bytes) returns (c: nat)
    requires CharLength(s) > 0
    ensures Scalar(c) && s[..CharLength(s)] == Encoded(c)
  {
    var n := CharLength(s);
    if n == 1 {
      c := s[0];
    } else if n == 2 {
      c := TwoByteCharacter(s[0], s[1]);
    } else if n == 3 {
      c := ThreeByteCharacter(s[0], s[1], s[2]);
    } else {
      c := FourByteCharacter(s[0], s[1], s[2], s[3]);
    }
  }

  function EncodedAll(text: seq<nat>): Bytes
    requires forall i :: 0 <= i < |text| ==> Scalar(text[i])
  {
    if text == [] then [] else Encoded(text[0]) + EncodedAll(text[1..])
  }

  lemma {:induction false} EncodedIsText(text: seq<nat>)
    requires forall i :: 0 <= i < |text| ==> Scalar(text[i])
    ensures Utf8(EncodedAll(text))
  {
    if text != [] {
      var s, rest := EncodedAll(text), EncodedAll(text[1..]);
      CharacterRead(text[0], rest);
      EncodedIsText(text[1..]);
      assert s[|Encoded(text[0])|..] == rest;
    }
  }

  lemma {:induction false} TextIsEncoded(s: Bytes) returns (text: seq<nat>)
    requires Utf8(s)
    ensures (forall i :: 0 <= i < |text| ==> Scalar(text[i])) && EncodedAll(text) == s
    decreases |s|
  {
    if s == [] {
      text := [];
    } else {
      var c := CharacterIs(s);
      var more := TextIsEncoded(s[CharLength(s)..]);
      text := [c] + more;
      Rejoined(s, CharLength(s), c, more);
    }
  }

  lemma Rejoined(s: Bytes, n: nat, c: nat, more: seq<nat>)
    requires Scalar(c) && (forall i :: 0 <= i < |more| ==> Scalar(more[i]))
    requires n <= |s| && s[..n] == Encoded(c) && s[n..] == EncodedAll(more)
    ensures (forall i :: 0 <= i < |[c] + more| ==> Scalar(([c] + more)[i])) && EncodedAll([c] + more) == s
  {
    EncodedCons(c, more);
    assert s == s[..n] + s[n..];
  }

  lemma EncodedCons(c: nat, more: seq<nat>)
    requires Scalar(c) && forall i :: 0 <= i < |more| ==> Scalar(more[i])
    ensures forall i :: 0 <= i < |[c] + more| ==> Scalar(([c] + more)[i])
    ensures EncodedAll([c] + more) == Encoded(c) + EncodedAll(more)
  {
    assert ([c] + more)[1..] == more;
  }

  /** The bytes taken for text are exactly the encodings of sequences of scalar values. */
  lemma TextExactly(s: Bytes)
    ensures Utf8(s) <==> exists text: seq<nat> :: (forall i :: 0 <= i < |text| ==> Scalar(text[i])) && EncodedAll(text) == s
  {
    if Utf8(s) {
      var text := TextIsEncoded(s);
    }
    if text: seq<nat> :| (forall i :: 0 <= i < |text| ==> Scalar(text[i])) && EncodedAll(text) == s {
      EncodedIsText(text);
    }
  }

  // ----- numbers -----

  /** A number is read from digits, one plus sign in front of them or none, if it is no larger than its
      type allows; leading zeros are allowed, nothing else is. */
  lemma NumberExactly(digits: Bytes, max: nat)
    requires AllDigits(digits) && digits != []
    ensures ParseUnsigned(digits, max) == if Number(digits) <= max then Some(Number(digits)) else None
    ensures ParseUnsigned([43] + digits, max) == ParseUnsigned(digits, max)
  {
    assert ([43] + digits)[1..] == digits;
  }

  lemma NoNumber(s: Bytes, max: nat)
    requires !exists digits :: digits != [] && AllDigits(digits) && (s == digits || s == [43] + digits)
    ensures ParseUnsigned(s, max) == None
  {
    if s != [] && s[0] == PLUS {
      assert s == [43] + s[1..];
    }
  }

  /** A number is worth its digits, the last one the units. */
  lemma NumberIs(digits: Bytes, d: Byte)
    requires AllDigits(digits) && 48 <= d < 58
    ensures Number([]) == 0
    ensures AllDigits(digits + [d]) && Number(digits + [d]) == 10 * Number(digits) + (d - 48)
  {
    assert (digits + [d])[..|digits|] == digits;
  }

  // ----- delimiters -----

  /** The delimiter positions are the positions of byte 1, in order. */
  lemma {:induction false} DelimitersAre(s: Bytes, at: nat)
    ensures var p := SohPositions(s, at);
      && (forall i :: 0 <= i < |s| ==> (s[i] == 1 <==> at + i in p))
      && (forall k :: 0 <= k < |p| ==> at <= p[k] < at + |s|)
      && (forall j, k :: 0 <= j < k < |p| ==> p[j] < p[k])
  {
    if s != [] {
      DelimitersAre(s[1..], at + 1);
      DelimiterFirst(s, at);
    }
  }

  lemma DelimiterFirst(s: Bytes, at: nat)
    requires s != []
    requires var p := SohPositions(s[1..], at + 1);
      && (forall i :: 0 <= i < |s| - 1 ==> (s[1..][i] == 1 <==> at + 1 + i in p))
      && (forall k :: 0 <= k < |p| ==> at + 1 <= p[k] < at + |s|)
      && (forall j, k :: 0 <= j < k < |p| ==> p[j] < p[k])
    ensures var p := SohPositions(s, at);
      && (forall i :: 0 <= i < |s| ==> (s[i] == 1 <==> at + i in p))
      && (forall k :: 0 <= k < |p| ==> at <= p[k] < at + |s|)
      && (forall j, k :: 0 <= j < k < |p| ==> p[j] < p[k])
  {
    var tail, p := SohPositions(s[1..], at + 1), SohPositions(s, at);
    assert p == (if s[0] == 1 then [at] else []) + tail;
    forall i | 0 <= i < |s| ensures s[i] == 1 <==> at + i in p {
      if i == 0 {
        assert at !in tail;
      } else {
        assert s[i] == s[1..][i - 1] && at + i == at + 1 + (i - 1);
      }
    }
  }

  // ----- the trailer -----

  /** The checks up to the checksum pass exactly for text with three delimiters whose last checksum
      field starts at marker and begins with three bytes, a character ending with them, that are a
      number with the sum of all bytes up to the marker, modulo 256. */
  lemma TrailerAcceptedExactlyWhen(raw: Bytes, marker: nat)
    ensures CheckTrailer(raw) == Ok(marker) <==>
      && Utf8(raw) && |SohPositions(raw, 0)| >= 3 && marker + 7 <= |raw|
      && raw[marker] == 1 && raw[marker + 1] == 49 && raw[marker + 2] == 48 && raw[marker + 3] == 61
      && (forall j :: marker < j < |raw| - 3 ==> !(raw[j] == 1 && raw[j + 1] == 49 && raw[j + 2] == 48 && raw[j + 3] == 61))
      && (marker + 7 < |raw| ==> !(0x80 <= raw[marker + 7] < 0xC0))
      && var parsed := ParseUnsigned(raw[marker + 4..marker + 7], 0xFFFF_FFFF);
         parsed.Some? && parsed.value % 256 == Sum(raw[..marker + 1]) % 256
  {
    MarkerIsLast(raw, marker);
    TrailerAt(raw, marker);
  }

  lemma MarkerIsLast(raw: Bytes, marker: nat)
    ensures LastMarker(raw) == Some(marker) <==>
      && marker + 4 <= |raw|
      && raw[marker] == 1 && raw[marker + 1] == 49 && raw[marker + 2] == 48 && raw[marker + 3] == 61
      && forall j :: marker < j < |raw| - 3 ==> !(raw[j] == 1 && raw[j + 1] == 49 && raw[j + 2] == 48 && raw[j + 3] == 61)
  {
    var last := LastMarker(raw);
    if last == Some(marker) {
      forall j | marker < j < |raw| - 3
        ensures !(raw[j] == 1 && raw[j + 1] == 49 && raw[j + 2] == 48 && raw[j + 3] == 61)
      {
        assert !MarkerAt(raw, j);
      }
    } else if last == None || last.value < marker {
      assert marker < |raw| ==> !MarkerAt(raw, marker);
    } else {
      assert MarkerAt(raw, last.value) && raw[last.value] == 1;
    }
  }

  /** The three bytes behind the marker are a number with the sum of the bytes up to it, modulo 256. */
  predicate SumAgrees(raw: Bytes, marker: nat)
    requires marker + 7 <= |raw|
  {
    var parsed := ParseUnsigned(raw[marker + 4..marker + 7], 0xFFFF_FFFF);
    parsed.Some? && parsed.value % 256 == Sum(raw[..marker + 1]) % 256
  }

  lemma TrailerAt(raw: Bytes, marker: nat)
    ensures CheckTrailer(raw) == Ok(marker) <==>
      && Utf8(raw) && |SohPositions(raw, 0)| >= 3 && LastMarker(raw) == Some(marker) && marker + 7 <= |raw|
      && (marker + 7 < |raw| ==> !(0x80 <= raw[marker + 7] < 0xC0)) && SumAgrees(raw, marker)
  {
    if CheckTrailer(raw) == Ok(marker) {
      TrailerNeeds(raw, marker);
    }
    if Utf8(raw) && |SohPositions(raw, 0)| >= 3 && LastMarker(raw) == Some(marker) && marker + 7 <= |raw| {
      TrailerSum(raw, marker);
    }
  }

  lemma TrailerNeeds(raw: Bytes, marker: nat)
    requires CheckTrailer(raw) == Ok(marker)
    ensures Utf8(raw) && |SohPositions(raw, 0)| >= 3 && LastMarker(raw) == Some(marker) && marker + 7 <= |raw|
  {
  }

  lemma TrailerSum(raw: Bytes, marker: nat)
    requires Utf8(raw) && |SohPositions(raw, 0)| >= 3 && LastMarker(raw) == Some(marker) && marker + 7 <= |raw|
    ensures CheckTrailer(raw) == Ok(marker) <==>
      (marker + 7 < |raw| ==> !(0x80 <= raw[marker + 7] < 0xC0)) && SumAgrees(raw, marker)
  {
    var digits := raw[marker + 4..marker + 7];
    TrailerNumber(raw, marker, digits, ParseUnsigned(digits, U32_MAX), Checksum(raw[..marker + 1]));
  }

  lemma TrailerNumber(raw: Bytes, marker: nat, digits: Bytes, parsed: Option<nat>, sum: Byte)
    requires Utf8(raw) && |SohPositions(raw, 0)| >= 3 && LastMarker(raw) == Some(marker) && marker + 7 <= |raw|
    requires digits == raw[marker + 4..marker + 4 + 3] && parsed == ParseUnsigned(digits, U32_MAX)
    requires sum == Checksum(raw[..marker + 1])
    ensures CheckTrailer(raw) == Ok(marker) <==>
      (marker + 7 < |raw| ==> !(0x80 <= raw[marker + 7] < 0xC0)) && parsed.Some? && parsed.value % 256 == sum
  {
  }

  // ----- the fields -----

  predicate Has(fields: seq<Field>, tag: nat) {
    exists i :: 0 <= i < |fields| && fields[i].tag == tag
  }

  /** The value of a tag is that of its first field. */
  lemma {:induction false} ValueIsFirst(fields: seq<Field>, tag: nat)
    ensures ValueOf(fields, tag) == None <==> !Has(fields, tag)
    ensures ValueOf(fields, tag) != None ==>
      exists i :: 0 <= i < |fields| && fields[i] == Field(tag, ValueOf(fields, tag).value)
                  && forall j :: 0 <= j < i ==> fields[j].tag != tag
  {
    if Has(fields, tag) {
      var i := FirstWith(fields, tag);
      GetFirst(fields, i);
      assert fields[i] == Field(tag, ValueOf(fields, tag).value);
    } else {
      GetNone(fields, tag);
    }
  }

  lemma {:induction false} FirstWith(fields: seq<Field>, tag: nat) returns (i: nat)
    requires Has(fields, tag)
    ensures i < |fields| && fields[i].tag == tag && forall j :: 0 <= j < i ==> fields[j].tag != tag
  {
    i := 0;
    while fields[i].tag != tag
      invariant i < |fields| && forall j :: 0 <= j < i ==> fields[j].tag != tag
      decreases |fields| - i
    {
      assert exists j :: i < j < |fields| && fields[j].tag == tag;
      i := i + 1;
    }
  }

  /** The tags pass exactly when the message type is D, the five required tags are there, and a limit
      order has a price. */
  lemma TagsAcceptedExactlyWhen(fields: seq<Field>)
    ensures CheckTags(fields).Ok? <==>
      && ValueOf(fields, 35) == Some([68])
      && Has(fields, 11) && Has(fields, 55) && Has(fields, 54) && Has(fields, 38) && Has(fields, 40)
      && (ValueOf(fields, 40) == Some([50]) ==> Has(fields, 44))
    ensures CheckTags(fields).Ok? ==> CheckTags(fields) == Ok(fields)
    ensures !CheckTags(fields).Panic?
  {
    ValueIsFirst(fields, 11);
    ValueIsFirst(fields, 55);
    ValueIsFirst(fields, 54);
    ValueIsFirst(fields, 38);
    ValueIsFirst(fields, 40);
    ValueIsFirst(fields, 44);
    RequiredAre(fields);
  }

  lemma RequiredAre(fields: seq<Field>)
    ensures FirstMissing(fields, REQUIRED) == None <==>
      && ValueOf(fields, 11) != None && ValueOf(fields, 55) != None && ValueOf(fields, 54) != None
      && ValueOf(fields, 38) != None && ValueOf(fields, 40) != None
  {
    MissingCons(fields, 11, [55, 54, 38, 40]);
    MissingCons(fields, 55, [54, 38, 40]);
    MissingCons(fields, 54, [38, 40]);
    MissingCons(fields, 38, [40]);
    MissingCons(fields, 40, []);
    assert [11] + [55, 54, 38, 40] == REQUIRED && [55] + [54, 38, 40] == [55, 54, 38, 40];
    assert [54] + [38, 40] == [54, 38, 40] && [38] + [40] == [38, 40] && [40] + [] == [40];
  }

  lemma MissingCons(fields: seq<Field>, tag: nat, tags: seq<nat>)
    ensures FirstMissing(fields, [tag] + tags) == if ValueOf(fields, tag) == None then Some(tag) else FirstMissing(fields, tags)
  {
    assert ([tag] + tags)[1..] == tags;
  }

  // ----- the whole message -----

  lemma BodyCountAs(profile: Profile, marker: nat, second: nat)
    requires second <= marker <= second + USIZE_MAX
    ensures BodyCount(profile, marker, second + 1)
         == if profile == Checked && marker == second then None else Some(marker - second)
  {
    BodyCountIs(profile, marker, second + 1);
  }

  /** The verdict when the number in the second field should be the count of the bytes between the second
      delimiter and the checksum field, the delimiter in front of that included. */
  predicate CountVerdict(profile: Profile, raw: Bytes, marker: nat, fields: seq<Field>, second: nat)
    requires |SohPositions(raw, 0)| >= 3 && |fields| >= 2 && second <= marker
  {
    var declared := ParseUnsigned(fields[1].value, 0xFFFF_FFFF_FFFF_FFFF);
    CheckFields(profile, raw, marker, fields)
    == if declared == None then Err(MalformedField(9))
       else if profile == Checked && marker == second then Panic
       else if declared.value != marker - second then Err(BodyLengthMismatch(declared.value, marker - second))
       else CheckTags(fields)
  }

  lemma CountExactlyWhen(profile: Profile, raw: Bytes, marker: nat, fields: seq<Field>)
    requires |raw| <= USIZE_MAX && marker < |raw| && Placed(raw, marker, fields)
    requires |fields| >= 2 && fields[0].tag == 8 && fields[1].tag == 9
    ensures CountVerdict(profile, raw, marker, fields, SohPositions(raw, 0)[1])
  {
    var second := SohPositions(raw, 0)[1];
    BodyCountAs(profile, marker, second);
    FieldsJudged(profile, raw, marker, fields, second);
  }

  lemma FieldsJudged(profile: Profile, raw: Bytes, marker: nat, fields: seq<Field>, second: nat)
    requires |SohPositions(raw, 0)| >= 3 && SohPositions(raw, 0)[1] == second <= marker
    requires |fields| >= 2 && fields[0].tag == 8 && fields[1].tag == 9
    requires BodyCount(profile, marker, second + 1)
          == if profile == Checked && marker == second then None else Some(marker - second)
    ensures CountVerdict(profile, raw, marker, fields, second)
  {
  }

  /** A message with a good trailer whose pieces are fields is accepted exactly when it begins with
      tags 8 and 9, the number in field 9 is the byte count, which in a build that checks overflow is
      not zero, and the tags of a NewOrderSingle are there. */
  lemma AcceptedExactlyWhen(profile: Profile, raw: Bytes, marker: nat, fields: seq<Field>)
    requires |raw| <= USIZE_MAX
    requires CheckTrailer(raw) == Ok(marker) && ParseFields(Split(raw)) == Ok(fields)
    ensures |SohPositions(raw, 0)| >= 3
    ensures Validate(profile, raw).Ok? <==>
      && |fields| >= 2 && fields[0].tag == 8 && fields[1].tag == 9
      && ParseUnsigned(fields[1].value, 0xFFFF_FFFF_FFFF_FFFF).Some?
      && ParseUnsigned(fields[1].value, 0xFFFF_FFFF_FFFF_FFFF).value == marker - SohPositions(raw, 0)[1]
      && (profile == Checked ==> marker > SohPositions(raw, 0)[1])
      && ValueOf(fields, 35) == Some([68])
      && Has(fields, 11) && Has(fields, 55) && Has(fields, 54) && Has(fields, 38) && Has(fields, 40)
      && (ValueOf(fields, 40) == Some([50]) ==> Has(fields, 44))
    ensures Validate(profile, raw).Ok? ==> Validate(profile, raw) == Ok(fields)
  {
    VerdictOf(profile, raw, Ok(marker), fields);
    TagsAcceptedExactlyWhen(fields);
    GoodIsPlaced(raw);
    GoodMarker(raw, marker);
    if |fields| >= 2 && fields[0].tag == 8 && fields[1].tag == 9 {
      CountAccepted(profile, raw, marker, fields, SohPositions(raw, 0)[1]);
    } else {
      HeadRejected(profile, raw, marker, fields);
    }
  }

  lemma CountAccepted(profile: Profile, raw: Bytes, marker: nat, fields: seq<Field>, second: nat)
    requires |raw| <= USIZE_MAX && marker < |raw| && Placed(raw, marker, fields)
    requires |fields| >= 2 && fields[0].tag == 8 && fields[1].tag == 9 && second == SohPositions(raw, 0)[1]
    ensures var declared := ParseUnsigned(fields[1].value, 0xFFFF_FFFF_FFFF_FFFF);
      CheckFields(profile, raw, marker, fields).Ok? <==>
        declared.Some? && declared.value == marker - second && (profile == Checked ==> marker > second) && CheckTags(fields).Ok?
    ensures CheckFields(profile, raw, marker, fields).Ok? ==> CheckFields(profile, raw, marker, fields) == CheckTags(fields)
  {
    CountExactlyWhen(profile, raw, marker, fields);
  }

  lemma HeadRejected(profile: Profile, raw: Bytes, marker: nat, fields: seq<Field>)
    requires |SohPositions(raw, 0)| >= 3 && !(|fields| >= 2 && fields[0].tag == 8 && fields[1].tag == 9)
    ensures CheckFields(profile, raw, marker, fields)
         == Err(MissingRequiredTag(if |fields| >= 2 && fields[0].tag == 8 then 9 else 8))
  {
  }

  // ----- a wrong body length -----

  /** Fields with the trailer that belongs to them. */
  function Sealed(fields: seq<Field>): Bytes {
    Render(fields) + Trailer(Padded(Sum(Render(fields)) % 256), 1)
  }

  lemma SealedTrailer(fields: CleanFields) returns (marker: nat)
    requires |fields| >= 2
    ensures CheckTrailer(Sealed(fields)) == Ok(marker) && marker == |Render(fields)| - 1
  {
    var n := Sum(Render(fields)) % 256;
    PaddedParses(n);
    DigitsClean(Padded(n));
    TrailerChecked(fields, Padded(n), SOH);
    JudgedOk(Render(fields), Padded(n), SOH, n);
    marker := |Render(fields)| - 1;
  }

  lemma JudgedOk(r: Bytes, c: ThreeBytes, last: Byte, n: nat)
    requires TrailerJudged(r, c, last) && ParseUnsigned(c, U32_MAX) == Some(n) && n == Checksum(r)
    ensures CheckTrailer(r + Trailer(c, last)) == Ok(|r| - 1)
  {
  }

  lemma SealedFields(fields: CleanFields) returns (parsed: seq<Field>)
    ensures ParseFields(Split(Sealed(fields))) == Ok(parsed)
    ensures parsed == fields + [Field(10, Padded(Sum(Render(fields)) % 256))]
  {
    var n := Sum(Render(fields)) % 256;
    parsed := fields + [Field(10, Padded(n))];
    PaddedParses(n);
    DigitsClean(Padded(n));
    RenderedParses(fields, Trailer(Padded(n), SOH));
    TrailerParses(Padded(n), SOH);
  }

  lemma SealedBody(a: CleanField, b: CleanField, body: CleanFields, all: CleanFields)
    requires all == [a, b] + body
    ensures var p := SohPositions(Sealed(all), 0); |p| >= 2 && |Render(all)| - 1 - p[1] == |Render(body)|
  {
    var trailer := Trailer(Padded(Sum(Render(all)) % 256), 1);
    RenderAppend([a, b], body);
    assert Sealed(all) == Render([a, b]) + (Render(body) + trailer);
    SecondSoh(a, b, Render(body) + trailer);
  }

  lemma SealedCount(all: CleanFields)
    requires |all| > 2
    ensures var p := SohPositions(Sealed(all), 0); |p| >= 2 && |Render(all)| - 1 - p[1] == |Render(all[2..])| > 0
  {
    var body: CleanFields := all[2..];
    assert all == [all[0], all[1]] + body;
    SealedBody(all[0], all[1], body, all);
    RenderedSohs(body, 0);
  }

  /** How such a message reads: the trailer is good, the fields are there, and their bytes counted. */
  lemma SealedRead(all: CleanFields) returns (marker: nat, fields: seq<Field>)
    requires |all| > 2
    ensures CheckTrailer(Sealed(all)) == Ok(marker) && ParseFields(Split(Sealed(all))) == Ok(fields)
    ensures |fields| >= 2 && fields[0] == all[0] && fields[1] == all[1]
    ensures var p := SohPositions(Sealed(all), 0); |p| >= 2 && marker - p[1] == |Render(all[2..])| > 0
  {
    marker := SealedTrailer(all);
    SealedCount(all);
    fields := SealedFields(all);
    SameHead(all, fields, [Field(10, Padded(Sum(Render(all)) % 256))]);
  }

  lemma SameHead(fields: seq<Field>, all: seq<Field>, more: seq<Field>)
    requires |fields| >= 2 && all == fields + more
    ensures |all| >= 2 && all[0] == fields[0] && all[1] == fields[1]
  {
  }

  /** A message that announces another body length than it has is rejected, and told both, even with its
      checksum made to fit; which fields it holds does not matter. */
  lemma WrongLengthRejected(profile: Profile, all: CleanFields, n: nat)
    requires |all| > 2 && all[0].tag == 8 && all[1] == Field(9, Decimal(n)) && n <= USIZE_MAX && n != |Render(all[2..])|
    requires |Sealed(all)| <= USIZE_MAX
    ensures Validate(profile, Sealed(all)) == Err(BodyLengthMismatch(n, |Render(all[2..])|))
  {
    var marker, fields := SealedRead(all);
    WrongCount(profile, Sealed(all), marker, n, |Render(all[2..])|, fields);
  }

  lemma WrongCount(profile: Profile, raw: Bytes, marker: nat, n: nat, actual: nat, fields: seq<Field>)
    requires CheckTrailer(raw) == Ok(marker) && ParseFields(Split(raw)) == Ok(fields) && |raw| <= USIZE_MAX
    requires |fields| >= 2 && fields[0].tag == 8 && fields[1] == Field(9, Decimal(n)) && n <= USIZE_MAX
    requires |SohPositions(raw, 0)| >= 2 && marker - SohPositions(raw, 0)[1] == actual > 0 && n != actual
    ensures Validate(profile, raw) == Err(BodyLengthMismatch(n, actual))
  {
    VerdictOf(profile, raw, Ok(marker), fields);
    GoodIsPlaced(raw);
    DecimalParses(n, USIZE_MAX);
    GoodMarker(raw, marker);
    CountExactlyWhen(profile, raw, marker, fields);
  }

  lemma GoodMarker(raw: Bytes, marker: nat)
    requires CheckTrailer(raw) == Ok(marker)
    ensures marker < |raw|
  {
  }

  // ----- what is built -----

  /** The fields of a built message, one by one. */
  lemma BuiltIs(f: OrderFields)
    ensures Printed(f)
         == [Field(8, [70, 73, 88, 46, 52, 46, 50]), Field(9, Decimal(|Render(BodyFields(f))|))]
            + ([Field(35, [68]), Field(49, [83, 69, 78, 68, 69, 82]), Field(56, [84, 65, 82, 71, 69, 84]),
                Field(34, Decimal(f.seqNum)),
                Field(52, [50, 48, 50, 54, 48, 49, 48, 49, 45, 48, 48, 58, 48, 48, 58, 48, 48])]
               + [Field(11, f.clOrdId), Field(55, f.symbol), Field(54, f.side), Field(38, Decimal(f.orderQty)),
                  Field(40, f.ordType)]
               + (if f.price == None then [] else [Field(44, f.price.value)])
               + [Field(59, [48])])
            + [Field(10, Padded(Sum(Render(HeadFields(f) + BodyFields(f))) % 256))]
  {
  }
}
