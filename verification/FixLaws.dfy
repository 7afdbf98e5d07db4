/** Laws of the FIX parser and builder: the round trip, and which corruptions are detected. */
module FixLaws {
  import opened Orders
  import opened Wire
  import opened Fix

  // ----- text -----

  /** Text between delimiters. */
  type Piece = p: Bytes | SOH !in p

  lemma FirstCharacter(a: Bytes, b: Bytes)
    requires CharLength(a) > 0
    ensures CharLength(a + b) == CharLength(a)
  {
    var s, n := a + b, CharLength(a);
    assert s[0] == a[0] && (n > 1 ==> s[1] == a[1]) && (n > 2 ==> s[2] == a[2]) && (n > 3 ==> s[3] == a[3]);
  }

  lemma {:induction false} Utf8Append(a: Bytes, b: Bytes)
    requires Utf8(a)
    ensures Utf8(a + b) <==> Utf8(b)
    decreases |a|
  {
    if a == [] {
      assert a + b == b;
    } else {
      var n := CharLength(a);
      FirstCharacter(a, b);
      assert (a + b)[n..] == a[n..] + b;
      Utf8Append(a[n..], b);
    }
  }

  predicate Ascii(s: Bytes) {
    forall i :: 0 <= i < |s| ==> s[i] < 0x80
  }

  lemma {:induction false} AsciiIsUtf8(s: Bytes)
    requires Ascii(s)
    ensures Utf8(s)
  {
    if s != [] {
      AsciiIsUtf8(s[1..]);
    }
  }

  lemma {:induction false} SohPositionsAppend(a: Bytes, b: Bytes, at: nat)
    ensures SohPositions(a + b, at) == SohPositions(a, at) + SohPositions(b, at + |a|)
  {
    if a == [] {
      assert a + b == b;
    } else {
      var head := if a[0] == SOH then [at] else [];
      assert (a + b)[0] == a[0] && (a + b)[1..] == a[1..] + b;
      SohPositionsAppend(a[1..], b, at + 1);
      assert head + (SohPositions(a[1..], at + 1) + SohPositions(b, at + |a|)) == SohPositions(a, at) + SohPositions(b, at + |a|);
    }
  }

  lemma {:induction false} NoSohPositions(s: Piece, at: nat)
    ensures SohPositions(s, at) == []
  {
    if s != [] {
      NoSohPositions(s[1..], at + 1);
    }
  }

  lemma SohAfter(p: Piece, rest: Bytes, at: nat)
    ensures SohPositions(p + [SOH] + rest, at) == [at + |p|] + SohPositions(rest, at + |p| + 1)
  {
    NoSohPositions(p, at);
    SohPositionsAppend(p, [SOH] + rest, at);
    assert p + [SOH] + rest == p + ([SOH] + rest);
    assert ([SOH] + rest)[1..] == rest;
  }

  lemma {:induction false} SumAppend(a: Bytes, b: Bytes)
    ensures Sum(a + b) == Sum(a) + Sum(b)
  {
    if b == [] {
      assert a + b == a;
    } else {
      assert (a + b)[..|a + b| - 1] == a + b[..|b| - 1];
      SumAppend(a, b[..|b| - 1]);
    }
  }

  lemma {:induction false} DecimalDigits(n: nat)
    ensures AllDigits(Decimal(n)) && Number(Decimal(n)) == n
  {
    if n < 10 {
      assert Decimal(n)[..0] == [];
    } else {
      DecimalDigits(n / 10);
      assert Decimal(n)[..|Decimal(n)| - 1] == Decimal(n / 10);
    }
  }

  lemma DecimalParses(n: nat, max: nat)
    requires n <= max
    ensures ParseUnsigned(Decimal(n), max) == Some(n)
  {
    DecimalDigits(n);
  }

  lemma DigitsClean(s: Bytes)
    requires AllDigits(s)
    ensures SOH !in s && EQUALS !in s && Ascii(s)
  {
  }

  /** The number three digits stand for. */
  lemma ThreeDigits(s: Bytes)
    requires |s| == 3 && AllDigits(s)
    ensures Number(s) == (s[0] - ZERO) * 100 + (s[1] - ZERO) * 10 + (s[2] - ZERO)
  {
    assert s[..2][..1] == s[..1];
    assert s[..1][..0] == [];
    assert Number(s[..1]) == s[0] - ZERO;
    assert Number(s[..2]) == Number(s[..1]) * 10 + (s[1] - ZERO);
  }

  lemma PaddedParses(n: Byte)
    ensures AllDigits(Padded(n)) && ParseUnsigned(Padded(n), U32_MAX) == Some(n)
  {
    ThreeDigits(Padded(n));
  }

  // ----- fields -----

  predicate Clean(f: Field) {
    f.tag <= U32_MAX && SOH !in f.value && Utf8(f.value)
  }

  predicate AllClean(fields: seq<Field>) {
    forall i :: 0 <= i < |fields| ==> Clean(fields[i])
  }

  type CleanField = f: Field | Clean(f) witness Field(0, [])
  type CleanFields = fields: seq<Field> | AllClean(fields)

  lemma EqualsAfter(p: Bytes, v: Bytes)
    requires EQUALS !in p
    ensures EqualsAt(p + [EQUALS] + v) == |p|
  {
    var s := p + [EQUALS] + v;
    var i := EqualsAt(s);
    assert s[|p|] == EQUALS;
    assert forall k :: 0 <= k < |p| ==> s[k] == p[k] && s[k] != EQUALS;
    assert forall k :: 0 <= k < i ==> s[..i][k] == s[k] && s[k] != EQUALS;
  }

  lemma FieldTextParses(f: Field)
    requires f.tag <= U32_MAX
    ensures ParseField(FieldText(f)) == Ok(f)
  {
    var d := Decimal(f.tag);
    DecimalDigits(f.tag);
    DigitsClean(d);
    EqualsAfter(d, f.value);
    assert FieldText(f)[..|d|] == d && FieldText(f)[|d| + 1..] == f.value;
  }

  lemma FieldTextClean(f: CleanField)
    ensures SOH !in FieldText(f) && Utf8(FieldText(f) + [SOH])
  {
    var d := Decimal(f.tag);
    DecimalDigits(f.tag);
    DigitsClean(d);
    AsciiIsUtf8(d + [EQUALS]);
    AsciiIsUtf8([SOH]);
    Utf8Append(d + [EQUALS], f.value + [SOH]);
    Utf8Append(f.value, [SOH]);
    assert FieldText(f) + [SOH] == d + [EQUALS] + (f.value + [SOH]);
  }

  lemma {:induction false} SplitPiece(p: Piece, rest: Bytes)
    ensures Split(p + [SOH] + rest) == [p] + Split(rest)
  {
    var s := p + [SOH] + rest;
    if p == [] {
      assert s[1..] == rest;
    } else {
      assert s[1..] == p[1..] + [SOH] + rest && s[0] == p[0];
      SplitPiece(p[1..], rest);
      assert [p[0]] + p[1..] == p;
    }
  }

  lemma {:induction false} SplitLast(p: Piece)
    ensures Split(p) == [p]
  {
    if p != [] {
      SplitLast(p[1..]);
      assert [p[0]] + p[1..] == p;
    }
  }

  function Prefixed(fields: seq<Field>, r: Result<seq<Field>>): Result<seq<Field>> {
    if r.Ok? then Ok(fields + r.value) else r
  }

  /** A piece that is a field, in front of other pieces. */
  lemma PieceParses(f: Field, pieces: seq<Bytes>)
    requires f.tag <= U32_MAX
    ensures ParseFields([FieldText(f)] + pieces) == Prefixed([f], ParseFields(pieces))
  {
    FieldTextParses(f);
    var all := [FieldText(f)] + pieces;
    assert all[0] == FieldText(f) && all[1..] == pieces;
  }

  lemma PrefixedTwice(a: seq<Field>, b: seq<Field>, r: Result<seq<Field>>)
    ensures Prefixed(a, Prefixed(b, r)) == Prefixed(a + b, r)
  {
    if r.Ok? {
      assert a + (b + r.value) == (a + b) + r.value;
    }
  }

  /** Rendered fields followed by anything parse as those fields followed by what it parses as. */
  lemma {:induction false} RenderedParses(fields: CleanFields, rest: Bytes)
    ensures ParseFields(Split(Render(fields) + rest)) == Prefixed(fields, ParseFields(Split(rest)))
  {
    if fields == [] {
      assert Render(fields) + rest == rest;
      var r := ParseFields(Split(rest));
      assert r.Ok? ==> fields + r.value == r.value;
    } else {
      var f, more := fields[0], Render(fields[1..]) + rest;
      assert Render(fields) + rest == FieldText(f) + [SOH] + more;
      FieldTextClean(f);
      SplitPiece(FieldText(f), more);
      PieceParses(f, Split(more));
      RenderedParses(fields[1..], rest);
      PrefixedTwice([f], fields[1..], ParseFields(Split(rest)));
      assert [f] + fields[1..] == fields;
    }
  }

  lemma {:induction false} RenderAppend(a: seq<Field>, b: seq<Field>)
    ensures Render(a + b) == Render(a) + Render(b)
  {
    if a == [] {
      assert a + b == b;
    } else {
      assert (a + b)[0] == a[0] && (a + b)[1..] == a[1..] + b;
      RenderAppend(a[1..], b);
    }
  }

  lemma {:induction false} RenderedIsUtf8(fields: CleanFields)
    ensures Utf8(Render(fields))
  {
    if fields != [] {
      FieldTextClean(fields[0]);
      RenderedIsUtf8(fields[1..]);
      Utf8Append(FieldText(fields[0]) + [SOH], Render(fields[1..]));
    }
  }

  /** One delimiter a field, the last byte among them. */
  lemma {:induction false} RenderedSohs(fields: CleanFields, at: nat)
    ensures |SohPositions(Render(fields), at)| == |fields|
    ensures fields != [] ==> Render(fields) != [] && Render(fields)[|Render(fields)| - 1] == SOH
  {
    if fields != [] {
      var text, more := FieldText(fields[0]), Render(fields[1..]);
      FieldTextClean(fields[0]);
      RenderedSohs(fields[1..], at + |text| + 1);
      SohAfter(text, more, at);
    }
  }

  /** The second delimiter ends the second field. */
  lemma SecondSoh(a: CleanField, b: CleanField, rest: Bytes)
    ensures var s := Render([a, b]) + rest;
      |SohPositions(s, 0)| >= 2 && SohPositions(s, 0)[1] + 1 == |Render([a, b])|
  {
    var ta, tb := FieldText(a), FieldText(b);
    FieldTextClean(a);
    FieldTextClean(b);
    RenderTwo(a, b);
    SohAfter(ta, tb + [SOH] + rest, 0);
    SohAfter(tb, rest, |ta| + 1);
    assert (ta + [SOH] + (tb + [SOH])) + rest == ta + [SOH] + (tb + [SOH] + rest);
  }

  lemma RenderTwo(a: Field, b: Field)
    ensures Render([a, b]) == FieldText(a) + [SOH] + (FieldText(b) + [SOH])
  {
    assert [a, b][1..] == [b] && [b][1..] == [];
    assert Render([b]) == FieldText(b) + [SOH] + [];
    assert FieldText(b) + [SOH] + [] == FieldText(b) + [SOH];
  }

  // ----- the trailer -----

  type ThreeBytes = c: Bytes | |c| == 3 witness [ZERO, ZERO, ZERO]

  /** A trailer: the checksum field's tag, three bytes, and one byte that should be the delimiter. */
  function Trailer(c: ThreeBytes, last: Byte): Bytes {
    [49, 48, EQUALS] + c + [last]
  }

  lemma TrailerMarker(r: Bytes, c: ThreeBytes, last: Byte)
    requires (c[0] != SOH || last != EQUALS) && r != [] && r[|r| - 1] == SOH
    ensures LastMarker(r + Trailer(c, last)) == Some(|r| - 1)
  {
    var s := r + Trailer(c, last);
    assert MarkerAt(s, |r| - 1);
    forall j | |r| <= j < |s| ensures !MarkerAt(s, j) {
      if j + 4 <= |s| {
        assert s[j] == Trailer(c, last)[j - |r|] && s[j + 3] == Trailer(c, last)[j + 3 - |r|];
      }
    }
  }

  /** A text, up to and with a delimiter, and its trailer. */
  predicate Framed(r: Bytes, c: ThreeBytes, last: Byte) {
    var s := r + Trailer(c, last);
    r != [] && Utf8(s) && |SohPositions(s, 0)| >= 3 && LastMarker(s) == Some(|r| - 1)
  }

  lemma TrailerSohs(c: ThreeBytes, last: Byte, at: nat)
    requires SOH !in c
    ensures last == SOH ==> |SohPositions(Trailer(c, last), at)| >= 1
  {
    if last == SOH {
      SohAfter([49, 48, EQUALS] + c, [], at);
      assert Trailer(c, last) == [49, 48, EQUALS] + c + [SOH] + [];
    }
  }

  lemma TextSohs(r: Bytes, c: ThreeBytes, last: Byte)
    requires |SohPositions(r, 0)| >= 3 || (|SohPositions(r, 0)| == 2 && last == SOH)
    requires SOH !in c
    ensures |SohPositions(r + Trailer(c, last), 0)| >= 3
  {
    SohPositionsAppend(r, Trailer(c, last), 0);
    TrailerSohs(c, last, |r|);
  }

  lemma TextFramed(r: Bytes, c: ThreeBytes, last: Byte)
    requires Utf8(r) && r != [] && r[|r| - 1] == SOH
    requires |SohPositions(r, 0)| >= 3 || (|SohPositions(r, 0)| == 2 && last == SOH)
    requires Ascii(c) && SOH !in c && last < 0x80
    ensures Framed(r, c, last)
  {
    var t := Trailer(c, last);
    AsciiIsUtf8(t);
    Utf8Append(r, t);
    TextSohs(r, c, last);
    TrailerMarker(r, c, last);
  }

  lemma TrailerFramed(fields: CleanFields, c: ThreeBytes, last: Byte)
    requires |fields| >= 3 || (|fields| == 2 && last == SOH)
    requires Ascii(c) && SOH !in c && last < 0x80
    ensures Framed(Render(fields), c, last)
  {
    RenderedIsUtf8(fields);
    RenderedSohs(fields, 0);
    TextFramed(Render(fields), c, last);
  }

  /** A text with a trailer passes the checks up to the checksum exactly when the trailer's number
      agrees with the sum of the bytes before it. */
  predicate TrailerJudged(r: Bytes, c: ThreeBytes, last: Byte) {
    var s, parsed := r + Trailer(c, last), ParseUnsigned(c, U32_MAX);
    && r != [] && |SohPositions(s, 0)| >= 3
    && CheckTrailer(s)
       == if parsed == None then Err(MalformedChecksumField)
          else if parsed.value % 256 != Checksum(r) then Err(ChecksumMismatch(parsed.value % 256, Checksum(r)))
          else Ok(|r| - 1)
  }

  lemma TrailerChecked(fields: CleanFields, c: ThreeBytes, last: Byte)
    requires |fields| >= 3 || (|fields| == 2 && last == SOH)
    requires Ascii(c) && SOH !in c && last < 0x80
    ensures TrailerJudged(Render(fields), c, last)
  {
    TrailerFramed(fields, c, last);
    FramedChecked(Render(fields), c, last);
  }

  /** The parts of a text with a trailer. */
  lemma TrailerSlices(r: Bytes, c: ThreeBytes, last: Byte)
    ensures var s := r + Trailer(c, last);
      |s| == |r| + 7 && s[..|r|] == r && s[|r| + 3..|r| + 6] == c && s[|r| + 6] == last
  {
  }

  lemma FramedChecked(r: Bytes, c: ThreeBytes, last: Byte)
    requires last < 0x80 && Framed(r, c, last)
    ensures TrailerJudged(r, c, last)
  {
    TrailerSlices(r, c, last);
  }

  /** What the trailer adds to the list of fields. */
  lemma TrailerParses(c: ThreeBytes, last: Byte)
    requires SOH !in c
    ensures ParseFields(Split(Trailer(c, last))) == Ok([Field(10, if last == SOH then c else c + [last])])
  {
    var f := Field(10, if last == SOH then c else c + [last]);
    var none: Bytes := [];
    assert Decimal(10) == [49, 48] by {
      assert Decimal(1) == [49];
    }
    if last == SOH {
      assert Trailer(c, last) == FieldText(f) + [SOH] + none;
      SplitPiece(FieldText(f), none);
      PieceParses(f, [none]);
      assert [none][1..] == [];
    } else {
      assert Trailer(c, last) == FieldText(f);
      SplitLast(FieldText(f));
      assert [FieldText(f)] == [FieldText(f)] + [];
      PieceParses(f, []);
    }
    assert [f] + [] == [f];
  }

  // ----- the tags of a built message -----

  lemma {:induction false} GetFirst(fields: seq<Field>, i: nat)
    requires i < |fields| && forall j :: 0 <= j < i ==> fields[j].tag != fields[i].tag
    ensures ValueOf(fields, fields[i].tag) == Some(fields[i].value)
  {
    if i > 0 {
      assert fields[1..][i - 1] == fields[i];
      GetFirst(fields[1..], i - 1);
    }
  }

  lemma {:induction false} GetNone(fields: seq<Field>, tag: nat)
    requires forall j :: 0 <= j < |fields| ==> fields[j].tag != tag
    ensures ValueOf(fields, tag) == None
  {
    if fields != [] {
      GetNone(fields[1..], tag);
    }
  }

  lemma BuiltTags(f: OrderFields, v: Bytes)
    ensures var fields := WithChecksum(f, v);
      && |fields| >= 14
      && ValueOf(fields, 35) == Some([68]) && ValueOf(fields, 11) == Some(f.clOrdId) && ValueOf(fields, 55) == Some(f.symbol)
      && ValueOf(fields, 54) == Some(f.side) && ValueOf(fields, 38) == Some(Decimal(f.orderQty))
      && ValueOf(fields, 40) == Some(f.ordType) && ValueOf(fields, 44) == f.price
  {
    BuiltSession(f, v);
    BuiltEconomics(f, v);
    BuiltPrice(f, v);
  }

  const BUILT: seq<nat> := [8, 9, 35, 49, 56, 34, 52, 11, 55, 54, 38, 40]

  /** The tags of a built message, in order; a price field follows them if there is a price. */
  lemma BuiltOrder(f: OrderFields, v: Bytes)
    ensures var fields := WithChecksum(f, v);
      && |fields| >= 14
      && (forall i :: 0 <= i < 12 ==> fields[i].tag == BUILT[i])
      && fields[2].value == [68] && fields[7].value == f.clOrdId && fields[8].value == f.symbol && fields[9].value == f.side
      && fields[10].value == Decimal(f.orderQty) && fields[11].value == f.ordType
  {
    var fields := WithChecksum(f, v);
    assert fields[..12] == HeadFields(f) + SessionFields(f) + EconomicFields(f);
    assert forall i :: 0 <= i < 12 ==> fields[i] == fields[..12][i];
  }

  lemma BuiltTagAt(f: OrderFields, v: Bytes, i: nat)
    requires i < 12
    ensures var fields := WithChecksum(f, v);
      |fields| >= 14 && fields[i].tag == BUILT[i] && ValueOf(fields, BUILT[i]) == Some(fields[i].value)
  {
    BuiltOrder(f, v);
    BuiltDistinct(i);
    GetFirst(WithChecksum(f, v), i);
  }

  lemma BuiltDistinct(i: nat)
    requires i < 12
    ensures forall j :: 0 <= j < i ==> BUILT[j] != BUILT[i]
  {
  }

  lemma BuiltSession(f: OrderFields, v: Bytes)
    ensures |WithChecksum(f, v)| >= 14
    ensures ValueOf(WithChecksum(f, v), 35) == Some([68])
  {
    BuiltOrder(f, v);
    BuiltTagAt(f, v, 2);
  }

  lemma BuiltEconomics(f: OrderFields, v: Bytes)
    ensures var fields := WithChecksum(f, v);
      && ValueOf(fields, 11) == Some(f.clOrdId) && ValueOf(fields, 55) == Some(f.symbol) && ValueOf(fields, 54) == Some(f.side)
      && ValueOf(fields, 38) == Some(Decimal(f.orderQty)) && ValueOf(fields, 40) == Some(f.ordType)
  {
    BuiltOrder(f, v);
    BuiltTagAt(f, v, 7);
    BuiltTagAt(f, v, 8);
    BuiltTagAt(f, v, 9);
    BuiltTagAt(f, v, 10);
    BuiltTagAt(f, v, 11);
  }

  lemma BuiltPrice(f: OrderFields, v: Bytes)
    ensures ValueOf(WithChecksum(f, v), 44) == f.price
  {
    BuiltOrder(f, v);
    var fields := WithChecksum(f, v);
    if f.price == None {
      assert fields[12..] == [Field(59, [ZERO]), Field(10, v)];
      assert forall i :: 12 <= i < |fields| ==> fields[i] == fields[12..][i - 12];
      GetNone(fields, 44);
    } else {
      GetFirst(fields, 12);
    }
  }

  /** A limit order without a price is the one thing a parser can hold against a built message. */
  predicate Priceless(f: OrderFields) {
    f.ordType == [50] && f.price == None
  }

  lemma BuiltTagsChecked(f: OrderFields, v: Bytes)
    ensures CheckTags(WithChecksum(f, v)) == if Priceless(f) then Err(MissingRequiredTag(44)) else Ok(WithChecksum(f, v))
  {
    var fields := WithChecksum(f, v);
    BuiltTags(f, v);
    assert REQUIRED[1..] == [55, 54, 38, 40] && REQUIRED[1..][1..] == [54, 38, 40];
    assert [54, 38, 40][1..] == [38, 40] && [38, 40][1..] == [40] && [40][1..] == [];
    assert FirstMissing(fields, [40]) == None;
    assert FirstMissing(fields, [38, 40]) == None;
    assert FirstMissing(fields, [54, 38, 40]) == None;
    assert FirstMissing(fields, [55, 54, 38, 40]) == None;
  }

  /** What the builder's argument types allow: text, 32-bit numbers, a body that fits in memory. */
  predicate Encodable(f: OrderFields) {
    && f.seqNum <= U32_MAX && f.orderQty <= U32_MAX
    && Utf8(f.clOrdId) && Utf8(f.symbol) && Utf8(f.side) && Utf8(f.ordType) && (f.price != None ==> Utf8(f.price.value))
    && |Render(BodyFields(f))| <= USIZE_MAX
  }

  /** No string holds the delimiter. */
  predicate FreeOfSoh(f: OrderFields) {
    && SOH !in f.clOrdId && SOH !in f.symbol && SOH !in f.side && SOH !in f.ordType
    && (f.price != None ==> SOH !in f.price.value)
  }

  predicate Usable(f: OrderFields) {
    Encodable(f) && FreeOfSoh(f)
  }

  lemma NumberClean(tag: nat, n: nat)
    requires tag <= U32_MAX
    ensures Clean(Field(tag, Decimal(n)))
  {
    DecimalDigits(n);
    DigitsClean(Decimal(n));
    AsciiIsUtf8(Decimal(n));
  }

  lemma AsciiClean(tag: nat, v: Bytes)
    requires tag <= U32_MAX && Ascii(v) && SOH !in v
    ensures Clean(Field(tag, v))
  {
    AsciiIsUtf8(v);
  }

  lemma CleanAppend(a: CleanFields, b: CleanFields)
    ensures AllClean(a + b)
  {
  }

  lemma MsgTypeClean()
    ensures Clean(Field(35, [68]))
  {
    AsciiClean(35, [68]);
  }

  lemma SenderClean()
    ensures Clean(Field(49, SENDER))
  {
    AsciiClean(49, SENDER);
  }

  lemma TargetClean()
    ensures Clean(Field(56, TARGET))
  {
    AsciiClean(56, TARGET);
  }

  lemma SendingTimeClean()
    ensures Clean(Field(52, SENDING_TIME))
  {
    AsciiClean(52, SENDING_TIME);
  }

  lemma SessionClean(f: OrderFields)
    requires Usable(f)
    ensures AllClean(SessionFields(f))
  {
    MsgTypeClean();
    SenderClean();
    TargetClean();
    NumberClean(34, f.seqNum);
    SendingTimeClean();
    FiveClean(Field(35, [68]), Field(49, SENDER), Field(56, TARGET), Field(34, Decimal(f.seqNum)), Field(52, SENDING_TIME));
  }

  lemma FiveClean(a: CleanField, b: CleanField, c: CleanField, d: CleanField, e: CleanField)
    ensures AllClean([a, b, c, d, e])
  {
  }

  lemma BodyClean(f: OrderFields)
    requires Usable(f)
    ensures AllClean(BodyFields(f))
  {
    SessionClean(f);
    NumberClean(38, f.orderQty);
    AsciiClean(59, [ZERO]);
    CleanAppend(SessionFields(f), EconomicFields(f));
    CleanAppend(SessionFields(f) + EconomicFields(f), PriceFields(f));
    CleanAppend(SessionFields(f) + EconomicFields(f) + PriceFields(f), [Field(59, [ZERO])]);
  }

  lemma HeadClean(f: OrderFields)
    ensures AllClean(HeadFields(f)) && |HeadFields(f)| == 2
  {
    NumberClean(9, |Render(BodyFields(f))|);
    AsciiClean(8, BEGIN_STRING);
  }

  lemma BuiltClean(f: OrderFields)
    requires Usable(f)
    ensures AllClean(HeadFields(f) + BodyFields(f))
    ensures |HeadFields(f) + BodyFields(f)| >= 13
  {
    BodyClean(f);
    HeadClean(f);
    CleanAppend(HeadFields(f), BodyFields(f));
    assert |SessionFields(f)| == 5 && |EconomicFields(f)| == 5;
  }

  /** A built message whose last bytes are this trailer. */
  function Trailed(f: OrderFields, c: ThreeBytes, last: Byte): Bytes {
    Summed(f) + Trailer(c, last)
  }

  lemma BuildIsTrailed(f: OrderFields)
    ensures Build(f) == Trailed(f, Stamp(f), SOH)
  {
    assert Decimal(10) == [49, 48] by {
      assert Decimal(1) == [49];
    }
  }

  /** The byte count is right in either profile when it is not negative and fits; a checked build
      needs the subtraction to come out as well. */
  lemma BodyCountIs(profile: Profile, marker: nat, bodyStart: nat)
    requires bodyStart <= marker + 1 && marker + 1 - bodyStart <= USIZE_MAX
    ensures profile == Checked && marker < bodyStart ==> BodyCount(profile, marker, bodyStart) == None
    ensures profile == Wrapping || bodyStart <= marker ==> BodyCount(profile, marker, bodyStart) == Some(marker + 1 - bodyStart)
  {
    if marker < bodyStart {
      assert (marker - bodyStart) % (USIZE_MAX + 1) == USIZE_MAX;
    } else {
      assert (marker - bodyStart) % (USIZE_MAX + 1) == marker - bodyStart;
    }
  }

  /** A body length field that tells the number of bytes up to the marker is agreed with. */
  lemma CountAgreed(profile: Profile, raw: Bytes, marker: nat, fields: seq<Field>, start: nat, n: nat)
    requires |SohPositions(raw, 0)| >= 3 && SohPositions(raw, 0)[1] + 1 == start && marker + 1 == start + n
    requires |fields| >= 2 && fields[0].tag == 8 && fields[1] == Field(9, Decimal(n)) && 0 < n <= USIZE_MAX
    ensures CheckFields(profile, raw, marker, fields) == CheckTags(fields)
  {
    DecimalParses(n, USIZE_MAX);
    BodyCountIs(profile, marker, start);
  }

  lemma SummedLength(f: OrderFields)
    ensures Summed(f) == Render(HeadFields(f)) + Render(BodyFields(f)) && Render(BodyFields(f)) != []
  {
    RenderAppend(HeadFields(f), BodyFields(f));
  }

  lemma BodyStarts(f: OrderFields, c: ThreeBytes, last: Byte)
    requires Usable(f)
    ensures var p := SohPositions(Trailed(f, c, last), 0); |p| >= 2 && p[1] + 1 == |Render(HeadFields(f))|
  {
    var head, rest := HeadFields(f), Render(BodyFields(f)) + Trailer(c, last);
    SummedLength(f);
    assert Trailed(f, c, last) == Render(head) + rest;
    NumberClean(9, |Render(BodyFields(f))|);
    AsciiClean(8, BEGIN_STRING);
    SecondSoh(head[0], head[1], rest);
  }

  /** The body length printed is the one measured. */
  lemma BodyLengthAgrees(profile: Profile, f: OrderFields, c: ThreeBytes, last: Byte, v: Bytes)
    requires Usable(f)
    requires |SohPositions(Trailed(f, c, last), 0)| >= 3
    ensures CheckFields(profile, Trailed(f, c, last), |Summed(f)| - 1, WithChecksum(f, v)) == CheckTags(WithChecksum(f, v))
  {
    var fields, n := WithChecksum(f, v), |Render(BodyFields(f))|;
    SummedLength(f);
    BodyStarts(f, c, last);
    assert fields[0] == HeadFields(f)[0] && fields[1] == HeadFields(f)[1];
    CountAgreed(profile, Trailed(f, c, last), |Summed(f)| - 1, fields, |Render(HeadFields(f))|, n);
  }

  /** The verdict on a built message whose trailer holds c and last. */
  function Judged(f: OrderFields, c: Bytes, last: Byte): Result<seq<Field>> {
    var parsed, computed := ParseUnsigned(c, U32_MAX), Checksum(Summed(f));
    if parsed == None then Err(MalformedChecksumField)
    else if parsed.value % 256 != computed then Err(ChecksumMismatch(parsed.value % 256, computed))
    else if Priceless(f) then Err(MissingRequiredTag(44))
    else Ok(WithChecksum(f, if last == SOH then c else c + [last]))
  }

  lemma TrailedFields(f: OrderFields, c: ThreeBytes, last: Byte, v: Bytes)
    requires Usable(f) && SOH !in c && v == if last == SOH then c else c + [last]
    ensures ParseFields(Split(Trailed(f, c, last))) == Ok(WithChecksum(f, v))
  {
    BuiltClean(f);
    RenderedParses(HeadFields(f) + BodyFields(f), Trailer(c, last));
    TrailerParses(c, last);
  }

  lemma TrailedTrailer(f: OrderFields, c: ThreeBytes, last: Byte)
    requires Usable(f) && Ascii(c) && SOH !in c && last < 0x80
    ensures TrailerJudged(Summed(f), c, last)
  {
    var fields := BuiltFields(f);
    TrailerChecked(fields, c, last);
  }

  lemma BuiltFields(f: OrderFields) returns (fields: seq<Field>)
    requires Usable(f)
    ensures AllClean(fields) && |fields| >= 13 && Summed(f) == Render(fields)
  {
    fields := HeadFields(f) + BodyFields(f);
    BuiltClean(f);
  }

  lemma TrailedChecked(profile: Profile, f: OrderFields, c: ThreeBytes, last: Byte, v: Bytes)
    requires Usable(f) && |SohPositions(Trailed(f, c, last), 0)| >= 3 && Summed(f) != []
    ensures CheckFields(profile, Trailed(f, c, last), |Summed(f)| - 1, WithChecksum(f, v))
         == if Priceless(f) then Err(MissingRequiredTag(44)) else Ok(WithChecksum(f, v))
  {
    BodyLengthAgrees(profile, f, c, last, v);
    BuiltTagsChecked(f, v);
  }

  /** The verdict is put together from the checks. */
  lemma VerdictOf(profile: Profile, raw: Bytes, trailer: Result<nat>, fields: seq<Field>)
    requires CheckTrailer(raw) == trailer && ParseFields(Split(raw)) == Ok(fields)
    ensures trailer.Ok? ==> |SohPositions(raw, 0)| >= 3
    ensures Validate(profile, raw)
         == if trailer.Ok? then CheckFields(profile, raw, trailer.value, fields) else trailer.PropagateFailure()
  {
  }

  /** How a built message with any well-formed trailer is judged. */
  lemma TrailedJudged(profile: Profile, f: OrderFields, c: ThreeBytes, last: Byte)
    requires Usable(f) && Ascii(c) && SOH !in c && last < 0x80
    ensures Validate(profile, Trailed(f, c, last)) == Judged(f, c, last)
  {
    var v := if last == SOH then c else c + [last];
    var raw := Trailed(f, c, last);
    TrailedTrailer(f, c, last);
    TrailedFields(f, c, last, v);
    TrailedChecked(profile, f, c, last, v);
    VerdictOf(profile, raw, CheckTrailer(raw), WithChecksum(f, v));
  }

  lemma StampParses(f: OrderFields)
    ensures |Stamp(f)| == 3 && Ascii(Stamp(f)) && SOH !in Stamp(f)
    ensures ParseUnsigned(Stamp(f), U32_MAX) == Some(Checksum(Summed(f)))
  {
    PaddedParses(Checksum(Summed(f)));
    DigitsClean(Stamp(f));
  }

  lemma StampAgrees(f: OrderFields)
    ensures |Stamp(f)| == 3 && Ascii(Stamp(f)) && SOH !in Stamp(f)
    ensures ParseUnsigned(Stamp(f), U32_MAX) == Some(Checksum(Summed(f)))
    ensures Build(f) == Trailed(f, Stamp(f), SOH)
  {
    StampParses(f);
    BuildIsTrailed(f);
  }

  lemma StampAccepted(f: OrderFields)
    ensures |Stamp(f)| == 3
    ensures Judged(f, Stamp(f), SOH) == if Priceless(f) then Err(MissingRequiredTag(44)) else Ok(Printed(f))
  {
    StampParses(f);
    JudgedGood(f, Stamp(f), SOH);
  }

  lemma UsableReadBack(profile: Profile, f: OrderFields)
    requires Usable(f)
    ensures Validate(profile, Build(f)) == if Priceless(f) then Err(MissingRequiredTag(44)) else Ok(Printed(f))
  {
    StampAgrees(f);
    TrailedJudged(profile, f, Stamp(f), SOH);
    StampAccepted(f);
  }

  lemma {:induction false} PiecesFree(s: Bytes)
    ensures forall i :: 0 <= i < |Split(s)| ==> SOH !in Split(s)[i]
  {
    if s != [] {
      PiecesFree(s[1..]);
    }
  }

  /** Nothing that is parsed holds the delimiter. */
  lemma {:induction false} ValuesFree(pieces: seq<Bytes>, fields: seq<Field>)
    requires ParseFields(pieces) == Ok(fields) && forall i :: 0 <= i < |pieces| ==> SOH !in pieces[i]
    ensures forall i :: 0 <= i < |fields| ==> SOH !in fields[i].value
  {
    if pieces != [] {
      if pieces[0] == [] {
        ValuesFree(pieces[1..], fields);
      } else {
        ValuesFree(pieces[1..], fields[1..]);
        assert fields[0].value == pieces[0][EqualsAt(pieces[0]) + 1..];
        assert forall i :: 0 < i < |fields| ==> fields[i] == fields[1..][i - 1];
      }
    }
  }

  /** Where the strings stand in the printed list. */
  lemma PrintedStrings(f: OrderFields)
    ensures var p := Printed(f);
      && Field(11, f.clOrdId) in p && Field(55, f.symbol) in p && Field(54, f.side) in p && Field(40, f.ordType) in p
      && (f.price != None ==> Field(44, f.price.value) in p)
  {
    var p := Printed(f);
    assert p == HeadFields(f) + SessionFields(f) + (EconomicFields(f) + PriceFields(f) + [Field(59, [ZERO])] + [Field(10, Stamp(f))]);
    assert EconomicFields(f)[0] == Field(11, f.clOrdId) && EconomicFields(f)[1] == Field(55, f.symbol);
    assert EconomicFields(f)[2] == Field(54, f.side) && EconomicFields(f)[4] == Field(40, f.ordType);
    assert f.price != None ==> PriceFields(f)[0] == Field(44, f.price.value);
  }

  lemma AcceptedMeans(profile: Profile, raw: Bytes, fields: seq<Field>)
    requires Validate(profile, raw) == Ok(fields)
    ensures CheckTags(fields) == Ok(fields) && forall i :: 0 <= i < |fields| ==> SOH !in fields[i].value
  {
    AcceptedParts(profile, raw, fields);
    PiecesFree(raw);
    ValuesFree(Split(raw), fields);
  }

  lemma AcceptedParts(profile: Profile, raw: Bytes, fields: seq<Field>)
    requires Validate(profile, raw) == Ok(fields)
    ensures ParseFields(Split(raw)) == Ok(fields) && CheckTags(fields) == Ok(fields)
  {
    var marker, parsed := CheckTrailer(raw), ParseFields(Split(raw));
    assert marker.Ok? && parsed.Ok? && CheckFields(profile, raw, marker.value, parsed.value) == Ok(fields);
    FieldsAccepted(profile, raw, marker.value, parsed.value, fields);
  }

  lemma FieldsAccepted(profile: Profile, raw: Bytes, marker: nat, fields: seq<Field>, r: seq<Field>)
    requires |SohPositions(raw, 0)| >= 3 && CheckFields(profile, raw, marker, fields) == Ok(r)
    ensures r == fields && CheckTags(fields) == Ok(fields)
  {
  }

  lemma StringsFree(f: OrderFields)
    requires var p := Printed(f); forall i :: 0 <= i < |p| ==> SOH !in p[i].value
    ensures FreeOfSoh(f)
  {
    PrintedStrings(f);
    assert forall x :: x in Printed(f) ==> SOH !in x.value;
  }

  /** The round trip: a built message is read back as exactly the tags and values printed, in order,
      with the body length and the zero-padded checksum, if and only if no string holds the delimiter
      and a limit order has its price; without the price the parser refuses it for that. */
  lemma RoundTrip(profile: Profile, f: OrderFields)
    requires Encodable(f)
    ensures Validate(profile, Build(f)) == Ok(Printed(f)) <==> FreeOfSoh(f) && !Priceless(f)
    ensures FreeOfSoh(f) && Priceless(f) ==> Validate(profile, Build(f)) == Err(MissingRequiredTag(44))
  {
    if FreeOfSoh(f) {
      UsableReadBack(profile, f);
    }
    if Validate(profile, Build(f)) == Ok(Printed(f)) {
      AcceptedMeans(profile, Build(f), Printed(f));
      StringsFree(f);
      BuiltTagsChecked(f, Stamp(f));
    }
  }

  // ----- the two parsers -----

  function Tags(fields: seq<Field>): set<nat> {
    set f | f in fields :: f.tag
  }

  lemma {:induction false} ToMapTags(fields: seq<Field>)
    ensures ToMap(fields).Keys == Tags(fields)
  {
    if fields != [] {
      var init, last := fields[..|fields| - 1], fields[|fields| - 1];
      ToMapTags(init);
      assert fields == init + [last];
      assert forall f :: f in fields <==> f in init || f == last;
    }
  }

  /** Of several fields with one tag the last stays. */
  predicate LastOfTag(fields: seq<Field>, i: nat)
    requires i < |fields|
  {
    forall j :: i < j < |fields| ==> fields[j].tag != fields[i].tag
  }

  lemma {:induction false} ToMapKeepsLast(fields: seq<Field>, i: nat)
    requires i < |fields| && LastOfTag(fields, i)
    ensures fields[i].tag in ToMap(fields) && ToMap(fields)[fields[i].tag] == fields[i].value
  {
    var init := fields[..|fields| - 1];
    if i < |init| {
      assert init[i] == fields[i] && forall j :: i < j < |init| ==> init[j] == fields[j];
      ToMapKeepsLast(init, i);
    }
  }

  /** Both parsers accept the same messages with the same errors; the map has exactly the tags of the
      list, each with the value of its last field, so on distinct tags both hold the same values. */
  lemma ParsersAgree(profile: Profile, raw: Bytes)
    ensures ParseNaive(profile, raw).Ok? <==> ParseZeroCopy(profile, raw).Ok?
    ensures !ParseZeroCopy(profile, raw).Ok? ==> ParseNaive(profile, raw) == ParseZeroCopy(profile, raw).PropagateFailure()
    ensures ParseZeroCopy(profile, raw).Ok? ==>
      var fields, m := ParseZeroCopy(profile, raw).value, ParseNaive(profile, raw).value;
      && m.Keys == Tags(fields)
      && forall i :: 0 <= i < |fields| && LastOfTag(fields, i) ==>
           fields[i].tag in m && m[fields[i].tag] == fields[i].value
  {
    if ParseZeroCopy(profile, raw).Ok? {
      var fields := ParseZeroCopy(profile, raw).value;
      ToMapTags(fields);
      forall i | 0 <= i < |fields| && LastOfTag(fields, i)
        ensures fields[i].tag in ToMap(fields) && ToMap(fields)[fields[i].tag] == fields[i].value
      {
        ToMapKeepsLast(fields, i);
      }
    }
  }

  // ----- corruption -----

  /** Replacing one byte by another changes the wrapping sum. */
  lemma ChecksumChanges(s: Bytes, i: nat, b: Byte)
    requires i < |s| && b != s[i]
    ensures Checksum(s[i := b]) != Checksum(s)
  {
    var before, after := s[..i], s[i + 1..];
    assert s == before + ([s[i]] + after) && s[i := b] == before + ([b] + after);
    SumAppend(before, [s[i]] + after);
    SumAppend([s[i]], after);
    SumAppend(before, [b] + after);
    SumAppend([b], after);
    assert Sum([s[i]]) == s[i] && Sum([b]) == b by {
      assert [s[i]][..0] == [] && [b][..0] == [];
    }
    DifferModulo(Sum(s), Sum(s[i := b]));
  }

  lemma DifferModulo(x: nat, y: nat)
    requires x != y && -256 < x - y < 256
    ensures x % 256 != y % 256
  {
    assert x - y == 256 * (x / 256 - y / 256) + (x % 256 - y % 256);
  }

  /** The last marker does not move when a byte before it changes. */
  lemma MarkerStays(s: Bytes, i: nat, b: Byte)
    requires LastMarker(s).Some? && i < LastMarker(s).value
    ensures LastMarker(s[i := b]) == LastMarker(s)
  {
    var m, t := LastMarker(s).value, s[i := b];
    assert MarkerAt(t, m);
    forall j | m < j < |t| ensures !MarkerAt(t, j) {
      assert !MarkerAt(s, j);
    }
  }

  lemma CorruptTrailer(raw: Bytes, i: nat, b: Byte)
    requires CheckTrailer(raw).Ok? && i < LastMarker(raw).value && b != raw[i]
    ensures var r := CheckTrailer(raw[i := b]);
      r.Err? && (r.error.NotUtf8? || r.error.MissingDelimiter? || r.error.ChecksumMismatch?)
  {
    var m, t := LastMarker(raw).value, raw[i := b];
    MarkerStays(raw, i, b);
    ChecksumChanges(raw[..m + 1], i, b);
    assert t[..m + 1] == raw[..m + 1][i := b];
    assert t[m + 4..m + 7] == raw[m + 4..m + 7];
    assert m + 7 < |raw| ==> t[m + 7] == raw[m + 7];
  }

  /** Error detection: replacing any one byte before the trailer of an accepted message, whether it
      was built or not, makes both parsers reject. */
  lemma CorruptionDetected(profile: Profile, raw: Bytes, i: nat, b: Byte)
    requires Validate(profile, raw).Ok? && i < LastMarker(raw).value && b != raw[i]
    ensures var r := Validate(profile, raw[i := b]);
      r.Err? && (r.error.NotUtf8? || r.error.MissingDelimiter? || r.error.ChecksumMismatch?)
    ensures ParseNaive(profile, raw[i := b]) == Err(Validate(profile, raw[i := b]).error)
  {
    CorruptTrailer(raw, i, b);
  }

  /** A trailer whose three bytes are no number is never accepted. */
  lemma NoNumberRejected(profile: Profile, fields: CleanFields, c: ThreeBytes)
    requires fields != [] && ParseUnsigned(c, U32_MAX) == None
    ensures !Validate(profile, Render(fields) + Trailer(c, SOH)).Ok?
  {
    NoNumberTrailer(fields, c);
  }

  lemma NoNumberTrailer(fields: CleanFields, c: ThreeBytes)
    requires fields != [] && ParseUnsigned(c, U32_MAX) == None
    ensures !CheckTrailer(Render(fields) + Trailer(c, SOH)).Ok?
  {
    var r := Render(fields);
    var s := r + Trailer(c, SOH);
    RenderedSohs(fields, 0);
    TrailerMarker(r, c, SOH);
    TrailerSlices(r, c, SOH);
    NoNumber(s, |r| - 1, c);
  }

  lemma NoNumber(s: Bytes, m: nat, c: Bytes)
    requires LastMarker(s) == Some(m) && |s| >= m + 7 && s[m + 4..m + 7] == c && ParseUnsigned(c, U32_MAX) == None
    ensures !CheckTrailer(s).Ok?
  {
  }

  lemma DigitByDigit(c: ThreeBytes, k: nat, b: Byte, n: nat)
    requires AllDigits(c) && Number(c) == n < 256
    requires k < 3 && b != c[k] && ZERO <= b < ZERO + 10
    ensures AllDigits(c[k := b]) && Number(c[k := b]) % 256 != n
  {
    var t := c[k := b];
    ThreeDigits(c);
    ThreeDigits(t);
    var d := b as int - c[k] as int;
    HundredsDiffer(n, d);
    assert Number(t) == if k == 0 then n + d * 100 else if k == 1 then n + d * 10 else n + d;
  }

  lemma DigitByPlus(c: ThreeBytes, n: nat)
    requires AllDigits(c) && Number(c) == n < 256
    ensures ParseUnsigned(c[0 := PLUS], U32_MAX).Some?
    ensures ParseUnsigned(c[0 := PLUS], U32_MAX).value % 256 == n <==> c[0] == ZERO
  {
    assert c[0 := PLUS][1..] == c[1..];
    ThreeDigits(c);
    TwoDigits(c[1..]);
  }

  lemma DigitByOther(c: ThreeBytes, k: nat, b: Byte)
    requires AllDigits(c) && k < 3 && !(ZERO <= b < ZERO + 10) && !(k == 0 && b == PLUS)
    ensures ParseUnsigned(c[k := b], U32_MAX) == None
  {
    var t := c[k := b];
    assert t[k] == b && t[0] != PLUS;
  }

  /** Replacing one of the three checksum characters. */
  lemma DigitReplaced(n: nat, k: nat, b: Byte)
    requires n < 256 && k < 3 && b != Padded(n)[k]
    ensures var parsed := ParseUnsigned(Padded(n)[k := b], U32_MAX);
      (parsed.Some? && parsed.value % 256 == n) <==> (k == 0 && b == PLUS && Padded(n)[0] == ZERO)
  {
    var c := Padded(n);
    PaddedParses(n);
    if ZERO <= b < ZERO + 10 {
      DigitByDigit(c, k, b, n);
    } else if k == 0 && b == PLUS {
      DigitByPlus(c, n);
    } else {
      DigitByOther(c, k, b);
    }
  }

  lemma TwoDigits(s: Bytes)
    requires |s| == 2 && AllDigits(s)
    ensures Number(s) == (s[0] - ZERO) * 10 + (s[1] - ZERO)
  {
    assert s[..1][..0] == [];
    assert Number(s[..1]) == s[0] - ZERO;
  }

  /** Changing one decimal digit of a number changes it modulo 256. */
  lemma HundredsDiffer(n: nat, d: int)
    requires n < 256 && -9 <= d <= 9 && d != 0
    ensures n + d >= 0 ==> (n + d) % 256 != n
    ensures n + d * 10 >= 0 ==> (n + d * 10) % 256 != n
    ensures n + d * 100 >= 0 ==> (n + d * 100) % 256 != n
  {
  }

  /** Without a marker there is no checksum, so nothing is accepted. */
  lemma NoMarkerRejected(profile: Profile, s: Bytes)
    requires forall j :: 0 <= j < |s| ==> !MarkerAt(s, j)
    ensures !Validate(profile, s).Ok?
  {
  }

  /** A field in front of a text without markers adds none, unless the text starts like one. */
  lemma NoMarkerInFront(text: Bytes, more: Bytes, j: nat)
    requires SOH !in text && forall k :: 0 <= k < |more| ==> !MarkerAt(more, k)
    requires |more| >= 3 ==> more[..3] != [49, 48, EQUALS]
    ensures !MarkerAt(text + [SOH] + more, j)
  {
    var s := text + [SOH] + more;
    MarkerTail(text, more);
    assert forall k :: 0 <= k < |text| ==> s[k] == text[k];
    assert forall k :: 0 <= k < |more| ==> s[|text| + 1 + k] == more[k];
    if j > |text| && j + 4 <= |s| {
      assert !MarkerAt(more, j - |text| - 1);
    }
  }

  /** No rendered field but the checksum itself starts like a marker. */
  lemma {:induction false} RenderedNoMarker(fields: CleanFields, j: nat)
    requires forall i :: 0 <= i < |fields| ==> fields[i].tag != 10
    ensures !MarkerAt(Render(fields), j)
  {
    if fields != [] {
      var more := Render(fields[1..]);
      FieldTextClean(fields[0]);
      forall k | 0 <= k < |more| ensures !MarkerAt(more, k) {
        RenderedNoMarker(fields[1..], k);
      }
      if |more| >= 3 && more[..3] == [49, 48, EQUALS] {
        StartsLikeMarker(fields[1..]);
      }
      NoMarkerInFront(FieldText(fields[0]), more, j);
    }
  }

  lemma StartsLikeMarker(fields: seq<Field>)
    requires |Render(fields)| >= 3 && Render(fields)[..3] == [49, 48, EQUALS]
    ensures fields != [] && fields[0].tag == 10
  {
    var f, s := fields[0], Render(fields);
    var d, tail := Decimal(f.tag), f.value + [SOH] + Render(fields[1..]);
    assert s == d + [EQUALS] + tail;
    DecimalDigits(f.tag);
    TenBeforeEquals(d, tail);
  }

  lemma TenBeforeEquals(d: Bytes, tail: Bytes)
    requires AllDigits(d) && |d + [EQUALS] + tail| >= 3 && (d + [EQUALS] + tail)[..3] == [49, 48, EQUALS]
    ensures Number(d) == 10
  {
    var s := d + [EQUALS] + tail;
    assert s[0] == 49 && s[1] == 48 && s[2] == EQUALS by {
      assert s[0] == s[..3][0] && s[1] == s[..3][1] && s[2] == s[..3][2];
    }
    assert s[|d|] == EQUALS && forall i :: 0 <= i < |d| ==> s[i] == d[i];
    assert |d| == 2;
    TwoDigits(d);
  }

  /** Breaking the only marker leaves none. */
  lemma MarkerBroken(r: Bytes, c: ThreeBytes, i: nat, b: Byte)
    requires |r| >= 5 && r[|r| - 1] == SOH && (forall j :: |r| - 4 <= j < |r| - 1 ==> r[j] != SOH)
    requires forall j :: 0 <= j < |r| ==> !MarkerAt(r, j)
    requires AllDigits(c) && |r| - 1 <= i < |r| + 3 && b != (r + Trailer(c, SOH))[i]
    ensures var s := (r + Trailer(c, SOH))[i := b]; forall j :: 0 <= j < |s| ==> !MarkerAt(s, j)
  {
    var m, u := |r| - 1, r + Trailer(c, SOH);
    var s := u[i := b];
    assert u[m] == SOH && u[m + 1] == 49 && u[m + 2] == 48 && u[m + 3] == EQUALS;
    assert u[m + 4] == c[0] && u[m + 5] == c[1] && u[m + 6] == c[2] && u[m + 7] == SOH && |s| == m + 8;
    forall j | 0 <= j < |s| ensures !MarkerAt(s, j) {
      if j + 4 <= m {
        assert !MarkerAt(r, j);
        assert s[j] == r[j] && s[j + 1] == r[j + 1] && s[j + 2] == r[j + 2] && s[j + 3] == r[j + 3];
      } else if j < m {
        assert s[j] == r[j];
      }
    }
  }

  lemma LastFieldText()
    ensures Render([Field(59, [ZERO])]) == [53, 57, EQUALS, ZERO, SOH]
  {
    assert Decimal(59) == [53, 57] by {
      assert Decimal(5) == [53];
    }
    assert [Field(59, [ZERO])][1..] == [];
  }

  /** What comes before the last field of the body. */
  lemma SummedTail(f: OrderFields) returns (before: Bytes)
    ensures Summed(f) == before + [53, 57, EQUALS, ZERO, SOH]
  {
    var init := HeadFields(f) + (SessionFields(f) + EconomicFields(f) + PriceFields(f));
    assert HeadFields(f) + BodyFields(f) == init + [Field(59, [ZERO])];
    RenderAppend(init, [Field(59, [ZERO])]);
    LastFieldText();
    before := Render(init);
  }

  lemma SummedNoMarker(f: OrderFields, j: nat)
    requires Usable(f)
    ensures !MarkerAt(Summed(f), j)
  {
    BuiltClean(f);
    BuiltNotTen(f);
    RenderedNoMarker(HeadFields(f) + BodyFields(f), j);
  }

  lemma SummedEnd(f: OrderFields)
    requires Usable(f)
    ensures var r := Summed(f);
      && |r| >= 5 && r[|r| - 1] == SOH && (forall j :: |r| - 4 <= j < |r| - 1 ==> r[j] != SOH)
      && forall j :: 0 <= j < |r| ==> !MarkerAt(r, j)
  {
    var before := SummedTail(f);
    forall j | 0 <= j < |Summed(f)| ensures !MarkerAt(Summed(f), j) {
      SummedNoMarker(f, j);
    }
  }

  lemma BuiltNotTen(f: OrderFields)
    ensures var fields := HeadFields(f) + BodyFields(f); forall i :: 0 <= i < |fields| ==> fields[i].tag != 10
  {
  }

  /** One byte of a built message replaced, before the trailer's marker. */
  lemma CorruptBody(profile: Profile, f: OrderFields, i: nat, b: Byte)
    requires Usable(f) && !Priceless(f) && i + 1 < |Summed(f)| && b != Build(f)[i]
    ensures !Validate(profile, Build(f)[i := b]).Ok?
  {
    StampAgrees(f);
    SummedEnd(f);
    TrailerMarker(Summed(f), Stamp(f), SOH);
    RoundTrip(profile, f);
    CorruptionDetected(profile, Build(f), i, b);
  }

  /** In the marker. */
  lemma CorruptMarker(profile: Profile, f: OrderFields, i: nat, b: Byte)
    requires Usable(f) && |Summed(f)| <= i + 1 < |Summed(f)| + 4 && b != Build(f)[i]
    ensures !Validate(profile, Build(f)[i := b]).Ok?
  {
    StampAgrees(f);
    SummedEnd(f);
    PaddedParses(Checksum(Summed(f)));
    MarkerBroken(Summed(f), Stamp(f), i, b);
    NoMarkerRejected(profile, Build(f)[i := b]);
  }

  /** In the checksum's digits. */
  lemma CorruptDigits(profile: Profile, f: OrderFields, k: nat, b: Byte)
    requires Usable(f) && !Priceless(f) && k < 3 && b != Stamp(f)[k]
    ensures Validate(profile, Trailed(f, Stamp(f)[k := b], SOH)).Ok? <==> k == 0 && b == PLUS && Stamp(f)[0] == ZERO
  {
    var c := Stamp(f)[k := b];
    StampAgrees(f);
    DigitReplaced(Checksum(Summed(f)), k, b);
    if ParseUnsigned(c, U32_MAX) == None {
      UnparsedRejected(profile, f, c);
    } else {
      ParsedJudged(profile, f, c);
    }
  }

  lemma UnparsedRejected(profile: Profile, f: OrderFields, c: ThreeBytes)
    requires Usable(f) && ParseUnsigned(c, U32_MAX) == None
    ensures !Validate(profile, Trailed(f, c, SOH)).Ok?
  {
    BuiltClean(f);
    NoNumberRejected(profile, HeadFields(f) + BodyFields(f), c);
  }

  lemma ParsedJudged(profile: Profile, f: OrderFields, c: ThreeBytes)
    requires Usable(f) && !Priceless(f) && ParseUnsigned(c, U32_MAX).Some?
    ensures Validate(profile, Trailed(f, c, SOH)).Ok? <==> ParseUnsigned(c, U32_MAX).value % 256 == Checksum(Summed(f))
  {
    ParsedIsAscii(c);
    TrailedJudged(profile, f, c, SOH);
    JudgedAs(f, c, SOH, ParseUnsigned(c, U32_MAX).value);
  }

  lemma ParsedIsAscii(c: Bytes)
    requires ParseUnsigned(c, U32_MAX).Some?
    ensures Ascii(c) && SOH !in c
  {
    var digits := if c[0] == PLUS then c[1..] else c;
    DigitsClean(digits);
    assert c[0] == PLUS ==> c == [PLUS] + digits;
  }

  /** A byte that is no ASCII character cannot end a text on its own. */
  lemma LoneByteRejected(profile: Profile, before: Bytes, b: Byte)
    requires Utf8(before) && b >= 0x80
    ensures !Validate(profile, before + [b]).Ok?
  {
    Utf8Append(before, [b]);
    assert CharLength([b]) == 0;
  }

  lemma SummedIsUtf8(f: OrderFields)
    requires Usable(f)
    ensures Utf8(Summed(f))
  {
    BuiltClean(f);
    RenderedIsUtf8(HeadFields(f) + BodyFields(f));
  }

  lemma BeforeLast(f: OrderFields)
    requires Usable(f)
    ensures Utf8(Summed(f) + ([49, 48, EQUALS] + Stamp(f)))
  {
    StampAgrees(f);
    SummedIsUtf8(f);
    AsciiIsUtf8([49, 48, EQUALS] + Stamp(f));
    Utf8Append(Summed(f), [49, 48, EQUALS] + Stamp(f));
  }

  lemma LastJudged(f: OrderFields, b: Byte)
    requires !Priceless(f)
    ensures |Stamp(f)| == 3 && Judged(f, Stamp(f), b).Ok?
  {
    StampParses(f);
    JudgedGood(f, Stamp(f), b);
  }

  lemma JudgedGood(f: OrderFields, c: Bytes, last: Byte)
    requires ParseUnsigned(c, U32_MAX) == Some(Checksum(Summed(f)))
    ensures Judged(f, c, last)
         == if Priceless(f) then Err(MissingRequiredTag(44))
            else Ok(WithChecksum(f, if last == SOH then c else c + [last]))
  {
  }

  lemma JudgedAs(f: OrderFields, c: Bytes, last: Byte, n: nat)
    requires ParseUnsigned(c, U32_MAX) == Some(n)
    ensures Judged(f, c, last).Ok? <==> n % 256 == Checksum(Summed(f)) && !Priceless(f)
  {
  }

  /** In the final delimiter. */
  lemma CorruptLast(profile: Profile, f: OrderFields, b: Byte)
    requires Usable(f) && !Priceless(f) && b != SOH
    ensures |Stamp(f)| == 3
    ensures Validate(profile, Trailed(f, Stamp(f), b)).Ok? <==> b < 0x80
  {
    if b < 0x80 {
      StampAgrees(f);
      LastJudged(f, b);
      TrailedJudged(profile, f, Stamp(f), b);
    } else {
      BeforeLast(f);
      LoneByteRejected(profile, Summed(f) + ([49, 48, EQUALS] + Stamp(f)), b);
      assert Trailed(f, Stamp(f), b) == Summed(f) + ([49, 48, EQUALS] + Stamp(f)) + [b];
    }
  }

  lemma TrailerReplaced(r: Bytes, c: ThreeBytes, i: nat, b: Byte)
    requires |r| + 3 <= i < |r| + 7
    ensures var s := r + Trailer(c, SOH);
      && |s| == |r| + 7
      && (i < |r| + 6 ==> s[i] == c[i - |r| - 3] && s[i := b] == r + Trailer(c[i - |r| - 3 := b], SOH))
      && (i == |r| + 6 ==> s[i] == SOH && s[i := b] == r + Trailer(c, b))
  {
  }

  lemma BuiltLength(f: OrderFields)
    ensures |Build(f)| == |Summed(f)| + 7
  {
    StampAgrees(f);
  }

  lemma CorruptTrailerByte(profile: Profile, f: OrderFields, i: nat, b: Byte)
    requires Usable(f) && !Priceless(f) && |Summed(f)| + 3 <= i < |Build(f)| && b != Build(f)[i]
    ensures var n := |Build(f)|;
      Validate(profile, Build(f)[i := b]).Ok? <==>
        (i == n - 1 && b < 0x80) || (i == n - 4 && Build(f)[i] == ZERO && b == PLUS)
  {
    BuiltLength(f);
    StampAgrees(f);
    TrailerReplaced(Summed(f), Stamp(f), i, b);
    if i < |Summed(f)| + 6 {
      CorruptDigits(profile, f, i - |Summed(f)| - 3, b);
    } else {
      CorruptLast(profile, f, b);
    }
  }

  /** Exactly which single-byte corruptions of a built message go undetected: the final delimiter
      may become any other ASCII character, and a checksum that starts with 0 may start with a plus
      sign instead, because the number parser takes one. Every other replaced byte, anywhere, makes
      the message unacceptable. */
  lemma BuiltCorruption(profile: Profile, f: OrderFields, i: nat, b: Byte)
    requires Usable(f) && !Priceless(f) && i < |Build(f)| && b != Build(f)[i]
    ensures var n := |Build(f)|;
      Validate(profile, Build(f)[i := b]).Ok? <==>
        (i == n - 1 && b < 0x80) || (i == n - 4 && Build(f)[i] == ZERO && b == PLUS)
  {
    BuiltLength(f);
    if i + 1 < |Summed(f)| {
      CorruptBody(profile, f, i, b);
    } else if i + 1 < |Summed(f)| + 4 {
      CorruptMarker(profile, f, i, b);
    } else {
      CorruptTrailerByte(profile, f, i, b);
    }
  }

  // ----- no underflow, and when the parser panics -----

  lemma {:induction false} FirstSohSplits(s: Bytes, at: nat) returns (p: Bytes, rest: Bytes)
    requires SohPositions(s, at) != []
    ensures s == p + [SOH] + rest && SOH !in p && SohPositions(s, at)[0] == at + |p|
  {
    if s[0] == SOH {
      p, rest := [], s[1..];
    } else {
      p, rest := FirstSohSplits(s[1..], at + 1);
      p := [s[0]] + p;
    }
  }

  /** A piece that starts with the checksum's tag is a checksum field. */
  lemma ChecksumPiece(piece: Bytes)
    requires |piece| >= 3 && piece[..3] == [49, 48, EQUALS]
    ensures ParseField(piece).Ok? && ParseField(piece).value.tag == 10
  {
    EqualsAfter([49, 48], piece[3..]);
    assert piece == [49, 48] + [EQUALS] + piece[3..];
    assert piece[..2] == [49, 48];
    TwoDigits([49, 48]);
  }

  lemma {:induction false} FirstPiece(s: Bytes, n: nat)
    requires n <= |s| && SOH !in s[..n]
    ensures |Split(s)[0]| >= n && Split(s)[0][..n] == s[..n]
  {
    if n > 0 {
      assert s[..n][0] == s[0];
      assert s[1..][..n - 1] == s[..n][1..];
      FirstPiece(s[1..], n - 1);
    }
  }

  /** Whenever the body length is computed, the marker is at or behind the second delimiter, so the
      byte count is never negative; it is -1 before the final + 1 exactly when the trailer directly
      follows the BodyLength field. */
  lemma BodyCountNotNegative(raw: Bytes, marker: nat, fields: seq<Field>)
    requires CheckTrailer(raw) == Ok(marker) && ParseFields(Split(raw)) == Ok(fields)
    requires |fields| >= 2 && fields[0].tag == 8 && fields[1].tag == 9
    ensures |SohPositions(raw, 0)| >= 3 && marker + 1 >= SohPositions(raw, 0)[1] + 1
  {
    MarkerBehindSecond(raw, marker, fields);
  }

  lemma MarkerBehindSecond(raw: Bytes, marker: nat, fields: seq<Field>)
    requires |SohPositions(raw, 0)| >= 3 && MarkerAt(raw, marker)
    requires ParseFields(Split(raw)) == Ok(fields) && |fields| >= 2 && fields[0].tag != 10 && fields[1].tag != 10
    ensures marker >= SohPositions(raw, 0)[1]
  {
    var p, q, more := TwoSohSplit(raw);
    NotAtFirstSoh(p, q + [SOH] + more, marker, fields);
    BehindTwo(p, q, more, marker);
  }

  lemma TwoSohSplit(raw: Bytes) returns (p: Bytes, q: Bytes, more: Bytes)
    requires |SohPositions(raw, 0)| >= 2
    ensures SOH !in p && SOH !in q && raw == p + [SOH] + (q + [SOH] + more)
    ensures SohPositions(raw, 0)[1] == |p| + 1 + |q|
  {
    var rest;
    p, rest := FirstSohSplits(raw, 0);
    SohAfter(p, rest, 0);
    q, more := FirstSohSplits(rest, |p| + 1);
  }

  lemma BehindTwo(p: Bytes, q: Bytes, more: Bytes, i: nat)
    requires SOH !in p && SOH !in q
    requires var s := p + [SOH] + (q + [SOH] + more); i < |s| && s[i] == SOH && i != |p|
    ensures i >= |p| + 1 + |q|
  {
    var rest := q + [SOH] + more;
    SohNotBefore(p, rest, i);
    assert (p + [SOH] + rest)[i] == rest[i - |p| - 1];
    SohNotBefore(q, more, i - |p| - 1);
  }

  lemma SohNotBefore(p: Bytes, rest: Bytes, i: nat)
    requires SOH !in p && i < |p + [SOH] + rest| && (p + [SOH] + rest)[i] == SOH
    ensures i >= |p|
  {
    assert forall k :: 0 <= k < |p| ==> (p + [SOH] + rest)[k] == p[k];
  }

  /** The first delimiter cannot start the trailer when the first two fields are no checksum. */
  lemma NotAtFirstSoh(p: Bytes, rest: Bytes, marker: nat, fields: seq<Field>)
    requires SOH !in p && MarkerAt(p + [SOH] + rest, marker)
    requires ParseFields(Split(p + [SOH] + rest)) == Ok(fields)
    requires |fields| >= 2 && fields[0].tag != 10 && fields[1].tag != 10
    ensures marker != |p|
  {
    MarkerTail(p, rest);
    SecondIsChecksum(p, rest, fields);
  }

  lemma MarkerTail(p: Bytes, rest: Bytes)
    ensures MarkerAt(p + [SOH] + rest, |p|) ==> |rest| >= 3 && rest[..3] == [49, 48, EQUALS]
  {
    var raw := p + [SOH] + rest;
    assert forall k :: 0 <= k < |rest| ==> raw[|p| + 1 + k] == rest[k];
    if MarkerAt(raw, |p|) {
      assert rest[0] == raw[|p| + 1] && rest[1] == raw[|p| + 2] && rest[2] == raw[|p| + 3];
    }
  }

  /** If the first delimiter starts the trailer, one of the first two fields is the checksum. */
  lemma SecondIsChecksum(p: Bytes, rest: Bytes, fields: seq<Field>)
    requires SOH !in p && ParseFields(Split(p + [SOH] + rest)) == Ok(fields) && |fields| >= 2
    ensures |rest| >= 3 && rest[..3] == [49, 48, EQUALS] ==> fields[0].tag == 10 || fields[1].tag == 10
  {
    if |rest| >= 3 && rest[..3] == [49, 48, EQUALS] {
      SplitPiece(p, rest);
      FirstPiece(rest, 3);
      ChecksumPiece(Split(rest)[0]);
      SecondParsed(p, Split(rest), fields);
    }
  }

  lemma SecondParsed(p: Bytes, pieces: seq<Bytes>, fields: seq<Field>)
    requires pieces != [] && pieces[0] != [] && ParseField(pieces[0]).Ok? && ParseField(pieces[0]).value.tag == 10
    requires ParseFields([p] + pieces) == Ok(fields) && |fields| >= 2
    ensures fields[0].tag == 10 || fields[1].tag == 10
  {
    assert ([p] + pieces)[1..] == pieces;
  }

  lemma {:induction false} ParseFieldsNeverPanics(pieces: seq<Bytes>)
    ensures !ParseFields(pieces).Panic?
  {
    if pieces != [] {
      ParseFieldsNeverPanics(pieces[1..]);
    }
  }

  /** The three checksum bytes of a text with enough delimiters end inside a character. */
  predicate SlicesCharacter(raw: Bytes) {
    && Utf8(raw) && |SohPositions(raw, 0)| >= 3 && LastMarker(raw).Some?
    && LastMarker(raw).value + 7 < |raw| && Continuation(raw[LastMarker(raw).value + 7])
  }

  /** The body length is looked at, and the trailer directly follows the BodyLength field. */
  predicate CountUnderflows(raw: Bytes, marker: nat, fields: seq<Field>)
    requires |SohPositions(raw, 0)| >= 3
  {
    && |fields| >= 2 && fields[0].tag == 8 && fields[1].tag == 9
    && ParseUnsigned(fields[1].value, USIZE_MAX).Some?
    && marker == SohPositions(raw, 0)[1]
  }

  /** So far the message is good, and then the count underflows. */
  predicate Underflows(raw: Bytes) {
    && CheckTrailer(raw).Ok? && ParseFields(Split(raw)).Ok?
    && CountUnderflows(raw, CheckTrailer(raw).value, ParseFields(Split(raw)).value)
  }

  lemma TrailerPanics(raw: Bytes)
    ensures CheckTrailer(raw).Panic? <==> SlicesCharacter(raw)
  {
  }

  /** The marker is where it is behind a good trailer. */
  predicate Placed(raw: Bytes, marker: nat, fields: seq<Field>) {
    && |SohPositions(raw, 0)| >= 3
    && (|fields| >= 2 && fields[0].tag == 8 && fields[1].tag == 9 ==> SohPositions(raw, 0)[1] <= marker)
  }

  lemma GoodIsPlaced(raw: Bytes)
    requires CheckTrailer(raw).Ok? && ParseFields(Split(raw)).Ok?
    ensures Placed(raw, CheckTrailer(raw).value, ParseFields(Split(raw)).value)
  {
    var marker, fields := CheckTrailer(raw).value, ParseFields(Split(raw)).value;
    if |fields| >= 2 && fields[0].tag == 8 && fields[1].tag == 9 {
      BodyCountNotNegative(raw, marker, fields);
    }
  }

  /** Then only the byte count can panic. */
  lemma CountPanics(profile: Profile, raw: Bytes, marker: nat, fields: seq<Field>)
    requires Placed(raw, marker, fields)
    ensures CheckFields(profile, raw, marker, fields).Panic? <==> profile == Checked && CountUnderflows(raw, marker, fields)
  {
  }

  /** The parser fails with an error, not a panic, on every message but these: the checksum bytes end
      inside a character, or, in a build that checks overflow, the trailer directly follows the
      BodyLength field, so that the subtraction in marker - start + 1, which comes first, is negative. */
  lemma PanicsExactlyWhen(profile: Profile, raw: Bytes)
    ensures Validate(profile, raw).Panic? <==> SlicesCharacter(raw) || (profile == Checked && Underflows(raw))
  {
    TrailerPanics(raw);
    ParseFieldsNeverPanics(Split(raw));
    if CheckTrailer(raw).Ok? && ParseFields(Split(raw)).Ok? {
      GoodIsPlaced(raw);
      CountPanics(profile, raw, CheckTrailer(raw).value, ParseFields(Split(raw)).value);
    }
  }

  lemma CountsAgree(raw: Bytes, marker: nat, fields: seq<Field>)
    requires marker < |raw| <= USIZE_MAX && Placed(raw, marker, fields)
    ensures CheckFields(Checked, raw, marker, fields)
         == if CountUnderflows(raw, marker, fields) then Panic else CheckFields(Wrapping, raw, marker, fields)
  {
    var bodyStart := SohPositions(raw, 0)[1] + 1;
    if bodyStart <= marker + 1 {
      BodyCountIs(Wrapping, marker, bodyStart);
      BodyCountIs(Checked, marker, bodyStart);
    }
  }

  /** Where the checked build does not panic for the count, both builds give the same verdict. */
  lemma ProfilesAgree(raw: Bytes)
    requires |raw| <= USIZE_MAX
    ensures Validate(Checked, raw) == if Underflows(raw) then Panic else Validate(Wrapping, raw)
  {
    if CheckTrailer(raw).Ok? && ParseFields(Split(raw)).Ok? {
      GoodIsPlaced(raw);
      CountsAgree(raw, CheckTrailer(raw).value, ParseFields(Split(raw)).value);
    }
  }

  lemma ThreeSohs(rest: Bytes)
    ensures |SohPositions([SOH, SOH, SOH] + rest, 0)| >= 3
  {
    var none: Bytes := [];
    assert [SOH, SOH, SOH] + rest == none + [SOH] + (none + [SOH] + (none + [SOH] + rest));
    SohAfter(none, none + [SOH] + (none + [SOH] + rest), 0);
    SohAfter(none, none + [SOH] + rest, 1);
    SohAfter(none, rest, 2);
  }

  lemma AccentedTail()
    ensures Utf8([SOH, SOH, SOH, 49, 48, EQUALS] + [0xC3, 0xA9, 0xC3, 0xA9])
  {
    var e: Bytes := [0xC3, 0xA9];
    assert CharLength(e) == 2 && e[2..] == [];
    Utf8Append(e, e);
    assert e + e == [0xC3, 0xA9, 0xC3, 0xA9];
    AsciiIsUtf8([SOH, SOH, SOH, 49, 48, EQUALS]);
    Utf8Append([SOH, SOH, SOH, 49, 48, EQUALS], e + e);
  }

  /** And there are such messages. */
  lemma ParserCanPanic(profile: Profile)
    ensures Validate(profile, [SOH, SOH, SOH, 49, 48, EQUALS] + [0xC3, 0xA9, 0xC3, 0xA9]) == Panic
  {
    var raw: Bytes := [SOH, SOH, SOH, 49, 48, EQUALS] + [0xC3, 0xA9, 0xC3, 0xA9];
    AccentedTail();
    assert raw == [SOH, SOH, SOH] + raw[3..];
    ThreeSohs(raw[3..]);
    assert MarkerAt(raw, 2);
    PanicsExactlyWhen(profile, raw);
  }

  /** A message that stops behind its BodyLength field. */
  const BODILESS: seq<Field> := [Field(8, [70]), Field(9, [ZERO])]

  lemma BodilessText()
    ensures AllClean(BODILESS) && Render(BODILESS) == [56, EQUALS, 70, SOH, 57, EQUALS, ZERO, SOH]
  {
    AsciiClean(8, [70]);
    AsciiClean(9, [ZERO]);
    assert Decimal(8) == [56] && Decimal(9) == [57];
    RenderTwo(BODILESS[0], BODILESS[1]);
    assert BODILESS == [BODILESS[0], BODILESS[1]];
  }

  lemma BodilessSum()
    ensures Checksum([56, EQUALS, 70, SOH, 57, EQUALS, ZERO, SOH]) == 99
  {
    var a: Bytes, b: Bytes := [56, EQUALS, 70, SOH], [57, EQUALS, ZERO, SOH];
    assert [56, EQUALS, 70, SOH, 57, EQUALS, ZERO, SOH] == a + b;
    SumAppend(a, b);
    SumOfFour(56, EQUALS, 70, SOH);
    SumOfFour(57, EQUALS, ZERO, SOH);
  }

  lemma SumSnoc(s: Bytes, b: Byte)
    ensures Sum(s + [b]) == Sum(s) + b
  {
    assert (s + [b])[..|s|] == s;
  }

  lemma SumOfFour(w: Byte, x: Byte, y: Byte, z: Byte)
    ensures Sum([w, x, y, z]) == w + x + y + z
  {
    SumSnoc([], w);
    SumSnoc([w], x);
    SumSnoc([w, x], y);
    SumSnoc([w, x, y], z);
    assert [] + [w] == [w] && [w] + [x] == [w, x] && [w, x] + [y] == [w, x, y] && [w, x, y] + [z] == [w, x, y, z];
  }

  /** Such a message: a checked build panics on it, a wrapping one counts zero and goes on. */
  lemma ParserCanUnderflow()
    ensures var raw := [56, EQUALS, 70, SOH, 57, EQUALS, ZERO, SOH] + Trailer([ZERO, 57, 57], SOH);
      Validate(Checked, raw) == Panic && Validate(Wrapping, raw) == Err(MissingRequiredTag(35))
  {
    var c: Bytes := [ZERO, 57, 57];
    BodilessText();
    BodilessSum();
    var r := Render(BODILESS);
    assert c == Padded(99);
    PaddedParses(99);
    TrailerChecked(BODILESS, c, SOH);
    RenderedParses(BODILESS, Trailer(c, SOH));
    TrailerParses(c, SOH);
    SecondSoh(BODILESS[0], BODILESS[1], Trailer(c, SOH));
    BodilessVerdict(r + Trailer(c, SOH), BODILESS + [Field(10, c)]);
  }

  lemma BodilessVerdict(raw: Bytes, fields: seq<Field>)
    requires |SohPositions(raw, 0)| >= 3 && SohPositions(raw, 0)[1] == 7
    requires CheckTrailer(raw) == Ok(7) && ParseFields(Split(raw)) == Ok(fields)
    requires fields == BODILESS + [Field(10, [ZERO, 57, 57])]
    ensures Validate(Checked, raw) == Panic && Validate(Wrapping, raw) == Err(MissingRequiredTag(35))
  {
    assert fields[0].tag == 8 && fields[1] == Field(9, [ZERO]) && fields[2].tag == 10 && |fields| == 3;
    assert Decimal(0) == [ZERO];
    DecimalParses(0, USIZE_MAX);
    BodyCountIs(Wrapping, 7, 8);
    BodyCountIs(Checked, 7, 8);
    GetNone(fields, 35);
  }
}
