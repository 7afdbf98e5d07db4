/** The FIX parser and builder as the program runs them (risk/src/fix.rs): fields are pushed in a loop,
    the message is appended to piece by piece. Each is proved equal to its function in Fix. */
module FixMessages {
  import opened Orders
  import opened Wire
  import opened Fix
  import opened FixLaws

  /** The wrapping byte sum, folded from the front. */
  method WrappingSum(s: Bytes) returns (sum: Byte)
    ensures sum == Checksum(s)
  {
    sum := 0;
    for i := 0 to |s|
      invariant sum == Checksum(s[..i])
    {
      assert s[..i + 1][..i] == s[..i];
      sum := (sum + s[i]) % 256;
    }
    TakeAll(s);
  }

  method CollectSoh(s: Bytes) returns (positions: seq<nat>)
    ensures positions == SohPositions(s, 0)
  {
    positions := [];
    for i := 0 to |s|
      invariant positions == SohPositions(s[..i], 0)
    {
      assert s[..i + 1] == s[..i] + [s[i]];
      SohPositionsAppend(s[..i], [s[i]], 0);
      if s[i] == SOH {
        positions := positions + [i];
      }
    }
    TakeAll(s);
  }

  lemma ParseFieldsFrom(pieces: seq<Bytes>, i: nat)
    requires i < |pieces|
    ensures ParseFields(pieces[i..])
         == if pieces[i] == [] then ParseFields(pieces[i + 1..])
            else if !ParseField(pieces[i]).Ok? then ParseField(pieces[i]).PropagateFailure()
            else Prefixed([ParseField(pieces[i]).value], ParseFields(pieces[i + 1..]))
  {
    assert pieces[i..][1..] == pieces[i + 1..] && pieces[i..][0] == pieces[i];
  }

  /** Every non-empty piece is split at its first equals sign and pushed. */
  method PushFields(pieces: seq<Bytes>) returns (r: Result<seq<Field>>)
    ensures r == ParseFields(pieces)
  {
    var fields: seq<Field> := [];
    assert pieces[0..] == pieces;
    assert ParseFields(pieces).Ok? ==> [] + ParseFields(pieces).value == ParseFields(pieces).value;
    for i := 0 to |pieces|
      invariant ParseFields(pieces) == Prefixed(fields, ParseFields(pieces[i..]))
    {
      ParseFieldsFrom(pieces, i);
      if pieces[i] == [] {
        continue;
      }
      var field := ParseField(pieces[i]);
      if field.Err? {
        return Err(field.error);
      }
      PrefixedTwice(fields, [field.value], ParseFields(pieces[i + 1..]));
      fields := fields + [field.value];
    }
    assert fields + [] == fields;
    r := Ok(fields);
  }

  lemma FirstMissingFrom(fields: seq<Field>, tags: seq<nat>, i: nat)
    requires i < |tags|
    ensures FirstMissing(fields, tags[i..])
         == if ValueOf(fields, tags[i]) == None then Some(tags[i]) else FirstMissing(fields, tags[i + 1..])
  {
    assert tags[i..][1..] == tags[i + 1..] && tags[i..][0] == tags[i];
  }

  /** The checks on the tags, in the order the program makes them. */
  method RequireTags(fields: seq<Field>) returns (r: Result<seq<Field>>)
    ensures r == CheckTags(fields)
  {
    var msgType := ValueOf(fields, 35);
    if msgType == None {
      return Err(MissingRequiredTag(35));
    }
    if msgType.value != [68] {
      return Err(UnexpectedMsgType(msgType.value));
    }
    assert REQUIRED[0..] == REQUIRED;
    for i := 0 to |REQUIRED|
      invariant FirstMissing(fields, REQUIRED) == FirstMissing(fields, REQUIRED[i..])
    {
      FirstMissingFrom(fields, REQUIRED, i);
      if ValueOf(fields, REQUIRED[i]) == None {
        return Err(MissingRequiredTag(REQUIRED[i]));
      }
    }
    if ValueOf(fields, 40) == Some([50]) && ValueOf(fields, 44) == None {
      return Err(MissingRequiredTag(44));
    }
    r := Ok(fields);
  }

  /** The checks up to the checksum. */
  method FindTrailer(raw: Bytes, sohPositions: seq<nat>) returns (r: Result<nat>)
    requires Utf8(raw) && raw != [] && sohPositions == SohPositions(raw, 0) && |sohPositions| >= 3
    ensures r == CheckTrailer(raw)
  {
    var marker := LastMarker(raw);
    if marker == None {
      return Err(MissingRequiredTag(10));
    }
    var computed := WrappingSum(raw[..marker.value + 1]);
    var valueStart := marker.value + 4;
    if |raw| < valueStart + 3 {
      return Err(MalformedChecksumField);
    }
    if valueStart + 3 < |raw| && Continuation(raw[valueStart + 3]) {
      return Panic;
    }
    var declared := ParseUnsigned(raw[valueStart..valueStart + 3], U32_MAX);
    if declared == None {
      return Err(MalformedChecksumField);
    }
    if declared.value % 256 != computed {
      return Err(ChecksumMismatch(declared.value % 256, computed));
    }
    r := Ok(marker.value);
  }

  /** The first two fields and the body length. usize subtracts before it adds: a build that checks
      overflow panics when the marker is in front of the body, any other wraps around. */
  method CheckBody(profile: Profile, raw: Bytes, sohPositions: seq<nat>, marker: nat, fields: seq<Field>)
    returns (r: Result<seq<Field>>)
    requires sohPositions == SohPositions(raw, 0) && |sohPositions| >= 3
    ensures r == CheckFields(profile, raw, marker, fields)
  {
    if |fields| < 2 || fields[0].tag != 8 {
      return Err(MissingRequiredTag(8));
    }
    if fields[1].tag != 9 {
      return Err(MissingRequiredTag(9));
    }
    var bodyStart := sohPositions[1] + 1;
    var declared := ParseUnsigned(fields[1].value, USIZE_MAX);
    if declared == None {
      return Err(MalformedField(9));
    }
    if profile == Checked && marker < bodyStart {
      return Panic;
    }
    var before: int := marker - bodyStart;
    var actual: nat := if profile == Checked then before + 1 else (before % (USIZE_MAX + 1) + 1) % (USIZE_MAX + 1);
    if declared.value != actual {
      return Err(BodyLengthMismatch(declared.value, actual));
    }
    r := RequireTags(fields);
  }

  /** validate_and_parse_fields */
  method ValidateAndParseFields(profile: Profile, raw: Bytes) returns (r: Result<seq<Field>>)
    ensures r == Validate(profile, raw)
  {
    if !Utf8(raw) {
      return Err(NotUtf8);
    }
    if raw == [] {
      return Err(EmptyMessage);
    }
    var sohPositions := CollectSoh(raw);
    if |sohPositions| < 3 {
      return Err(MissingDelimiter);
    }
    var marker := FindTrailer(raw, sohPositions);
    if !marker.Ok? {
      return marker.PropagateFailure();
    }
    var fields := PushFields(Split(raw));
    if !fields.Ok? {
      return fields;
    }
    r := CheckBody(profile, raw, sohPositions, marker.value, fields.value);
  }

  /** One field and its delimiter appended to a message that holds the fields so far. */
  method Push(message: Bytes, ghost fields: seq<Field>, f: Field) returns (m: Bytes)
    requires message == Render(fields)
    ensures m == Render(fields + [f])
  {
    m := message + FieldText(f) + [SOH];
    RenderAppend(fields, [f]);
    assert [f][1..] == [];
    assert FieldText(f) + [SOH] + [] == FieldText(f) + [SOH];
    assert Render(fields) + (FieldText(f) + [SOH]) == m;
  }

  method PushSession(f: OrderFields) returns (body: Bytes)
    ensures body == Render(SessionFields(f))
  {
    ghost var done: seq<Field> := [];
    body := [];
    body := Push(body, done, Field(35, [68]));
    done := done + [Field(35, [68])];
    body := Push(body, done, Field(49, SENDER));
    done := done + [Field(49, SENDER)];
    body := Push(body, done, Field(56, TARGET));
    done := done + [Field(56, TARGET)];
    body := Push(body, done, Field(34, Decimal(f.seqNum)));
    done := done + [Field(34, Decimal(f.seqNum))];
    body := Push(body, done, Field(52, SENDING_TIME));
    done := done + [Field(52, SENDING_TIME)];
    assert done == SessionFields(f);
  }

  method PushEconomics(message: Bytes, f: OrderFields) returns (body: Bytes)
    requires message == Render(SessionFields(f))
    ensures body == Render(SessionFields(f) + EconomicFields(f))
  {
    ghost var done := SessionFields(f);
    body := message;
    body := Push(body, done, Field(11, f.clOrdId));
    done := done + [Field(11, f.clOrdId)];
    body := Push(body, done, Field(55, f.symbol));
    done := done + [Field(55, f.symbol)];
    body := Push(body, done, Field(54, f.side));
    done := done + [Field(54, f.side)];
    body := Push(body, done, Field(38, Decimal(f.orderQty)));
    done := done + [Field(38, Decimal(f.orderQty))];
    body := Push(body, done, Field(40, f.ordType));
    done := done + [Field(40, f.ordType)];
    assert done == SessionFields(f) + EconomicFields(f);
  }

  /** build_new_order_single: the body first, then the head that counts it, then the checksum. */
  method BuildNewOrderSingle(f: OrderFields) returns (message: Bytes)
    ensures message == Build(f)
    ensures Encodable(f) ==> forall profile :: ParseZeroCopy(profile, message) == Ok(Printed(f)) <==> FreeOfSoh(f) && !Priceless(f)
  {
    var body := PushSession(f);
    body := PushEconomics(body, f);
    ghost var done := SessionFields(f) + EconomicFields(f);
    assert done + [] == done;
    if f.price != None {
      body := Push(body, done, Field(44, f.price.value));
    }
    body := Push(body, done + PriceFields(f), Field(59, [ZERO]));
    message := Push([], [], Field(8, BEGIN_STRING));
    message := Push(message, [Field(8, BEGIN_STRING)], Field(9, Decimal(|body|)));
    assert [] + [Field(8, BEGIN_STRING)] == [Field(8, BEGIN_STRING)];
    assert [Field(8, BEGIN_STRING)] + [Field(9, Decimal(|body|))] == HeadFields(f);
    message := message + body;
    RenderAppend(HeadFields(f), BodyFields(f));
    var checksum := WrappingSum(message);
    message := message + FieldText(Field(10, Padded(checksum)));
    message := message + [SOH];
    if Encodable(f) {
      forall profile ensures ParseZeroCopy(profile, message) == Ok(Printed(f)) <==> FreeOfSoh(f) && !Priceless(f) {
        RoundTrip(profile, f);
      }
    }
  }
}
