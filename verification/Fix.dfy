/** The FIX 4.2 NewOrderSingle parser and builder (risk/src/fix.rs), on bytes. */
module Fix {
  import opened Orders
  import opened Wire

  const SOH: Byte := 1
  const EQUALS: Byte := 61
  const PLUS: Byte := 43
  const ZERO: Byte := 48

  const USIZE_MAX: nat := TWO_64 - 1
  const U32_MAX: nat := TWO_32 - 1

  type Bytes = seq<Byte>

  datatype Field = Field(tag: nat, value: Bytes)

  datatype FixError =
    | NotUtf8
    | EmptyMessage
    | MissingDelimiter
    | InvalidTag(text: Bytes)
    | MissingRequiredTag(tag: nat)
    | MalformedChecksumField
    | MalformedField(tag: nat)
    | ChecksumMismatch(expected: nat, computed: nat)
    | BodyLengthMismatch(declared: nat, actual: nat)
    | UnexpectedMsgType(text: Bytes)

  /** Panic is the run-time failure of slicing a string inside a character, or of an overflow. */
  datatype Result<+T> = Ok(value: T) | Err(error: FixError) | Panic {
    predicate IsFailure() {
      !Ok?
    }

    function PropagateFailure<U>(): Result<U>
      requires IsFailure()
    {
      if Err? then Err(error) else Panic
    }

    function Extract(): T
      requires Ok?
    {
      value
    }
  }

  // ----- text -----

  predicate Continuation(b: Byte) {
    0x80 <= b < 0xC0
  }

  /** The length of the UTF-8 character that s starts with, 0 if there is none (std::str::from_utf8). */
  function CharLength(s: Bytes): (n: nat)
    ensures n <= |s|
    ensures s != [] && s[0] < 0x80 ==> n == 1
  {
    if s == [] then 0
    else if s[0] < 0x80 then 1
    else if 0xC2 <= s[0] < 0xE0 then
      if |s| >= 2 && Continuation(s[1]) then 2 else 0
    else if 0xE0 <= s[0] < 0xF0 then
      if |s| >= 3 && Continuation(s[1]) && Continuation(s[2])
         && (s[0] == 0xE0 ==> s[1] >= 0xA0) && (s[0] == 0xED ==> s[1] < 0xA0) then 3 else 0
    else if 0xF0 <= s[0] < 0xF5 then
      if |s| >= 4 && Continuation(s[1]) && Continuation(s[2]) && Continuation(s[3])
         && (s[0] == 0xF0 ==> s[1] >= 0x90) && (s[0] == 0xF4 ==> s[1] < 0x90) then 4 else 0
    else 0
  }

  predicate Utf8(s: Bytes)
    decreases |s|
  {
    s == [] || (CharLength(s) > 0 && Utf8(s[CharLength(s)..]))
  }

  /** Where the delimiters are. */
  function SohPositions(s: Bytes, at: nat): seq<nat> {
    if s == [] then [] else (if s[0] == SOH then [at] else []) + SohPositions(s[1..], at + 1)
  }

  /** str::split on the delimiter: the pieces between delimiters, empty ones included. */
  function Split(s: Bytes): (pieces: seq<Bytes>)
    ensures pieces != []
  {
    if s == [] then [[]]
    else
      var more := Split(s[1..]);
      if s[0] == SOH then [[]] + more else [[s[0]] + more[0]] + more[1..]
  }

  /** The position of the first equals sign, or the length. */
  function EqualsAt(s: Bytes): (i: nat)
    ensures i <= |s|
    ensures i < |s| ==> s[i] == EQUALS
    ensures EQUALS !in s[..i]
  {
    if s == [] || s[0] == EQUALS then 0 else 1 + EqualsAt(s[1..])
  }

  predicate AllDigits(s: Bytes) {
    forall i :: 0 <= i < |s| ==> ZERO <= s[i] < ZERO + 10
  }

  function Number(digits: Bytes): nat
    requires AllDigits(digits)
  {
    if digits == [] then 0 else Number(digits[..|digits| - 1]) * 10 + (digits[|digits| - 1] - ZERO)
  }

  /** str::parse of an unsigned type: an optional plus sign, at least one digit, no overflow. */
  function ParseUnsigned(s: Bytes, max: nat): Option<nat> {
    var digits := if s != [] && s[0] == PLUS then s[1..] else s;
    if digits != [] && AllDigits(digits) && Number(digits) <= max then Some(Number(digits)) else None
  }

  function Decimal(n: nat): (s: Bytes)
    ensures s != []
  {
    if n < 10 then [ZERO + n] else Decimal(n / 10) + [ZERO + n % 10]
  }

  /** format!("{:03}") of a byte. */
  function Padded(n: nat): (s: Bytes)
    requires n < 256
    ensures |s| == 3
  {
    [ZERO + n / 100, ZERO + n / 10 % 10, ZERO + n % 10]
  }

  function Sum(s: Bytes): nat {
    if s == [] then 0 else Sum(s[..|s| - 1]) + s[|s| - 1]
  }

  /** The wrapping sum of all bytes. */
  function Checksum(s: Bytes): Byte {
    Sum(s) % 256
  }

  // ----- the parser -----

  predicate MarkerAt(s: Bytes, i: nat) {
    i + 4 <= |s| && s[i] == SOH && s[i + 1] == 49 && s[i + 2] == 48 && s[i + 3] == EQUALS
  }

  /** The last position below n where the checksum field's marker starts (str::rfind). */
  function LastMarkerBelow(s: Bytes, n: nat): (r: Option<nat>)
    ensures r.Some? ==> r.value < n && MarkerAt(s, r.value) && forall j :: r.value < j < n ==> !MarkerAt(s, j)
    ensures r.None? ==> forall j :: 0 <= j < n ==> !MarkerAt(s, j)
  {
    if n == 0 then None else if MarkerAt(s, n - 1) then Some(n - 1) else LastMarkerBelow(s, n - 1)
  }

  function LastMarker(s: Bytes): Option<nat> {
    LastMarkerBelow(s, |s|)
  }

  /** The checks up to the checksum; the result is where the checksum field's marker starts. */
  function CheckTrailer(raw: Bytes): Result<nat> {
    if !Utf8(raw) then Err(NotUtf8)
    else if raw == [] then Err(EmptyMessage)
    else if |SohPositions(raw, 0)| < 3 then Err(MissingDelimiter)
    else
      var marker := LastMarker(raw);
      if marker == None then Err(MissingRequiredTag(10))
      else
        var computed, start := Checksum(raw[..marker.value + 1]), marker.value + 4;
        if |raw| < start + 3 then Err(MalformedChecksumField)
        else if start + 3 < |raw| && Continuation(raw[start + 3]) then Panic
        else
          var parsed := ParseUnsigned(raw[start..start + 3], U32_MAX);
          if parsed == None then Err(MalformedChecksumField)
          else if parsed.value % 256 != computed then Err(ChecksumMismatch(parsed.value % 256, computed))
          else Ok(marker.value)
  }

  /** One piece as a field: split at the first equals sign, the tag a number. */
  function ParseField(piece: Bytes): Result<Field> {
    var i := EqualsAt(piece);
    if i == |piece| then Err(MissingDelimiter)
    else
      var tag := ParseUnsigned(piece[..i], U32_MAX);
      if tag == None then Err(InvalidTag(piece[..i])) else Ok(Field(tag.value, piece[i + 1..]))
  }

  /** All non-empty pieces as fields, stopping at the first that is none. */
  function ParseFields(pieces: seq<Bytes>): Result<seq<Field>> {
    if pieces == [] then Ok([])
    else if pieces[0] == [] then ParseFields(pieces[1..])
    else
      var field :- ParseField(pieces[0]);
      var more :- ParseFields(pieces[1..]);
      Ok([field] + more)
  }

  /** The value of the first field with this tag. */
  function ValueOf(fields: seq<Field>, tag: nat): Option<Bytes> {
    if fields == [] then None else if fields[0].tag == tag then Some(fields[0].value) else ValueOf(fields[1..], tag)
  }

  function FirstMissing(fields: seq<Field>, tags: seq<nat>): Option<nat> {
    if tags == [] then None
    else if ValueOf(fields, tags[0]) == None then Some(tags[0])
    else FirstMissing(fields, tags[1..])
  }

  const REQUIRED: seq<nat> := [11, 55, 54, 38, 40]

  /** The tags of a NewOrderSingle are there. */
  function CheckTags(fields: seq<Field>): Result<seq<Field>> {
    var msgType := ValueOf(fields, 35);
    if msgType == None then Err(MissingRequiredTag(35))
    else if msgType.value != [68] then Err(UnexpectedMsgType(msgType.value))
    else
      var missing := FirstMissing(fields, REQUIRED);
      if missing != None then Err(MissingRequiredTag(missing.value))
      else if ValueOf(fields, 40) == Some([50]) && ValueOf(fields, 44) == None then Err(MissingRequiredTag(44))
      else Ok(fields)
  }

  /** How the program is compiled: the arithmetic of usize wraps around, or an overflow panics. */
  datatype Profile = Wrapping | Checked

  /** The byte count from the body's start to the marker, both ends included, as usize computes it:
      the subtraction comes first. None is a panic. */
  function BodyCount(profile: Profile, marker: nat, bodyStart: nat): Option<nat> {
    match profile
    case Wrapping => Some(((marker - bodyStart) % (USIZE_MAX + 1) + 1) % (USIZE_MAX + 1))
    case Checked => if marker < bodyStart then None else Some(marker - bodyStart + 1)
  }

  /** The first two fields and the body length. */
  function CheckFields(profile: Profile, raw: Bytes, marker: nat, fields: seq<Field>): Result<seq<Field>>
    requires |SohPositions(raw, 0)| >= 3
  {
    if |fields| < 2 || fields[0].tag != 8 then Err(MissingRequiredTag(8))
    else if fields[1].tag != 9 then Err(MissingRequiredTag(9))
    else
      var bodyStart := SohPositions(raw, 0)[1] + 1;
      var declared := ParseUnsigned(fields[1].value, USIZE_MAX);
      var actual := BodyCount(profile, marker, bodyStart);
      if declared == None then Err(MalformedField(9))
      else if actual == None then Panic
      else if declared.value != actual.value then Err(BodyLengthMismatch(declared.value, actual.value))
      else CheckTags(fields)
  }

  function Validate(profile: Profile, raw: Bytes): Result<seq<Field>> {
    var marker :- CheckTrailer(raw);
    var fields :- ParseFields(Split(raw));
    CheckFields(profile, raw, marker, fields)
  }

  /** Fields in a hash map: of two fields with one tag, the later stays. */
  function ToMap(fields: seq<Field>): map<nat, Bytes> {
    if fields == [] then map[]
    else ToMap(fields[..|fields| - 1])[fields[|fields| - 1].tag := fields[|fields| - 1].value]
  }

  function ParseNaive(profile: Profile, raw: Bytes): Result<map<nat, Bytes>> {
    var fields :- Validate(profile, raw);
    Ok(ToMap(fields))
  }

  function ParseZeroCopy(profile: Profile, raw: Bytes): Result<seq<Field>> {
    Validate(profile, raw)
  }

  // ----- the builder -----

  datatype OrderFields = OrderFields(
    seqNum: nat, clOrdId: Bytes, symbol: Bytes, side: Bytes, orderQty: nat, ordType: Bytes, price: Option<Bytes>)

  function FieldText(f: Field): Bytes {
    Decimal(f.tag) + [EQUALS] + f.value
  }

  function Render(fields: seq<Field>): Bytes {
    if fields == [] then [] else FieldText(fields[0]) + [SOH] + Render(fields[1..])
  }

  const SENDER: Bytes := [83, 69, 78, 68, 69, 82]
  const TARGET: Bytes := [84, 65, 82, 71, 69, 84]
  const SENDING_TIME: Bytes := [50, 48, 50, 54, 48, 49, 48, 49, 45, 48, 48, 58, 48, 48, 58, 48, 48]
  const BEGIN_STRING: Bytes := [70, 73, 88, 46, 52, 46, 50]

  function SessionFields(f: OrderFields): seq<Field> {
    [Field(35, [68]), Field(49, SENDER), Field(56, TARGET), Field(34, Decimal(f.seqNum)), Field(52, SENDING_TIME)]
  }

  function EconomicFields(f: OrderFields): seq<Field> {
    [Field(11, f.clOrdId), Field(55, f.symbol), Field(54, f.side), Field(38, Decimal(f.orderQty)), Field(40, f.ordType)]
  }

  function PriceFields(f: OrderFields): seq<Field> {
    if f.price == None then [] else [Field(44, f.price.value)]
  }

  function BodyFields(f: OrderFields): seq<Field> {
    SessionFields(f) + EconomicFields(f) + PriceFields(f) + [Field(59, [ZERO])]
  }

  function HeadFields(f: OrderFields): seq<Field> {
    [Field(8, BEGIN_STRING), Field(9, Decimal(|Render(BodyFields(f))|))]
  }

  /** Everything the checksum covers. */
  function Summed(f: OrderFields): Bytes {
    Render(HeadFields(f) + BodyFields(f))
  }

  /** The checksum as the trailer shows it. */
  function Stamp(f: OrderFields): Bytes {
    Padded(Checksum(Summed(f)))
  }

  function Build(f: OrderFields): Bytes {
    Summed(f) + FieldText(Field(10, Stamp(f))) + [SOH]
  }

  /** The fields of a message built from f, with any checksum field. */
  function WithChecksum(f: OrderFields, v: Bytes): seq<Field> {
    HeadFields(f) + BodyFields(f) + [Field(10, v)]
  }

  /** The tag/value list that a built message prints. */
  function Printed(f: OrderFields): seq<Field> {
    WithChecksum(f, Stamp(f))
  }
}
