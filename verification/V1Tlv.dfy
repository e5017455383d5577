/** The schema-driven TLV parser of the v1 protocol and the canonical printer it inverts. */
module V1Tlv {
  import opened Common
  import opened BigEndian
  import Utf8

  const MAX_FIELDS := 256

  // Wire types, by their codes on the wire.
  const U8: u8 := 1
  const U16: u8 := 2
  const U32: u8 := 3
  const U64: u8 := 4
  const BYTES: u8 := 5
  const UTF8: u8 := 6
  const BOOL: u8 := 7

  datatype ErrorCode =
    | NoError
    | MalformedFrame
    | FrameTooLarge
    | MalformedMessage
    | UnsupportedVersion
    | DowngradeDetected
    | UnsupportedCapability
    | UnsupportedMessage
    | UnknownCriticalField
    | StateViolation
    | MessageIdViolation
    | LimitExceeded

  datatype Presence = Required | Optional | Conditional

  datatype FieldRule = FieldRule(id: u16, wire: u8, presence: Presence, repeated: bool, minimum: u32, maximum: u32)

  datatype Field = Field(id: u16, wire: u8, flags: u8, value: seq<u8>)

  predicate IsKnownWireType(wire: u8) {
    U8 <= wire <= BOOL
  }

  function FixedWireLength(wire: u8): (r: nat) {
    if wire == U8 || wire == BOOL then 1
    else if wire == U16 then 2
    else if wire == U32 then 4
    else if wire == U64 then 8
    else 0
  }

  function FindRule(schema: seq<FieldRule>, id: u16): (r: Option<FieldRule>)
    ensures r.Some? <==> exists i :: 0 <= i < |schema| && schema[i].id == id
    ensures r.Some? ==> r.value in schema && r.value.id == id
  {
    if |schema| == 0 then None
    else if schema[0].id == id then Some(schema[0])
    else FindRule(schema[1..], id)
  }

  /** `FieldCollection::Count`. */
  function Count(fields: seq<Field>, id: u16): (n: nat)
    ensures n == 0 <==> forall i :: 0 <= i < |fields| ==> fields[i].id != id
  {
    if |fields| == 0 then 0
    else Count(fields[..|fields| - 1], id) + if fields[|fields| - 1].id == id then 1 else 0
  }

  /** `ValidateWireValue`: the value has the shape its wire type demands. */
  ghost predicate ValueOk(wire: u8, value: seq<u8>) {
    && (FixedWireLength(wire) != 0 ==> |value| == FixedWireLength(wire))
    && (wire == BOOL ==> value[0] <= 1)
    && (wire == UTF8 ==> Utf8.IsText(value))
  }

  // ----- The language of canonical TLV sequences -----

  predicate IsField(f: Field) {
    |f.value| < 0x1_0000_0000
  }

  function EncodeField(f: Field): (bytes: seq<u8>)
    requires IsField(f)
    ensures |bytes| == 8 + |f.value|
  {
    WriteU16(f.id) + [f.wire, f.flags] + WriteU32(|f.value|) + f.value
  }

  function EncodeFields(fields: seq<Field>): (bytes: seq<u8>)
    requires forall i :: 0 <= i < |fields| ==> IsField(fields[i])
  {
    if |fields| == 0 then [] else EncodeField(fields[0]) + EncodeFields(fields[1..])
  }

  /** What one field must satisfy on its own. */
  ghost predicate Conforms(f: Field, schema: seq<FieldRule>) {
    && IsField(f)
    && IsKnownWireType(f.wire)
    && f.flags <= 1
    && ValueOk(f.wire, f.value)
    && match FindRule(schema, f.id)
       case None => f.flags == 0
       case Some(rule) =>
         && (f.flags == 1 <==> rule.presence != Optional)
         && f.wire == rule.wire
         && rule.minimum <= |f.value| <= rule.maximum
  }

  predicate IsScalarId(schema: seq<FieldRule>, id: u16) {
    var rule := FindRule(schema, id);
    rule.Some? && !rule.value.repeated
  }

  /** Ids never decrease, and no scalar id occurs twice. */
  ghost predicate Ordered(fields: seq<Field>, schema: seq<FieldRule>) {
    && (forall i, j :: 0 <= i < j < |fields| ==> fields[i].id <= fields[j].id)
    && (forall i, j :: 0 <= i < j < |fields| && IsScalarId(schema, fields[i].id) ==> fields[i].id != fields[j].id)
  }

  /** A canonical message: bounded, id-ordered, schema-conforming, complete, scalars at most once. */
  ghost predicate Canonical(fields: seq<Field>, schema: seq<FieldRule>) {
    && |fields| <= MAX_FIELDS
    && (forall i :: 0 <= i < |fields| ==> Conforms(fields[i], schema))
    && Ordered(fields, schema)
    && (forall r :: 0 <= r < |schema| && schema[r].presence == Required ==> Count(fields, schema[r].id) > 0)
  }

  /** The fields the schema knows, in order. */
  function Known(fields: seq<Field>, schema: seq<FieldRule>): (r: seq<Field>)
    ensures |r| <= |fields|
  {
    if |fields| == 0 then []
    else (if FindRule(schema, fields[0].id).Some? then [fields[0]] else []) + Known(fields[1..], schema)
  }

  // ----- The parser, as a function of the bytes left to read -----

  predicate HasRequired(schema: seq<FieldRule>, output: seq<Field>) {
    forall r :: 0 <= r < |schema| && schema[r].presence == Required ==> Count(output, schema[r].id) > 0
  }

  /** The schema checks between the header checks and the value check. */
  function RuleError(schema: seq<FieldRule>, id: u16, wire: u8, flags: u8, length: u32,
                     output: seq<Field>): (e: ErrorCode)
  {
    match FindRule(schema, id)
    case None => if flags % 2 == 1 then UnknownCriticalField else NoError
    case Some(rule) =>
      var critical := flags % 2 == 1;
      if rule.presence == Optional && critical then MalformedMessage
      else if rule.presence != Optional && !critical then MalformedMessage
      else if wire != rule.wire then MalformedMessage
      else if length < rule.minimum || length > rule.maximum then MalformedMessage
      else if !rule.repeated && Count(output, id) != 0 then MalformedMessage
      else NoError
  }

  /** The header at the start of `data`: id, wire type, flags, declared length. */
  function Header(data: seq<u8>): (h: (u16, u8, u8, u32))
    requires |data| >= 8
  {
    (ReadU16(data[..2]), data[2], data[3], ReadU32(data[4..8]))
  }

  /** One iteration of the loop: the field at the start of `data`, or the error it draws. */
  ghost function ParseField(data: seq<u8>, schema: seq<FieldRule>, count: nat, previous: Option<u16>,
                            output: seq<Field>)
    : (r: Result<Field, ErrorCode>)
    requires |data| > 0
    ensures r.Ok? ==> 8 + |r.value.value| <= |data|
  {
    if count == MAX_FIELDS then Err(LimitExceeded)
    else if |data| < 8 then Err(MalformedMessage)
    else
      var (id, wire, flags, length) := Header(data);
      if previous.Some? && id < previous.value then Err(MalformedMessage)
      else if !IsKnownWireType(wire) then Err(MalformedMessage)
      else if flags > 1 then Err(MalformedMessage)
      else if length > |data| - 8 then Err(MalformedMessage)
      else
        var value := data[8..8 + length];
        var error := RuleError(schema, id, wire, flags, length, output);
        if error != NoError then Err(error)
        else if !ValueOk(wire, value) then Err(MalformedMessage)
        else Ok(Field(id, wire, flags, value))
  }

  function Accept(schema: seq<FieldRule>, output: seq<Field>, f: Field): seq<Field> {
    if FindRule(schema, f.id).Some? then output + [f] else output
  }

  ghost function ParseFrom(data: seq<u8>, schema: seq<FieldRule>, count: nat, previous: Option<u16>, output: seq<Field>)
    : (r: Result<seq<Field>, ErrorCode>)
    decreases |data|
  {
    if |data| == 0 then
      if HasRequired(schema, output) then Ok(output) else Err(MalformedMessage)
    else
      match ParseField(data, schema, count, previous, output)
      case Err(error) => Err(error)
      case Ok(f) => ParseFrom(data[8 + |f.value|..], schema, count + 1, Some(f.id), Accept(schema, output, f))
  }

  /** One unfolding of `ParseFrom`. */
  lemma ParseFromStep(data: seq<u8>, schema: seq<FieldRule>, count: nat, previous: Option<u16>, output: seq<Field>,
                      r: Result<Field, ErrorCode>)
    requires |data| > 0 && ParseField(data, schema, count, previous, output) == r
    ensures ParseFrom(data, schema, count, previous, output) ==
            if r.Err? then Err(r.error)
            else ParseFrom(data[8 + |r.value.value|..], schema, count + 1, Some(r.value.id),
                           Accept(schema, output, r.value))
  {
  }

  ghost function Parse(data: seq<u8>, schema: seq<FieldRule>): (r: Result<seq<Field>, ErrorCode>) {
    ParseFrom(data, schema, 0, None, [])
  }

  // ----- Printer and parser undo each other -----

  lemma HeaderOfEncoded(f: Field, rest: seq<u8>)
    requires IsField(f)
    ensures var data := EncodeField(f) + rest;
            && |data| >= 8 && Header(data) == (f.id, f.wire, f.flags, |f.value|)
            && data[8..8 + |f.value|] == f.value && data[8 + |f.value|..] == rest
  {
    var data := EncodeField(f) + rest;
    assert data[..2] == WriteU16(f.id);
    assert data[4..8] == WriteU32(|f.value|);
    ReadWriteU16(f.id);
    ReadWriteU32(|f.value|);
  }

  lemma EncodedOfHeader(data: seq<u8>)
    requires |data| >= 8 && Header(data).3 <= |data| - 8
    ensures var (id, wire, flags, length) := Header(data);
            var f := Field(id, wire, flags, data[8..8 + length]);
            IsField(f) && data == EncodeField(f) + data[8 + length..]
  {
    var (id, wire, flags, length) := Header(data);
    WriteReadU16(data[..2]);
    WriteReadU32(data[4..8]);
    assert data == data[..2] + [data[2], data[3]] + data[4..8] + data[8..8 + length] + data[8 + length..];
  }

  /** `f` may follow `previous` when `output` holds what was accepted before. */
  ghost predicate MayFollow(f: Field, schema: seq<FieldRule>, previous: Option<u16>, output: seq<Field>) {
    && Conforms(f, schema)
    && (previous.Some? ==> previous.value <= f.id)
    && (IsScalarId(schema, f.id) ==> Count(output, f.id) == 0)
  }

  lemma ParseFieldOfEncoded(f: Field, rest: seq<u8>, schema: seq<FieldRule>, count: nat, previous: Option<u16>,
                            output: seq<Field>)
    requires count < MAX_FIELDS && MayFollow(f, schema, previous, output)
    ensures ParseField(EncodeField(f) + rest, schema, count, previous, output) == Ok(f)
  {
    HeaderOfEncoded(f, rest);
  }

  lemma EncodedOfParseField(data: seq<u8>, schema: seq<FieldRule>, count: nat, previous: Option<u16>,
                            output: seq<Field>)
    requires |data| > 0 && count <= MAX_FIELDS
    requires ParseField(data, schema, count, previous, output).Ok?
    ensures var f := ParseField(data, schema, count, previous, output).value;
            count < MAX_FIELDS && MayFollow(f, schema, previous, output) &&
            data == EncodeField(f) + data[8 + |f.value|..]
  {
    EncodedOfHeader(data);
  }

  /** What remains to be checked of `fields` once `output` was accepted and `previous` was the last id. */
  ghost predicate Acceptable(fields: seq<Field>, schema: seq<FieldRule>, count: nat, previous: Option<u16>,
                             output: seq<Field>)
    decreases |fields|
  {
    if |fields| == 0 then HasRequired(schema, output)
    else
      && count < MAX_FIELDS
      && MayFollow(fields[0], schema, previous, output)
      && Acceptable(fields[1..], schema, count + 1, Some(fields[0].id), Accept(schema, output, fields[0]))
  }

  lemma {:induction false} AcceptKnown(fields: seq<Field>, schema: seq<FieldRule>, output: seq<Field>)
    requires |fields| > 0
    ensures output + Known(fields, schema) == Accept(schema, output, fields[0]) + Known(fields[1..], schema)
  {
    var rest := Known(fields[1..], schema);
    assert output + ([fields[0]] + rest) == (output + [fields[0]]) + rest;
    assert [] + rest == rest;
  }

  lemma {:induction false} ParsePrinted(fields: seq<Field>, schema: seq<FieldRule>, count: nat, previous: Option<u16>,
                                        output: seq<Field>)
    requires forall i :: 0 <= i < |fields| ==> IsField(fields[i])
    requires Acceptable(fields, schema, count, previous, output)
    ensures ParseFrom(EncodeFields(fields), schema, count, previous, output) == Ok(output + Known(fields, schema))
    decreases |fields|
  {
    if |fields| == 0 {
      assert output + Known(fields, schema) == output;
    } else {
      var f, rest := fields[0], fields[1..];
      ParseFieldOfEncoded(f, EncodeFields(rest), schema, count, previous, output);
      HeaderOfEncoded(f, EncodeFields(rest));
      AcceptKnown(fields, schema, output);
      ParsePrinted(rest, schema, count + 1, Some(f.id), Accept(schema, output, f));
    }
  }

  lemma {:induction false} PrintParsed(data: seq<u8>, schema: seq<FieldRule>, count: nat, previous: Option<u16>,
                                       output: seq<Field>)
    returns (fields: seq<Field>)
    requires count <= MAX_FIELDS
    requires ParseFrom(data, schema, count, previous, output).Ok?
    ensures Acceptable(fields, schema, count, previous, output)
    ensures forall i :: 0 <= i < |fields| ==> IsField(fields[i])
    ensures EncodeFields(fields) == data
    decreases |data|
  {
    if |data| == 0 {
      fields := [];
    } else {
      var f := ParseField(data, schema, count, previous, output).value;
      EncodedOfParseField(data, schema, count, previous, output);
      var rest := PrintParsed(data[8 + |f.value|..], schema, count + 1, Some(f.id), Accept(schema, output, f));
      fields := [f] + rest;
      assert fields[1..] == rest;
    }
  }

  // ----- The incremental conditions are the declarative ones -----

  lemma CountAppend(a: seq<Field>, f: Field, id: u16)
    ensures Count(a + [f], id) == Count(a, id) + if f.id == id then 1 else 0
  {
    assert (a + [f])[..|a|] == a;
  }

  lemma AcceptCount(schema: seq<FieldRule>, output: seq<Field>, f: Field, id: u16)
    requires FindRule(schema, id).Some?
    ensures Count(Accept(schema, output, f), id) == Count(output, id) + if f.id == id then 1 else 0
  {
    CountAppend(output, f, id);
  }

  lemma {:induction false} CountSplit(fields: seq<Field>, id: u16)
    requires |fields| > 0
    ensures Count(fields, id) == Count(fields[1..], id) + if fields[0].id == id then 1 else 0
  {
    var front := fields[..|fields| - 1];
    if |fields| > 1 {
      CountSplit(front, id);
      assert front[1..] == fields[1..][..|fields| - 2];
    }
  }

  /** `Canonical` for a rest of a message. */
  ghost predicate CanonicalRest(fields: seq<Field>, schema: seq<FieldRule>, count: nat, previous: Option<u16>,
                                output: seq<Field>) {
    && count + |fields| <= MAX_FIELDS
    && (forall i :: 0 <= i < |fields| ==> MayFollow(fields[i], schema, previous, output))
    && Ordered(fields, schema)
    && (forall r :: 0 <= r < |schema| && schema[r].presence == Required ==>
          Count(output, schema[r].id) + Count(fields, schema[r].id) > 0)
  }

  lemma RestFollows(f: Field, g: Field, schema: seq<FieldRule>, previous: Option<u16>, output: seq<Field>)
    requires MayFollow(f, schema, previous, output)
    ensures MayFollow(g, schema, Some(f.id), Accept(schema, output, f)) <==>
            MayFollow(g, schema, previous, output) && f.id <= g.id && !(IsScalarId(schema, f.id) && f.id == g.id)
  {
    if FindRule(schema, g.id).Some? {
      AcceptCount(schema, output, f, g.id);
    }
  }

  lemma RequiredStep(fields: seq<Field>, schema: seq<FieldRule>, output: seq<Field>)
    requires |fields| > 0
    ensures (forall r :: 0 <= r < |schema| && schema[r].presence == Required ==>
               Count(output, schema[r].id) + Count(fields, schema[r].id) > 0) <==>
            (forall r :: 0 <= r < |schema| && schema[r].presence == Required ==>
               Count(Accept(schema, output, fields[0]), schema[r].id) + Count(fields[1..], schema[r].id) > 0)
  {
    forall r | 0 <= r < |schema|
      ensures Count(output, schema[r].id) + Count(fields, schema[r].id) ==
              Count(Accept(schema, output, fields[0]), schema[r].id) + Count(fields[1..], schema[r].id)
    {
      CountSplit(fields, schema[r].id);
      AcceptCount(schema, output, fields[0], schema[r].id);
    }
  }

  lemma OrderedStep(fields: seq<Field>, schema: seq<FieldRule>, previous: Option<u16>, output: seq<Field>)
    requires |fields| > 0 && MayFollow(fields[0], schema, previous, output)
    ensures Ordered(fields, schema)
            && (forall i :: 0 <= i < |fields| ==> MayFollow(fields[i], schema, previous, output)) <==>
            Ordered(fields[1..], schema) &&
            (forall i :: 0 <= i < |fields[1..]| ==>
               MayFollow(fields[1..][i], schema, Some(fields[0].id), Accept(schema, output, fields[0])))
  {
    var f, rest := fields[0], fields[1..];
    forall i | 0 <= i < |rest|
      ensures rest[i] == fields[i + 1]
      ensures MayFollow(rest[i], schema, Some(f.id), Accept(schema, output, f)) <==>
              MayFollow(rest[i], schema, previous, output) && f.id <= rest[i].id &&
              !(IsScalarId(schema, f.id) && f.id == rest[i].id)
    {
      RestFollows(f, rest[i], schema, previous, output);
    }
    assert forall i :: 1 <= i < |fields| ==> fields[i] == rest[i - 1];
  }

  lemma CanonicalRestStep(fields: seq<Field>, schema: seq<FieldRule>, count: nat, previous: Option<u16>,
                          output: seq<Field>)
    requires |fields| > 0
    ensures CanonicalRest(fields, schema, count, previous, output) <==>
            && count < MAX_FIELDS
            && MayFollow(fields[0], schema, previous, output)
            && CanonicalRest(fields[1..], schema, count + 1, Some(fields[0].id), Accept(schema, output, fields[0]))
  {
    RequiredStep(fields, schema, output);
    if MayFollow(fields[0], schema, previous, output) {
      OrderedStep(fields, schema, previous, output);
    }
  }

  lemma {:induction false} AcceptableIsCanonicalRest(fields: seq<Field>, schema: seq<FieldRule>, count: nat,
                                                     previous: Option<u16>, output: seq<Field>)
    requires count <= MAX_FIELDS
    ensures Acceptable(fields, schema, count, previous, output) <==>
            CanonicalRest(fields, schema, count, previous, output)
    decreases |fields|
  {
    if |fields| > 0 {
      CanonicalRestStep(fields, schema, count, previous, output);
      if count < MAX_FIELDS {
        AcceptableIsCanonicalRest(fields[1..], schema, count + 1, Some(fields[0].id),
                                  Accept(schema, output, fields[0]));
      }
    }
  }

  lemma CanonicalIsAcceptable(fields: seq<Field>, schema: seq<FieldRule>)
    ensures Canonical(fields, schema) <==> Acceptable(fields, schema, 0, None, [])
  {
    AcceptableIsCanonicalRest(fields, schema, 0, None, []);
    assert forall i :: 0 <= i < |fields| ==> (MayFollow(fields[i], schema, None, []) <==> Conforms(fields[i], schema));
  }

  /** Every canonical message is accepted and yields exactly its schema-known fields. */
  lemma PrintThenParse(fields: seq<Field>, schema: seq<FieldRule>)
    requires Canonical(fields, schema)
    ensures Parse(EncodeFields(fields), schema) == Ok(Known(fields, schema))
  {
    CanonicalIsAcceptable(fields, schema);
    ParsePrinted(fields, schema, 0, None, []);
    assert [] + Known(fields, schema) == Known(fields, schema);
  }

  /** Everything accepted is the print of a canonical message. */
  lemma ParseThenPrint(data: seq<u8>, schema: seq<FieldRule>) returns (fields: seq<Field>)
    requires Parse(data, schema).Ok?
    ensures Canonical(fields, schema) && EncodeFields(fields) == data
    ensures Parse(data, schema) == Ok(Known(fields, schema))
  {
    fields := PrintParsed(data, schema, 0, None, []);
    CanonicalIsAcceptable(fields, schema);
    PrintThenParse(fields, schema);
  }

  /** The decomposition into fields is unique. */
  lemma {:induction false} EncodeFieldsInjective(a: seq<Field>, b: seq<Field>)
    requires forall i :: 0 <= i < |a| ==> IsField(a[i])
    requires forall i :: 0 <= i < |b| ==> IsField(b[i])
    requires EncodeFields(a) == EncodeFields(b)
    ensures a == b
  {
    if |a| == 0 || |b| == 0 {
      assert |EncodeFields(a)| == 0;
    } else {
      HeaderOfEncoded(a[0], EncodeFields(a[1..]));
      HeaderOfEncoded(b[0], EncodeFields(b[1..]));
      EncodeFieldsInjective(a[1..], b[1..]);
      assert a == [a[0]] + a[1..] && b == [b[0]] + b[1..];
    }
  }

  // ----- The parser, as the source's loop -----

  method ValidateWireValue(wire: u8, value: seq<u8>) returns (ok: bool)
    ensures ok <==> ValueOk(wire, value)
  {
    var fixedLength := FixedWireLength(wire);
    if fixedLength != 0 && |value| != fixedLength {
      return false;
    }
    if wire == BOOL && value[0] != 0 && value[0] != 1 {
      return false;
    }
    if wire == UTF8 {
      ok := Utf8.IsValidUtf8(value);
      return;
    }
    return true;
  }

  /** The body of the `ParseTlvs` loop: the field at `offset`, which the caller skips. */
  method ReadField(data: seq<u8>, offset: nat, schema: seq<FieldRule>, count: nat, previous: Option<u16>,
                   output: seq<Field>)
    returns (error: ErrorCode, f: Field)
    requires offset < |data|
    ensures ParseField(data[offset..], schema, count, previous, output) == if error == NoError then Ok(f)
            else Err(error)
    ensures error == NoError ==> offset + 8 + |f.value| <= |data| && count != MAX_FIELDS
  {
    f := Field(0, 0, 0, []);
    ghost var rest := data[offset..];
    if count == MAX_FIELDS {
      return LimitExceeded, f;
    }
    if |data| - offset < 8 {
      return MalformedMessage, f;
    }
    var id, wire, flags := ReadU16(data[offset..offset + 2]), data[offset + 2], data[offset + 3];
    var length := ReadU32(data[offset + 4..offset + 8]);
    assert data[offset..offset + 2] == rest[..2] && data[offset + 4..offset + 8] == rest[4..8];
    if previous.Some? && id < previous.value {
      return MalformedMessage, f;
    }
    if !IsKnownWireType(wire) {
      return MalformedMessage, f;
    }
    if flags > 1 {
      return MalformedMessage, f;
    }
    if length > |data| - offset - 8 {
      return MalformedMessage, f;
    }
    var value := data[offset + 8..offset + 8 + length];
    assert value == rest[8..8 + length];
    error := RuleError(schema, id, wire, flags, length, output);
    if error != NoError {
      return;
    }
    var valueOk := ValidateWireValue(wire, value);
    if !valueOk {
      return MalformedMessage, f;
    }
    f := Field(id, wire, flags, value);
  }

  method FindsRequired(schema: seq<FieldRule>, output: seq<Field>) returns (ok: bool)
    ensures ok <==> HasRequired(schema, output)
  {
    for r := 0 to |schema|
      invariant forall q :: 0 <= q < r && schema[q].presence == Required ==> Count(output, schema[q].id) > 0
    {
      if schema[r].presence == Required && Count(output, schema[r].id) == 0 {
        return false;
      }
    }
    return true;
  }

  /** `ParseTlvs`: one pass over an offset, filling a collection of at most `MAX_FIELDS` views. */
  method ParseTlvs(data: seq<u8>, schema: seq<FieldRule>) returns (error: ErrorCode, output: seq<Field>)
    ensures error == NoError <==> Parse(data, schema).Ok?
    ensures error == NoError ==> Parse(data, schema) == Ok(output) && |output| <= MAX_FIELDS
    ensures error != NoError ==> Parse(data, schema) == Err(error)
  {
    output := [];
    var offset, fieldCount := 0, 0;
    var previous: Option<u16> := None;
    ghost var result := Parse(data, schema);
    ghost var rest := data;
    while offset < |data|
      invariant 0 <= offset <= |data| && |output| <= fieldCount <= MAX_FIELDS
      invariant rest == data[offset..]
      invariant result == ParseFrom(rest, schema, fieldCount, previous, output)
    {
      var f;
      error, f := ReadField(data, offset, schema, fieldCount, previous, output);
      ParseFromStep(rest, schema, fieldCount, previous, output, if error == NoError then Ok(f) else Err(error));
      if error != NoError {
        return;
      }
      fieldCount := fieldCount + 1;
      offset := offset + 8 + |f.value|;
      output := Accept(schema, output, f);
      previous := Some(f.id);
      rest := rest[8 + |f.value|..];
    }
    var complete := FindsRequired(schema, output);
    error := if complete then NoError else MalformedMessage;
  }
}
