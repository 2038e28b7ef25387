/**
 * What the kit derives from the frames a WebSocket receives: the frame predicates and
 * the JSON parse guard (src/shared/sockets/helpers.ts), the decoded action stream
 * (src/shared/sockets/actionStreamFromSocket.ts), the binary stream
 * (src/shared/sockets/binaryStreamFromSocket.ts) and the connection statistics
 * (src/shared/sockets/logSocketStats.ts).
 *
 * `JSON.parse` and validation against a foreign schema are oracles; the default schema
 * is modelled exactly.
 */
module SocketFrames {
  import opened JsValues
  import opened Streams

  newtype byte = x: int | 0 <= x < 256

  /** `WebSocket.Data`: a text frame, a Buffer, an ArrayBuffer or a list of Buffer fragments. */
  datatype Frame =
    | TextFrame(text: string)
    | BufferFrame(bytes: seq<byte>)
    | ArrayBufferFrame(data: seq<byte>)
    | FragmentsFrame(fragments: seq<seq<byte>>)

  /** `isBuffer`: `value instanceof Buffer`. */
  predicate IsBuffer(f: Frame) {
    f.BufferFrame?
  }

  /** `isString`: `typeof value === 'string'`. */
  predicate IsString(f: Frame) {
    f.TextFrame?
  }

  /** No frame is both a string and a Buffer. */
  lemma StringAndBufferExclusive(f: Frame)
    ensures !(IsString(f) && IsBuffer(f))
    ensures IsString(f) ==> f == TextFrame(f.text)
    ensures IsBuffer(f) ==> f == BufferFrame(f.bytes)
  {
  }

  /** `tryParse(text)`: the parsed value, or `null` when `JSON.parse` throws. It never throws itself. */
  function TryParse(text: string, parse: string -> Completion<Value>): (r: Value)
    ensures parse(text).Returned? ==> r == parse(text).value
    ensures parse(text).Threw? ==> r == Null
  {
    match parse(text)
    case Returned(v) => v
    case Threw(_) => Null
  }

  // ---------------------------------------------------------------------------
  // Decoding text frames into actions
  // ---------------------------------------------------------------------------

  /**
   * A schema the action stream validates against: the default one
   * (an object with a required string `type`, other keys allowed) or a foreign one.
   */
  datatype Schema = TypeRequired | Foreign(id: nat)

  /** The result of `Joi.validate`: an error when validation fails, and the validated value. */
  datatype Validation = Validation(error: Option<Value>, value: Value)

  /** `'type' in value` for a value of object type. */
  predicate HasType(v: Value) {
    v.Obj? && "type" in v.props
  }

  /** `value.type` is a non-empty string: `Joi.string()` refuses the empty string. */
  predicate HasStringType(v: Value) {
    HasType(v) && v.props["type"].Str? && v.props["type"].s != ""
  }

  /** A failed validation of `v`, with Joi's `ValidationError` carrying `message`. */
  function Rejected(v: Value, message: string): Validation {
    Validation(Some(Err(ErrorOf("ValidationError", message))), v)
  }

  /** Validation against the default schema. */
  function ValidateTypeRequired(v: Value): (r: Validation)
    ensures r.error.None? <==> HasType(v) && v.props["type"].Str? && v.props["type"].s != ""
    ensures r.error.None? ==> r.value == v
  {
    if !v.Obj? then
      Rejected(v, "\"value\" must be an object")
    else if !HasType(v) then
      Rejected(v, "\"type\" is required")
    else if !v.props["type"].Str? then
      Rejected(v, "\"type\" must be a string")
    else if v.props["type"].s == "" then
      Rejected(v, "\"type\" is not allowed to be empty")
    else Validation(None, v)
  }

  function Validate(v: Value, schema: Schema, foreign: (Value, nat) -> Validation): Validation {
    match schema
    case TypeRequired => ValidateTypeRequired(v)
    case Foreign(id) => foreign(v, id)
  }

  /** `defaultActionSchemaByType`: the default schema whatever the type. */
  function DefaultSchemaByType(t: Value): (s: Option<Schema>)
    ensures s == Some(TypeRequired)
  {
    Some(TypeRequired)
  }

  /**
   * The per-frame decision of the action stream: non-text frames are filtered out; text
   * that does not parse (or parses to `null`), a non-object or an object without `type`,
   * a type without a schema, and a value that fails validation all yield nothing; otherwise
   * the validated value is the one output.
   */
  function DecodeFrame(f: Frame, parse: string -> Completion<Value>, schemaByType: Value -> Option<Schema>,
                       foreign: (Value, nat) -> Validation): (r: Option<Value>)
    ensures r.Some? <==>
              IsString(f) && parse(f.text).Returned? && HasType(parse(f.text).value)
              && schemaByType(parse(f.text).value.props["type"]).Some?
              && Validate(parse(f.text).value, schemaByType(parse(f.text).value.props["type"]).value, foreign).error.None?
    ensures r.Some? ==>
              r.value == Validate(parse(f.text).value, schemaByType(parse(f.text).value.props["type"]).value, foreign).value
  {
    if !IsString(f) then None
    else
      var value := TryParse(f.text, parse);
      if value == Null then None
      else if !IsObjectType(value) || !HasType(value) then None
      else
        match schemaByType(value.props["type"])
        case None => None
        case Some(schema) =>
          var result := Validate(value, schema, foreign);
          if result.error.Some? then None else Some(result.value)
  }

  /** Text that `JSON.parse` rejects is dropped. */
  lemma UnparseableTextDropped(text: string, parse: string -> Completion<Value>,
                               schemaByType: Value -> Option<Schema>, foreign: (Value, nat) -> Validation)
    requires parse(text).Threw?
    ensures DecodeFrame(TextFrame(text), parse, schemaByType, foreign) == None
  {
  }

  /** A type for which the lookup has no schema, or a value the schema rejects, is dropped. */
  lemma UnvalidatedDropped(text: string, parse: string -> Completion<Value>,
                           schemaByType: Value -> Option<Schema>, foreign: (Value, nat) -> Validation)
    requires parse(text).Returned? && HasType(parse(text).value)
    requires var v := parse(text).value;
             schemaByType(v.props["type"]).None?
             || Validate(v, schemaByType(v.props["type"]).value, foreign).error.Some?
    ensures DecodeFrame(TextFrame(text), parse, schemaByType, foreign) == None
  {
  }

  /**
   * With the default schema a text frame yields an action exactly when it parses to an
   * object whose `type` is a non-empty string, and the action is that object.
   */
  lemma DefaultSchemaDecoding(text: string, parse: string -> Completion<Value>, foreign: (Value, nat) -> Validation)
    ensures var r := DecodeFrame(TextFrame(text), parse, DefaultSchemaByType, foreign);
            (r.Some? <==> parse(text).Returned? && HasStringType(parse(text).value))
            && (r.Some? ==> r.value == parse(text).value)
  {
  }

  /** The values `actionStreamFromSocket` emits for a sequence of frames. */
  function DecodeAll(fs: seq<Frame>, parse: string -> Completion<Value>, schemaByType: Value -> Option<Schema>,
                     foreign: (Value, nat) -> Validation): (r: seq<Value>)
    ensures |r| <= Count(fs, IsString)
  {
    if fs == [] then []
    else
      (match DecodeFrame(fs[0], parse, schemaByType, foreign)
       case Some(v) => [v]
       case None => [])
      + DecodeAll(fs[1..], parse, schemaByType, foreign)
  }

  /** Decoding is per frame: the outputs of consecutive frames follow one another in input order. */
  lemma {:induction false} DecodeAllAppend(a: seq<Frame>, b: seq<Frame>, parse: string -> Completion<Value>,
                                           schemaByType: Value -> Option<Schema>, foreign: (Value, nat) -> Validation)
    ensures DecodeAll(a + b, parse, schemaByType, foreign)
         == DecodeAll(a, parse, schemaByType, foreign) + DecodeAll(b, parse, schemaByType, foreign)
  {
    if a == [] {
      assert a + b == b;
    } else {
      assert (a + b)[1..] == a[1..] + b;
      DecodeAllAppend(a[1..], b, parse, schemaByType, foreign);
    }
  }

  /** Binary frames never contribute an action: removing them changes nothing. */
  lemma {:induction false} DecodeAllIgnoresBinary(fs: seq<Frame>, parse: string -> Completion<Value>,
                                                  schemaByType: Value -> Option<Schema>,
                                                  foreign: (Value, nat) -> Validation)
    ensures DecodeAll(Filter(fs, IsString), parse, schemaByType, foreign) == DecodeAll(fs, parse, schemaByType, foreign)
  {
    if fs != [] {
      DecodeAllIgnoresBinary(fs[1..], parse, schemaByType, foreign);
      if IsString(fs[0]) {
        assert Filter(fs, IsString) == [fs[0]] + Filter(fs[1..], IsString);
        assert ([fs[0]] + Filter(fs[1..], IsString))[1..] == Filter(fs[1..], IsString);
      }
    }
  }

  /** Every value is an object with a non-empty string `type`. */
  predicate AllTyped(vs: seq<Value>) {
    forall i :: 0 <= i < |vs| ==> HasStringType(vs[i])
  }

  /** Every action of the default decoder is an object with a non-empty string `type`. */
  lemma {:induction false} DefaultActionsHaveType(fs: seq<Frame>, parse: string -> Completion<Value>,
                                                  foreign: (Value, nat) -> Validation)
    ensures AllTyped(DecodeAll(fs, parse, DefaultSchemaByType, foreign))
  {
    if fs != [] {
      var rest := DecodeAll(fs[1..], parse, DefaultSchemaByType, foreign);
      DefaultActionsHaveType(fs[1..], parse, foreign);
      var d := DecodeFrame(fs[0], parse, DefaultSchemaByType, foreign);
      if d.Some? {
        assert fs[0] == TextFrame(fs[0].text);
        DefaultSchemaDecoding(fs[0].text, parse, foreign);
        var r := DecodeAll(fs, parse, DefaultSchemaByType, foreign);
        assert r == [d.value] + rest;
        forall i | 0 <= i < |r|
          ensures HasStringType(r[i])
        {
          if i > 0 {
            assert r[i] == rest[i - 1];
          }
        }
      } else {
        assert DecodeAll(fs, parse, DefaultSchemaByType, foreign) == rest;
      }
    }
  }

  /** `actionStreamFromSocket(data)`: the decoded values; completion and errors pass through. */
  function ActionStream(data: Stream<Frame>, parse: string -> Completion<Value>,
                        schemaByType: Value -> Option<Schema>, foreign: (Value, nat) -> Validation): (r: Stream<Value>)
    ensures r.end == data.end
    ensures |r.items| <= |data.items|
  {
    FilterLength(data.items, IsString);
    Stream(DecodeAll(data.items, parse, schemaByType, foreign), data.end)
  }

  // ---------------------------------------------------------------------------
  // Binary frames
  // ---------------------------------------------------------------------------

  /** `binaryStreamFromSocket(data)`: `filter(isBuffer)`. */
  function BinaryStream(data: Stream<Frame>): (r: Stream<Frame>)
    ensures r == FilterStream(data, IsBuffer)
  {
    FilterStream(data, IsBuffer)
  }

  /**
   * The binary stream keeps exactly the Buffer frames, unchanged and in order, never a
   * text frame, and ends as the frame stream ends.
   */
  lemma BinaryStreamExact(data: Stream<Frame>, more: seq<Frame>)
    ensures forall f :: f in BinaryStream(data).items <==> f in data.items && f.BufferFrame?
    ensures forall i :: 0 <= i < |BinaryStream(data).items| ==> !IsString(BinaryStream(data).items[i])
    ensures BinaryStream(data).end == data.end
    ensures BinaryStream(Stream(data.items + more, data.end)).items == BinaryStream(data).items + Filter(more, IsBuffer)
  {
    forall f {
      FilterMembership(data.items, IsBuffer, f);
    }
    FilterAppend(data.items, more, IsBuffer);
  }

  // ---------------------------------------------------------------------------
  // Connection statistics
  // ---------------------------------------------------------------------------

  function Last(s: seq<nat>): nat
    requires s != []
  {
    s[|s| - 1]
  }

  /** `numberOfMessages`: 0, then `i + 1` for the i-th string frame. */
  function NumberOfMessages(fs: seq<Frame>): (r: seq<nat>)
    ensures |r| == Count(fs, IsString) + 1
    ensures forall i :: 0 <= i < |r| ==> r[i] == i
    decreases |fs|
  {
    if fs == [] then [0]
    else
      var prefix := fs[..|fs| - 1];
      var f := fs[|fs| - 1];
      assert fs == prefix + [f];
      CountAppend(prefix, [f], IsString);
      var prev := NumberOfMessages(prefix);
      if IsString(f) then prev + [|prev|] else prev
  }

  /** The total `byteLength` of the Buffer frames. */
  function ByteSum(fs: seq<Frame>): nat
    decreases |fs|
  {
    if fs == [] then 0
    else
      var f := fs[|fs| - 1];
      ByteSum(fs[..|fs| - 1]) + (if IsBuffer(f) then |f.bytes| else 0)
  }

  /** `bytesReceived`: 0, then the running sum of `byteLength` after each Buffer frame. */
  function BytesReceived(fs: seq<Frame>): (r: seq<nat>)
    ensures |r| == Count(fs, IsBuffer) + 1
    ensures r[0] == 0 && Last(r) == ByteSum(fs)
    ensures forall i, j :: 0 <= i <= j < |r| ==> r[i] <= r[j]
    decreases |fs|
  {
    if fs == [] then [0]
    else
      var prefix := fs[..|fs| - 1];
      var f := fs[|fs| - 1];
      assert fs == prefix + [f];
      CountAppend(prefix, [f], IsBuffer);
      var prev := BytesReceived(prefix);
      if IsBuffer(f) then prev + [Last(prev) + |f.bytes|] else prev
  }

  /** The statistics after the frames seen so far: the latest value of each counter. */
  datatype Stats = Stats(numberOfMessages: nat, bytesReceived: nat)

  function CurrentStats(fs: seq<Frame>): (s: Stats)
    ensures s.numberOfMessages == Count(fs, IsString)
    ensures s.bytesReceived == ByteSum(fs)
  {
    Stats(Last(NumberOfMessages(fs)), Last(BytesReceived(fs)))
  }

  /** A string frame adds one message and leaves the byte count alone; a Buffer frame the reverse. */
  lemma StatsStep(fs: seq<Frame>, f: Frame)
    ensures IsString(f) ==> CurrentStats(fs + [f]) == Stats(CurrentStats(fs).numberOfMessages + 1,
                                                            CurrentStats(fs).bytesReceived)
    ensures IsBuffer(f) ==> CurrentStats(fs + [f]) == Stats(CurrentStats(fs).numberOfMessages,
                                                            CurrentStats(fs).bytesReceived + |f.bytes|)
    ensures !IsString(f) && !IsBuffer(f) ==> CurrentStats(fs + [f]) == CurrentStats(fs)
  {
    CountAppend(fs, [f], IsString);
    assert (fs + [f])[..|fs|] == fs;
  }

  /** Both counters only grow as frames arrive. */
  lemma {:induction false} StatsNondecreasing(fs: seq<Frame>, more: seq<Frame>)
    ensures CurrentStats(fs).numberOfMessages <= CurrentStats(fs + more).numberOfMessages
    ensures CurrentStats(fs).bytesReceived <= CurrentStats(fs + more).bytesReceived
    decreases |more|
  {
    if more == [] {
      assert fs + more == fs;
    } else {
      var init := more[..|more| - 1];
      StatsNondecreasing(fs, init);
      StatsStep(fs + init, more[|more| - 1]);
      assert fs + more == (fs + init) + [more[|more| - 1]];
    }
  }
}
