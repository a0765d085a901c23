/**
 * `handle` of KinesisToFirehoseToS3/lambda/flattener.py: the Firehose data
 * transformation. Each record's data is base64-decoded, parsed as JSON,
 * flattened, serialised again and base64-encoded; the record keeps its
 * `recordId` and is marked `Ok`.
 *
 * base64 and JSON are library code and are not modelled: `Codec` carries them
 * as functions, with `None` where the library raises. What the model relies on
 * about them is stated once, as the hypothesis `Faithful`, in the lemmas that
 * need it.
 */
module FirehoseTransform {
  import opened Wrappers
  import opened Dicts
  import opened JsonValues
  import opened Flattener

  type Bytes = seq<bv8>

  datatype Codec = Codec(
    b64decode: string -> Option<Bytes>,  // base64.b64decode; None where it raises
    loads: Bytes -> Option<Json>,        // json.loads; None where it raises
    dumps: Json -> string,               // json.dumps
    encodeUtf8: string -> Bytes,         // str.encode('utf-8')
    b64encode: Bytes -> string)          // base64.b64encode, as its ASCII text

  /** One record of the transformation event. */
  datatype InputRecord = InputRecord(recordId: string, data: string)

  /** The result of a transformed record: the handler only ever returns `Ok`. */
  datatype Status = Ok

  datatype OutputRecord = OutputRecord(recordId: string, result: Status, data: string)

  /** Why a record's data could not be transformed. */
  datatype Reason =
    | InvalidBase64  // b64decode raises
    | InvalidJson    // json.loads raises
    | NotADict       // the JSON value has no `.items()`

  /** The invocation fails at the first record that cannot be transformed. */
  datatype HandleError = HandleError(index: nat, reason: Reason)

  /** `handle` calls `flatten(data)` with the default separator. */
  const Sep: string := "."

  /** Lines 9-11: base64 text to a JSON value. */
  function DecodePayload(codec: Codec, data: string): Result<Json, Reason>
  {
    match codec.b64decode(data)
    case None => Failure(InvalidBase64)
    case Some(payload) =>
      match codec.loads(payload)
      case None => Failure(InvalidJson)
      case Some(j) => Success(j)
  }

  /** Lines 15-17: a JSON value to base64 text. */
  function EncodePayload(codec: Codec, j: Json): string
  {
    codec.b64encode(codec.encodeUtf8(codec.dumps(j)))
  }

  /** The new data of one record: decode, flatten, encode. */
  function TransformPayload(codec: Codec, data: string): (r: Result<string, Reason>)
    ensures r.Success? <==> DecodePayload(codec, data).Success? && DecodePayload(codec, data).value.JObj?
    ensures r.Failure? ==> r.error == if DecodePayload(codec, data).Failure? then DecodePayload(codec, data).error else NotADict
    ensures r.Success? ==> r.value == EncodePayload(codec, JObj(Flattened(DecodePayload(codec, data).value.fields, "", Sep)))
  {
    match DecodePayload(codec, data)
    case Failure(e) => Failure(e)
    case Success(j) =>
      if j.JObj? then Success(EncodePayload(codec, JObj(Flattened(j.fields, "", Sep))))
      else Failure(NotADict)
  }

  /** Lines 9-17 for one record: the steps of the loop body of `handle`. */
  method TransformRecord(codec: Codec, record: InputRecord) returns (r: Result<string, Reason>)
    ensures r == TransformPayload(codec, record.data)
  {
    var payload := codec.b64decode(record.data);
    if payload.None? {
      return Failure(InvalidBase64);
    }
    var data := codec.loads(payload.value);
    if data.None? {
      return Failure(InvalidJson);
    }
    if !data.value.JObj? {
      return Failure(NotADict);
    }
    var flat := Flatten(data.value.fields, "", Sep);
    var flatPayload := codec.dumps(JObj(flat));
    var flatPayloadEncoded := codec.b64encode(codec.encodeUtf8(flatPayload));
    return Success(flatPayloadEncoded);
  }

  /**
   * `handle(event, context)`: one output record per input record, in order,
   * with the same `recordId`, result `Ok` and the transformed data; or the
   * error of the first record whose data cannot be transformed.
   */
  method Handle(codec: Codec, records: seq<InputRecord>) returns (response: Result<seq<OutputRecord>, HandleError>)
    ensures response.Success? <==>
              forall i :: 0 <= i < |records| ==> TransformPayload(codec, records[i].data).Success?
    ensures response.Success? ==>
              && |response.value| == |records|
              && forall i :: 0 <= i < |records| ==>
                   response.value[i] == OutputRecord(records[i].recordId, Ok, TransformPayload(codec, records[i].data).value)
    ensures response.Failure? ==>
              && response.error.index < |records|
              && TransformPayload(codec, records[response.error.index].data) == Failure(response.error.reason)
              && forall i :: 0 <= i < response.error.index ==> TransformPayload(codec, records[i].data).Success?
  {
    var out: seq<OutputRecord> := [];
    for i := 0 to |records|
      invariant |out| == i
      invariant forall j :: 0 <= j < i ==> TransformPayload(codec, records[j].data).Success?
      invariant forall j :: 0 <= j < i ==>
                  out[j] == OutputRecord(records[j].recordId, Ok, TransformPayload(codec, records[j].data).value)
    {
      var flatPayloadEncoded := TransformRecord(codec, records[i]);
      if flatPayloadEncoded.Failure? {
        return Failure(HandleError(i, flatPayloadEncoded.error));
      }
      out := out + [OutputRecord(records[i].recordId, Ok, flatPayloadEncoded.value)];
    }
    return Success(out);
  }

  /**
   * What the transformation relies on from the libraries: base64 decoding
   * undoes encoding, `json.loads` only builds values Python can hold (dicts
   * without a repeated key, dyadic numbers), and for every such value `j`,
   * parsing the UTF-8 of `json.dumps(j)` gives back `j`.
   */
  ghost predicate Faithful(codec: Codec)
  {
    && (forall b :: codec.b64decode(codec.b64encode(b)) == Some(b))
    && (forall b :: codec.loads(b).Some? ==> WellFormed(codec.loads(b).value))
    && (forall j :: WellFormed(j) ==> codec.loads(codec.encodeUtf8(codec.dumps(j))) == Some(j))
  }

  lemma EncodeDecode(codec: Codec, j: Json)
    requires Faithful(codec) && WellFormed(j)
    ensures DecodePayload(codec, EncodePayload(codec, j)) == Success(j)
  {
    var bytes := codec.encodeUtf8(codec.dumps(j));
    assert codec.b64decode(codec.b64encode(bytes)) == Some(bytes);
  }

  /** Decoding a transformed record's data gives the flattened dict of its input. */
  lemma TransformedPayloadDecodes(codec: Codec, data: string, out: string)
    requires Faithful(codec) && TransformPayload(codec, data) == Success(out)
    ensures DecodePayload(codec, data).Success? && DecodePayload(codec, data).value.JObj?
    ensures DecodePayload(codec, out) == Success(JObj(Flattened(DecodePayload(codec, data).value.fields, "", Sep)))
  {
    var j := DecodePayload(codec, data).value;
    assert WellFormed(j) by {
      var payload := codec.b64decode(data).value;
      assert codec.loads(payload).Some?;
    }
    FlattenedWellFormed(j.fields, "", Sep);
    EncodeDecode(codec, JObj(Flattened(j.fields, "", Sep)));
  }

  /** Transforming a transformed record's data again changes nothing. */
  lemma TransformIdempotent(codec: Codec, data: string, out: string)
    requires Faithful(codec) && TransformPayload(codec, data) == Success(out)
    ensures TransformPayload(codec, out) == Success(out)
  {
    TransformedPayloadDecodes(codec, data, out);
    FlattenIdempotent(DecodePayload(codec, data).value.fields, Sep);
  }
}
