# Flattening Firehose records: a Dafny model

The repository sets up an AWS pipeline, and two small Python Lambda functions
in it contain all of its hand-written logic:

- `generate_random_data` (Firehose/lambda/generator.py) builds a nested
  measurement record. The record has a measure name, a value, and the metadata
  of a customer.
- `handle` (KinesisToFirehoseToS3/lambda/flattener.py) is the Firehose data
  transformation. It base64-decodes each record's data and parses it as JSON.
  It then flattens the result with `flatten`, re-serialises it and re-encodes
  it, and marks the record `Ok`.
- `flatten` turns a nested dict into a one-level dict. Each key of the new
  dict is the dotted path to a non-dict value.

The flattened rows are meant to fit the Glue table declared in
Firehose/lib/stacks/Firehose.ts. Its five columns are `measure_name`,
`measure_value`, `metadata.customer_id`, `metadata.zip_code` and
`metadata.something_else`.

Modules:

- `Dicts` (dicts.dfy): a Python dict with string keys, modelled as its items
  in insertion order.
  - `Put` is `d[k] = v`: it replaces the value in place, or appends a new key.
  - `PutAll` is `d.update(pairs)`.
- `JsonValues` (json.dfy): the values `json.loads` returns, for texts whose
  strings hold only Unicode scalar values.
- `Flattener` (flattener.dfy): `flatten`.
  - `Flatten` is the imperative method. It mirrors the loop and the recursion
    of the source and is proved equal to the functional specification
    `Flattened`.
  - `Flattened` is in turn proved equal to `dict(Leaves(data))`. `Leaves` is
    an independent definition: the depth-first list of the leaves under their
    dotted keys.
- `FirehoseTransform` (handler.dfy): `handle`, as a method with a loop over
  the records.
- `Generator` (generator.dfy): the constant tables and `generate_random_data`.
- `GlueSchema` (schema.dfy): the Glue table's columns.
- `Pipeline` (pipeline.dfy): the two functions together, checked against the
  Glue table.

base64 and JSON are library code, so the model takes them as parameters: the
function fields of `FirehoseTransform.Codec`. Where the library raises, the
codec function returns `None`. The lemmas that need facts about these
libraries take them as the hypothesis `Faithful(codec)`:

- base64 decoding undoes base64 encoding;
- `json.loads` builds only values Python can hold (see below);
- parsing the UTF-8 bytes of `json.dumps(j)` gives back `j`, for every such value `j`.

`random.random()` is called three times. Each result is a parameter (a "draw"),
given in the order the source makes the calls. A draw is `k / 2^53` for an
integer `0 <= k < 2^53`: the values CPython's `random.random()` returns.

A number in a JSON value is an exact rational. `JsonValues.WellFormed` holds of
the values Python can hold: dicts have no repeated key, and every number is
dyadic (`m / 2^e`), as every `int` and finite `float` is.

## Model

| member | source | states |
|---|---|---|
| Dicts.Put | KinesisToFirehoseToS3/lambda/flattener.py:33 | `items[new_key] = v`: afterwards the key holds `v` and every other key keeps its value. The key set gains the key. The dict never grows by more than one item and still has no repeated key. Every item is an old item or the new one. |
| Dicts.PutFresh | KinesisToFirehoseToS3/lambda/flattener.py:33 | Assigning to a key that is not present appends the item at the end. |
| Dicts.PutPresent | KinesisToFirehoseToS3/lambda/flattener.py:33 | Assigning to a key that is present replaces its value in place: the length and the order of the keys are unchanged, and only that item's value changes. |
| Dicts.PutAll | KinesisToFirehoseToS3/lambda/flattener.py:31 | `items.update(pairs)`: a key of the pairs holds the value of the last pair with that key, and every other key keeps its value. The key set is the union of both. The result has no repeated key when `items` has none. |
| Flattener.NewKey | KinesisToFirehoseToS3/lambda/flattener.py:29 | The key rule, as a definition with no contract: below an empty parent key a child keeps its own key, otherwise its key is the parent key, `sep` and its own key. |
| Flattener.Flatten | KinesisToFirehoseToS3/lambda/flattener.py:26-34 | The loop, with its recursive call for a nested dict, computes exactly `Flattened(data, parentKey, sep)`. |
| Flattener.FlattenItem | KinesisToFirehoseToS3/lambda/flattener.py:30-33 | One pass of the loop body: a nested dict's flattening under the new key is merged into `items` with `update`. Any other value is assigned to the new key. |
| Flattener.Flattened | KinesisToFirehoseToS3/lambda/flattener.py:26-34 | The output has no repeated key, and no value in it is a dict. |
| Flattener.FlattenedIsDictOfLeaves | KinesisToFirehoseToS3/lambda/flattener.py:26-34 | `flatten(data)` equals `dict(leaves)`: the dict built, one assignment after another, from the depth-first list of non-dict values under their dotted keys. |
| Flattener.FlattenedLookup | KinesisToFirehoseToS3/lambda/flattener.py:31-33 | The output keys are exactly the leaves' dotted keys. Each key holds the value of the last leaf with that key, so colliding keys are resolved last-write-wins. Lists and scalars are left as they are: every output value is the value of a leaf. |
| Flattener.FlattenedSize | KinesisToFirehoseToS3/lambda/flattener.py:31-33 | The output has at most as many keys as the input has leaves. |
| Flattener.FlattenedWithoutCollisions | KinesisToFirehoseToS3/lambda/flattener.py:26-34 | The output equals the leaf list, in order, if and only if no two leaves share a key. |
| Flattener.CollisionExample | KinesisToFirehoseToS3/lambda/flattener.py:31-33 | `{"a.b": 1, "a": {"b": 2}}` flattens to `{"a.b": 2}`. |
| Flattener.EmptyDictContributesNothing | KinesisToFirehoseToS3/lambda/flattener.py:28-31 | Deleting an item whose value is an empty dict leaves the output unchanged, at any depth: the item is located by its position among the items of `data`, then of that item's dict, and so on. |
| Flattener.FlattenIdempotent | KinesisToFirehoseToS3/lambda/flattener.py:26-34 | `flatten(flatten(d)) == flatten(d)`. |
| Flattener.TopLevelLeafKeepsKey | KinesisToFirehoseToS3/lambda/flattener.py:29-33 | A top-level non-dict value keeps its key, with no prefix, because the parent key is empty. It keeps its value unless another leaf collides with that key. |
| Flattener.LeafAppearsUnderDottedKey | KinesisToFirehoseToS3/lambda/flattener.py:29-33 | A non-dict value reached by the keys k1..kn appears under `k1 + sep + ... + sep + kn`, with its value unchanged unless another leaf collides with that key. |
| Flattener.LeafInLeaves | KinesisToFirehoseToS3/lambda/flattener.py:29-33 | A value reached by a path of keys is among the leaves, under the key built from the path with the parent-key rule. |
| Flattener.PathKeyJoin | KinesisToFirehoseToS3/lambda/flattener.py:29 | Below a non-empty parent key, the key of a path is the parent key, `sep`, then the path joined by `sep`. |
| Flattener.TopPathKey | KinesisToFirehoseToS3/lambda/flattener.py:29 | From the top level, a path whose first key is non-empty is stored under `sep.join(path)`. |
| Flattener.FlattenedWellFormed | KinesisToFirehoseToS3/lambda/flattener.py:26-34 | Flattening a value Python can hold (no repeated keys at any depth, dyadic numbers) gives a value Python can hold. |
| FirehoseTransform.TransformRecord | KinesisToFirehoseToS3/lambda/flattener.py:9-17 | The steps of the loop body compute exactly the record's new data `TransformPayload(codec, data)`, or the reason the source would raise: invalid base64, invalid JSON, or a JSON value that is not a dict. |
| FirehoseTransform.TransformPayload | KinesisToFirehoseToS3/lambda/flattener.py:9-17 | A record transforms exactly when its data is valid base64, the bytes are valid JSON and the value is a dict. On success the new data is the base64 of the UTF-8 of `json.dumps` of the flattened dict. On failure the reason is that of the step that fails first. |
| FirehoseTransform.Handle | KinesisToFirehoseToS3/lambda/flattener.py:5-24 | Success holds exactly when every record's data transforms. On success there is one output per input, in order, each with the same `recordId`, result `Ok`, and data `b64encode(utf8(dumps(flatten(loads(b64decode(data))))))`. On failure, the error names the first record that fails and why. |
| FirehoseTransform.EncodeDecode | KinesisToFirehoseToS3/lambda/flattener.py:9-17 | Under `Faithful`, decoding what `handle` encodes gives back the JSON value, for every value Python can hold. |
| FirehoseTransform.TransformedPayloadDecodes | KinesisToFirehoseToS3/lambda/flattener.py:9-17 | Under `Faithful`, a record's new data decodes to the flattened dict of its old data. |
| FirehoseTransform.TransformIdempotent | KinesisToFirehoseToS3/lambda/flattener.py:9-17 | Under `Faithful`, transforming already transformed data changes nothing. |
| Generator.Pick | Firehose/lambda/generator.py:42-44 | `math.floor(random.random() * n)` is a valid index into a list of length `n`. |
| Generator.Measures | Firehose/lambda/generator.py:7 | The four measure names `measure_0` to `measure_3`, in the source's order. |
| Generator.Customers | Firehose/lambda/generator.py:8-25 | The five customers with their ids `0` to `4` and zip codes, in the source's order. |
| Generator.PickReaches | Firehose/lambda/generator.py:42-44 | Every index of a list of at most 2^53 items is selected by some value `random.random()` can return. |
| Generator.GenerateRandomData | Firehose/lambda/generator.py:41-51 | The record has exactly the keys `measure_name`, `measure_value` and `metadata`, in that order. `measure_name` is one of the four measures. `measure_value` is in [0, 100). `metadata` is `customer_id`, `zip_code` and `something_else: 'value'`, with the id and zip taken from one and the same customer. The record is a value Python can hold: it has no repeated keys, and its number is dyadic. |
| Generator.GeneratesEveryRecord | Firehose/lambda/generator.py:41-51 | Every combination of a measure, a customer and a value `100 * k / 2^53` (100 times a possible draw) is produced by some draws. |
| Pipeline.MetadataLeaves | Firehose/lambda/generator.py:46-50 | A customer's metadata flattens under `metadata.customer_id`, `metadata.zip_code` and `metadata.something_else`. |
| GlueSchema.GlueColumns | Firehose/lib/stacks/Firehose.ts:48-69 | The five columns of the Glue table, in order, with their types: `string`, `double`, then three `string`s. |
| Pipeline.RecordRow | Firehose/lambda/generator.py:43-51 | A record of the generator's shape flattens to exactly `measure_name`, `measure_value`, `metadata.customer_id`, `metadata.zip_code` and `metadata.something_else`, in that order, with the record's values. |
| Pipeline.FlattenedRecordConforms | Firehose/lib/stacks/Firehose.ts:49-69 | Flattening a generated record gives exactly the five Glue columns, in order, with string values for the string columns and a number for `measure_value`. The values are the record's own. |
| Pipeline.GeneratedRecordReachesTable | Firehose/lib/stacks/Firehose.ts:49-69 | Under `Faithful`, the data Firehose hands `handle` for a generated record transforms without error, and it decodes to a row of the Glue table. |

## Left out

- base64 and JSON: library code, taken as the function parameters of `Codec`. The facts the lemmas rely on are stated as the hypothesis `Faithful`, not proved.
- Floating point: numbers are exact dyadic rationals. A number keeps only its value, so the `int` `1` and the `float` `1.0` are the same value in the model, and so are `0` and `-0.0`. The source keeps them apart: `json.loads` and `json.dumps` give back `1` and `1.0` as written, so `handle` turns `{"v": 1}` and `{"v": 1.0}` into different data, where the model's `TransformPayload` gives both the same. `WellFormed` admits every dyadic number, a superset of the finite floats, so `Faithful` also asks the round trip of dyadic numbers that no float holds. NaN and the infinities, which `json.loads` accepts, are not modelled. Nor is a string holding a lone surrogate, such as the one `json.loads` returns for `"\ud800"`: a Dafny string holds only Unicode scalar values. `handle` transforms such a record without error, because `json.dumps` escapes the surrogate again, but the model has no value for it.
- Generator.GenerateRandomData: `measure_value` is the exact product `draw * 100.0`, which is dyadic and in [0, 100). CPython rounds the product to the nearest float, and that rounding is not modelled.
- Generator.Pick: the same applies to the float product `draw * n`.
- Flattener.Flatten: `flatten` calls itself once per level of nesting, so a payload nested deeper than the interpreter's recursion limit raises `RecursionError` in the source. `Flatten`, `Flattened` and `FirehoseTransform.TransformPayload` give a result at any depth.
- FirehoseTransform.Handle: the source's `data` field is the `bytes` returned by `base64.b64encode`. The model holds its ASCII text. How the Lambda runtime serialises the response dict is not part of this model.
- FirehoseTransform.Handle: a record without `recordId` or `data`, or an event without `records`, raises `KeyError` in the source. The model's records always have both fields.
- FirehoseTransform.Handle: the source raises an exception at the first bad record. The model returns that record's index and the reason as a `Failure`.
- `json.loads` on text with a repeated key keeps the last value. `Faithful` simply requires the parsed value to have no repeated keys.
- The `handle` of generator.py: it reads an environment variable and calls Kinesis `put_record`. The pipeline lemma starts from the bytes that call would send, `json.dumps(payload)` encoded as UTF-8 and base64-encoded by Firehose.
- The CDK stacks (Firehose.ts, DataGenerator.ts, AppStack.ts, app.ts): resource declarations. Only the Glue column list is copied, as `GlueSchema.GlueColumns`.
- Buffering, Parquet and Snappy conversion, retries and S3 delivery are done by AWS and are not part of this model.
- The key rule has an edge case. Under a key that is the empty string, the parent key is empty, so no prefix is added: `{"": {"a": 1}}` flattens to `{"a": 1}`. `NewKey` follows the source here. `LeafAppearsUnderDottedKey` requires the first key of the path to be non-empty.
