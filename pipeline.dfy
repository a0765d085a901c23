/**
 * The two Lambda functions together: a record made by `generate_random_data`,
 * sent through the stream as the UTF-8 of its JSON text, reaches `handle`
 * base64-encoded; `handle` turns it into a row of the Glue table.
 */
module Pipeline {
  import opened Wrappers
  import opened Dicts
  import opened JsonValues
  import opened Flattener
  import opened FirehoseTransform
  import opened Generator
  import opened GlueSchema

  /** The leaves of a customer's metadata under the key `metadata`. */
  lemma MetadataLeaves(c: Customer)
    ensures LeavesFrom(Metadata(c), 0, "metadata", Sep) ==
              [("metadata.customer_id", JStr(c.id)),
               ("metadata.zip_code", JStr(c.zip)),
               ("metadata.something_else", JStr("value"))]
  {
    var meta := Metadata(c);
    var e0, e1, e2 := ("metadata.customer_id", JStr(c.id)), ("metadata.zip_code", JStr(c.zip)), ("metadata.something_else", JStr("value"));
    assert NewKey("metadata", Sep, meta[0].0) == e0.0;
    assert NewKey("metadata", Sep, meta[1].0) == e1.0;
    assert NewKey("metadata", Sep, meta[2].0) == e2.0;
    assert EntryLeaves(meta, 0, "metadata", Sep) == [e0];
    assert EntryLeaves(meta, 1, "metadata", Sep) == [e1];
    assert EntryLeaves(meta, 2, "metadata", Sep) == [e2];
    assert LeavesFrom(meta, 3, "metadata", Sep) == [];
    assert LeavesFrom(meta, 2, "metadata", Sep) == [e2] + [];
    assert LeavesFrom(meta, 1, "metadata", Sep) == [e1] + ([e2] + []);
    assert LeavesFrom(meta, 0, "metadata", Sep) == [e0] + ([e1] + ([e2] + []));
  }

  /** The leaves of a record of the generator's shape: its two top-level values, then its metadata's. */
  lemma RecordLeaves(name: Json, value: Json, c: Customer)
    requires !name.JObj? && !value.JObj?
    ensures Leaves([("measure_name", name), ("measure_value", value), ("metadata", JObj(Metadata(c)))], "", Sep) ==
              [("measure_name", name), ("measure_value", value)] + LeavesFrom(Metadata(c), 0, "metadata", Sep)
  {
    var fields := [("measure_name", name), ("measure_value", value), ("metadata", JObj(Metadata(c)))];
    var nested := LeavesFrom(Metadata(c), 0, "metadata", Sep);
    assert EntryLeaves(fields, 0, "", Sep) == [("measure_name", name)];
    assert EntryLeaves(fields, 1, "", Sep) == [("measure_value", value)];
    assert EntryLeaves(fields, 2, "", Sep) == nested;
    assert LeavesFrom(fields, 3, "", Sep) == [];
    assert LeavesFrom(fields, 2, "", Sep) == nested + [];
    assert LeavesFrom(fields, 1, "", Sep) == [("measure_value", value)] + (nested + []);
    assert LeavesFrom(fields, 0, "", Sep) == [("measure_name", name)] + ([("measure_value", value)] + (nested + []));
  }

  /** A record of the generator's shape flattens to its five leaves, in order. */
  lemma RecordRow(name: Json, value: Json, c: Customer)
    requires !name.JObj? && !value.JObj?
    ensures Flattened([("measure_name", name), ("measure_value", value), ("metadata", JObj(Metadata(c)))], "", Sep) ==
              [("measure_name", name), ("measure_value", value),
               ("metadata.customer_id", JStr(c.id)),
               ("metadata.zip_code", JStr(c.zip)),
               ("metadata.something_else", JStr("value"))]
  {
    var fields := [("measure_name", name), ("measure_value", value), ("metadata", JObj(Metadata(c)))];
    RecordLeaves(name, value, c);
    MetadataLeaves(c);
    DistinctFive(Leaves(fields, "", Sep));
    FlattenedWithoutCollisions(fields, "", Sep);
  }

  /**
   * Flattening a generated record gives a row of the Glue table: the measure's
   * name and value, then the customer's metadata under `metadata.` keys.
   */
  lemma FlattenedRecordConforms(customerDraw: real, measureDraw: real, valueDraw: real)
    requires IsDraw(customerDraw) && IsDraw(measureDraw) && IsDraw(valueDraw)
    ensures var record := GenerateRandomData(customerDraw, measureDraw, valueDraw);
            var row := Flattened(record.fields, "", Sep);
            && Conforms(row, GlueColumns)
            && row[0].1 == record.fields[0].1
            && row[1].1 == record.fields[1].1
            && forall i :: 0 <= i < 3 ==> row[2 + i].1 == record.fields[2].1.fields[i].1
  {
    var fields := GenerateRandomData(customerDraw, measureDraw, valueDraw).fields;
    var c := RecordShape(customerDraw, measureDraw, valueDraw);
    RecordRow(fields[0].1, fields[1].1, c);
    RowConforms(fields[0].1, fields[1].1, c);
  }

  /** The five leaves of a record with a string name and a numeric value fit the Glue columns. */
  lemma RowConforms(name: Json, value: Json, c: Customer)
    requires name.JStr? && value.JNum?
    ensures Conforms([("measure_name", name), ("measure_value", value),
                      ("metadata.customer_id", JStr(c.id)),
                      ("metadata.zip_code", JStr(c.zip)),
                      ("metadata.something_else", JStr("value"))], GlueColumns)
  {
  }

  /** A generated record, written out: the measure's name and value and a customer's metadata. */
  lemma RecordShape(customerDraw: real, measureDraw: real, valueDraw: real) returns (c: Customer)
    requires IsDraw(customerDraw) && IsDraw(measureDraw) && IsDraw(valueDraw)
    ensures var fields := GenerateRandomData(customerDraw, measureDraw, valueDraw).fields;
            && !fields[0].1.JObj? && !fields[1].1.JObj?
            && fields == [("measure_name", fields[0].1), ("measure_value", fields[1].1), ("metadata", JObj(Metadata(c)))]
  {
    var fields := GenerateRandomData(customerDraw, measureDraw, valueDraw).fields;
    c :| c in Customers && fields[2].1 == JObj(Metadata(c));
    assert KeyList(fields)[0] == fields[0].0;
    assert KeyList(fields)[1] == fields[1].0;
    assert KeyList(fields)[2] == fields[2].0;
  }

  lemma DistinctFive<V>(d: Dict<V>)
    requires |d| == 5
    requires forall i, j :: 0 <= i < j < 5 ==> d[i].0 != d[j].0
    ensures Distinct(d)
  {
    var s4, s3, s2, s1 := d[4..], d[3..], d[2..], d[1..];
    assert s4[1..] == [] && s3[1..] == s4 && s2[1..] == s3 && s1[1..] == s2 && d[1..] == s1;
    assert Keys(s4) == {d[4].0} && Distinct(s4);
    assert Keys(s3) == {d[3].0, d[4].0} && Distinct(s3);
    assert Keys(s2) == {d[2].0, d[3].0, d[4].0} && Distinct(s2);
    assert Keys(s1) == {d[1].0, d[2].0, d[3].0, d[4].0} && Distinct(s1);
  }

  /**
   * End to end: whatever the draws, the data Firehose hands `handle` for a
   * generated record transforms without error, and the transformed data
   * decodes to a row of the Glue table.
   */
  lemma GeneratedRecordReachesTable(codec: Codec, customerDraw: real, measureDraw: real, valueDraw: real)
    requires Faithful(codec)
    requires IsDraw(customerDraw) && IsDraw(measureDraw) && IsDraw(valueDraw)
    ensures var record := GenerateRandomData(customerDraw, measureDraw, valueDraw);
            var out := TransformPayload(codec, EncodePayload(codec, record));
            && out.Success?
            && DecodePayload(codec, out.value).Success?
            && DecodePayload(codec, out.value).value.JObj?
            && Conforms(DecodePayload(codec, out.value).value.fields, GlueColumns)
  {
    var record := GenerateRandomData(customerDraw, measureDraw, valueDraw);
    EncodeDecode(codec, record);
    var out := TransformPayload(codec, EncodePayload(codec, record));
    TransformedPayloadDecodes(codec, EncodePayload(codec, record), out.value);
    FlattenedRecordConforms(customerDraw, measureDraw, valueDraw);
  }
}
