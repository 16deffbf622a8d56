/** JSON values as the app sees them after `JSONSerialization`, and the
    dynamic casts (`as? String`, `as? Double`, `as? [[String: Any]]`) it
    applies to them. */
module Json {
  import opened Wrappers

  datatype Json =
    | JNull
    | JBool(b: bool)
    | JNumber(n: real)
    | JString(s: string)
    | JArray(items: seq<Json>)
    | JObject(fields: map<string, Json>)

  /** One record of a response: a JSON object. */
  type Row = map<string, Json>

  /** The raw body of a response: bytes that are not JSON, or a JSON document. */
  datatype Data = Garbled | Doc(json: Json)

  /** `dict[key] as? String` */
  function StringAt(row: Row, key: string): (r: Option<string>)
    ensures r.Some? <==> key in row && row[key].JString?
    ensures r.Some? ==> row[key] == JString(r.value)
  {
    if key in row && row[key].JString? then Some(row[key].s) else None
  }

  /** `dict[key] as? Double`: any JSON number. */
  function DoubleAt(row: Row, key: string): (r: Option<real>)
    ensures r.Some? <==> key in row && row[key].JNumber?
    ensures r.Some? ==> row[key] == JNumber(r.value)
  {
    if key in row && row[key].JNumber? then Some(row[key].n) else None
  }

  /** The objects of `items`, or None as soon as one item is not an object. */
  function Objects(items: seq<Json>): (r: Option<seq<Row>>)
    ensures r.Some? <==> forall i :: 0 <= i < |items| ==> items[i].JObject?
    ensures r.Some? ==> |r.value| == |items|
                        && forall i :: 0 <= i < |items| ==> items[i] == JObject(r.value[i])
  {
    if items == [] then Some([])
    else if !items[0].JObject? then None
    else match Objects(items[1..])
      case None => None
      case Some(rest) => Some([items[0].fields] + rest)
  }

  /** `try? JSONSerialization.jsonObject(with: data) as? [[String: Any]]`:
      succeeds only for a JSON array whose every element is an object. */
  function ObjectArray(d: Data): (r: Option<seq<Row>>)
    ensures r.Some? <==> d.Doc? && d.json.JArray?
                         && forall i :: 0 <= i < |d.json.items| ==> d.json.items[i].JObject?
    ensures r.Some? ==> |r.value| == |d.json.items|
                        && forall i :: 0 <= i < |r.value| ==> d.json.items[i] == JObject(r.value[i])
  {
    if d.Doc? && d.json.JArray? then Objects(d.json.items) else None
  }

  /** The body a row-store sends for a list of rows: a JSON array of objects. */
  function RowsDoc(rows: seq<Row>): (d: Data)
    ensures d.Doc? && d.json.JArray? && |d.json.items| == |rows|
    ensures forall i :: 0 <= i < |rows| ==> d.json.items[i] == JObject(rows[i])
  {
    Doc(JArray(seq(|rows|, i requires 0 <= i < |rows| => JObject(rows[i]))))
  }

  /** Reading a row list back out of its own body gives the rows. */
  lemma RowsDocRoundTrip(rows: seq<Row>)
    ensures ObjectArray(RowsDoc(rows)) == Some(rows)
  {
    var r := ObjectArray(RowsDoc(rows));
    assert r.Some?;
    assert |r.value| == |rows|;
    forall i | 0 <= i < |rows| ensures r.value[i] == rows[i] {
      assert JObject(r.value[i]) == JObject(rows[i]);
    }
    assert r.value == rows;
  }
}
