/**
 * The ingestion parser (convex/ingestion/parse.ts): CSV text and JSON items become
 * normalised rows. Shipment ids are trimmed and upper-cased, a missing product type becomes
 * "unknown", timestamps below 10^12 are read as seconds, and rows without a shipment id or
 * with an unreadable temperature are dropped. Commas inside quotes are not honoured: a line
 * is split at every comma.
 */
module Parse {
  import opened Wrappers
  import opened Text
  import opened Seqs

  datatype NormalizedRow = NormalizedRow(shipmentId: string, timestamp: int, temperature: real, productType: string,
                                         facilityId: Option<string>, source: string)

  /**
   * The JavaScript built-ins the parser calls whose behaviour is not part of this model:
   * `Date.parse` (None for NaN), `parseFloat` (None for NaN), `String(number)`, and the
   * clock read by `Date.now()`.
   */
  datatype Runtime = Runtime(dateParse: string -> Option<int>, parseFloat: string -> Option<real>,
                             numberToString: real -> string, now: int)

  // ---------------------------------------------------------------------------
  // Timestamps
  // ---------------------------------------------------------------------------

  predicate IsDigit(c: char) { '0' <= c <= '9' }

  /** The number of leading decimal digits. */
  function DigitRun(s: string): (n: nat)
    ensures n <= |s|
    ensures forall i :: 0 <= i < n ==> IsDigit(s[i])
    ensures n < |s| ==> !IsDigit(s[n])
  {
    if s != [] && IsDigit(s[0]) then 1 + DigitRun(s[1..]) else 0
  }

  /** The value of a string of decimal digits. */
  function DigitsValue(d: string): nat
    requires forall i :: 0 <= i < |d| ==> IsDigit(d[i])
  {
    if d == [] then 0
    else
      assert IsDigit(d[|d| - 1]);
      10 * DigitsValue(d[..|d| - 1]) + (d[|d| - 1] as int - '0' as int)
  }

  /**
   * `parseInt(s, 10)`: skip leading spaces, read an optional sign, then the longest run of
   * decimal digits; no digit at all is NaN (None).
   */
  function ParseInt(s: string): Option<int> {
    var t := TrimStart(s);
    var negative := t != [] && t[0] == '-';
    var u := if t != [] && (t[0] == '-' || t[0] == '+') then t[1..] else t;
    var n := DigitRun(u);
    if n == 0 then None
    else
      var v: int := DigitsValue(u[..n]);
      Some(if negative then -v else v)
  }

  /** Timestamps below this many units are taken to be seconds. */
  const SecondsBelow: int := 1_000_000_000_000

  /** A whole number below 10^12 is read as seconds and scaled to milliseconds; otherwise it is kept. */
  function ToMillis(n: int): int {
    if n < SecondsBelow then n * 1000 else n
  }

  /**
   * `normalizeTimestamp`: what `Date.parse` reads; otherwise the integer prefix, scaled to
   * milliseconds when below 10^12; otherwise the current time.
   */
  function NormalizeTimestamp(ts: string, rt: Runtime): int {
    match rt.dateParse(ts)
    case Some(parsed) => parsed
    case None =>
      match ParseInt(ts)
      case Some(num) => ToMillis(num)
      case None => rt.now
  }

  /**
   * Seconds from September 2001 on (at least 10^9) become milliseconds of at least 10^12, which
   * are then kept: the conversion never scales twice.
   */
  lemma ToMillisStable(n: int)
    requires n >= 1_000_000_000
    ensures ToMillis(n) >= SecondsBelow
    ensures ToMillis(ToMillis(n)) == ToMillis(n)
  {
  }

  /** A string that `Date.parse` rejects and that starts with digits is read by its digit prefix. */
  lemma NormalizeDigits(ts: string, rt: Runtime, k: nat)
    requires rt.dateParse(ts).None?
    requires 0 < k <= |ts| && forall i :: 0 <= i < k ==> IsDigit(ts[i])
    requires k == |ts| || !IsDigit(ts[k])
    ensures NormalizeTimestamp(ts, rt) == ToMillis(DigitsValue(ts[..k]))
  {
    ParseIntDigits(ts, k);
  }

  /** `parseInt` of a string that starts with `k` digits is the value of those digits. */
  lemma ParseIntDigits(s: string, k: nat)
    requires 0 < k <= |s| && forall i :: 0 <= i < k ==> IsDigit(s[i])
    requires k == |s| || !IsDigit(s[k])
    ensures ParseInt(s) == Some(DigitsValue(s[..k]))
  {
    assert IsDigit(s[0]);
    assert !IsSpace(s[0]);
    assert Leading(s, 0) == 0;
    assert TrimStart(s) == s;
    DigitRunExact(s, k);
  }

  lemma {:induction false} DigitRunExact(s: string, k: nat)
    requires k <= |s| && forall i :: 0 <= i < k ==> IsDigit(s[i])
    requires k == |s| || !IsDigit(s[k])
    ensures DigitRun(s) == k
  {
    if k > 0 {
      DigitRunExact(s[1..], k - 1);
    }
  }

  // ---------------------------------------------------------------------------
  // CSV
  // ---------------------------------------------------------------------------

  /** A header name trimmed, lower-cased, and with each run of spaces replaced by `_`. */
  function NormalizeHeader(h: string): string {
    ReplaceSpaceRuns(ToLower(Trim(h)), '_')
  }

  function NormalizeHeaders(hs: seq<string>): (r: seq<string>)
    ensures |r| == |hs| && forall j :: 0 <= j < |hs| ==> r[j] == NormalizeHeader(hs[j])
  {
    seq(|hs|, j requires 0 <= j < |hs| => NormalizeHeader(hs[j]))
  }

  function TrimAll(vs: seq<string>): (r: seq<string>)
    ensures |r| == |vs| && forall j :: 0 <= j < |vs| ==> r[j] == Trim(vs[j])
  {
    seq(|vs|, j requires 0 <= j < |vs| => Trim(vs[j]))
  }

  /** A normalised header name has no spaces and no upper-case ASCII letter, and normalising it again changes nothing. */
  lemma NormalizeHeaderSpec(h: string)
    ensures NoSpace(NormalizeHeader(h))
    ensures forall i :: 0 <= i < |NormalizeHeader(h)| ==> !IsUpperAscii(NormalizeHeader(h)[i])
    ensures NormalizeHeader(NormalizeHeader(h)) == NormalizeHeader(h)
  {
    var l := ToLower(Trim(h));
    ToLowerSpec(Trim(h));
    NoUpperAfterReplace(l, '_');
    var n := NormalizeHeader(h);
    TrimNoSpace(n);
    ToLowerSpec(n);
    assert ToLower(n) == n;
    ReplaceNoSpace(n, '_');
  }

  /** Replacing runs of spaces by `_` introduces no upper-case letter. */
  lemma {:induction false} NoUpperAfterReplace(s: string, rep: char)
    requires !IsUpperAscii(rep)
    requires forall i :: 0 <= i < |s| ==> !IsUpperAscii(s[i])
    ensures forall i :: 0 <= i < |ReplaceSpaceRuns(s, rep)| ==> !IsUpperAscii(ReplaceSpaceRuns(s, rep)[i])
  {
    if s != [] {
      NoUpperAfterReplace(s[..|s| - 1], rep);
    }
  }

  /** A line's fields keyed by header name (`record`). */
  type Record = map<string, string>

  /** `values[j] ?? ""`. */
  function ValueAt(values: seq<string>, j: nat): string {
    if j < |values| then values[j] else ""
  }

  /** The record after `header.forEach`: each header in turn, a later duplicate overwriting an earlier one. */
  function RecordOf(header: seq<string>, values: seq<string>): Record {
    if header == [] then map[]
    else RecordOf(header[..|header| - 1], values)[header[|header| - 1] := ValueAt(values, |header| - 1)]
  }

  /** The record's keys are the header names, and each holds the value of the last column with that name. */
  lemma {:induction false} RecordLastWins(header: seq<string>, values: seq<string>, j: nat)
    requires j < |header|
    requires forall k :: j < k < |header| ==> header[k] != header[j]
    ensures header[j] in RecordOf(header, values)
    ensures RecordOf(header, values)[header[j]] == ValueAt(values, j)
  {
    if j < |header| - 1 {
      RecordLastWins(header[..|header| - 1], values, j);
    }
  }

  lemma {:induction false} RecordKeys(header: seq<string>, values: seq<string>, key: string)
    ensures key in RecordOf(header, values) <==> key in header
  {
    if header != [] {
      RecordKeys(header[..|header| - 1], values, key);
      assert header == header[..|header| - 1] + [header[|header| - 1]];
    }
  }

  /** `record.k1 ?? record.k2 ?? ... ?? default`: the value of the first key present. */
  function Pick(record: Record, keys: seq<string>, default: string): string {
    if keys == [] then default
    else if keys[0] in record then record[keys[0]]
    else Pick(record, keys[1..], default)
  }

  /** The shipment id of a record: `shipment_id` (or `shipmentid`) trimmed, then `shipmentid` when that is blank. */
  function CsvShipmentId(record: Record): string {
    var first := Trim(Pick(record, ["shipment_id", "shipmentid", "shipment_id"], ""));
    if first != [] then first else Trim(Pick(record, ["shipmentid"], ""))
  }

  function CsvTimestampRaw(record: Record): string {
    Pick(record, ["timestamp", "time", "datetime"], "")
  }

  function CsvTemperatureRaw(record: Record): string {
    Pick(record, ["temperature", "temp_c", "temp"], "")
  }

  function CsvProductType(record: Record): string {
    Trim(Pick(record, ["product_type", "producttype", "product"], "unknown"))
  }

  function CsvFacilityId(record: Record): Option<string> {
    var facility := Trim(Pick(record, ["facility_id", "facilityid"], ""));
    if facility != [] then Some(facility) else None
  }

  /** The row a record yields, or None when the line is skipped (`continue`). */
  function RowFromRecord(record: Record, source: string, rt: Runtime): (r: Option<NormalizedRow>)
    ensures r.Some? ==> r.value.source == source && r.value.productType != []
  {
    var shipmentId := CsvShipmentId(record);
    var tsRaw := CsvTimestampRaw(record);
    var tempRaw := CsvTemperatureRaw(record);
    var productType := CsvProductType(record);
    if shipmentId == [] || tsRaw == [] || tempRaw == [] then None
    else
      match rt.parseFloat(tempRaw)
      case None => None
      case Some(temperature) =>
        Some(NormalizedRow(ToUpper(shipmentId), NormalizeTimestamp(tsRaw, rt), temperature,
                           if productType != [] then productType else "unknown", CsvFacilityId(record), source))
  }

  /** One data line: split at commas, trim each value, key by header, then build the row. */
  function CsvRowOf(header: seq<string>, line: string, source: string, rt: Runtime): Option<NormalizedRow> {
    RowFromRecord(RecordOf(header, TrimAll(Split(line, ','))), source, rt)
  }

  function CsvLine(header: seq<string>, source: string, rt: Runtime): string -> Option<NormalizedRow> {
    (line: string) => CsvRowOf(header, line, source, rt)
  }

  /** `parseCSV`: fewer than two lines after trimming is no rows; otherwise the rows of the data lines. */
  function ParseCsv(text: string, source: string, rt: Runtime): seq<NormalizedRow> {
    var lines := Lines(Trim(text));
    if |lines| < 2 then []
    else FilterMap(lines[1..], CsvLine(NormalizeHeaders(Split(lines[0], ',')), source, rt))
  }

  /** The inner loop of `parseCSV` (`header.forEach`): fill the record column by column. */
  method BuildRecord(header: seq<string>, values: seq<string>) returns (record: Record)
    ensures record == RecordOf(header, values)
  {
    record := map[];
    var j := 0;
    while j < |header|
      invariant 0 <= j <= |header|
      invariant record == RecordOf(header[..j], values)
    {
      assert header[..j + 1][..j] == header[..j];
      record := record[header[j] := if j < |values| then values[j] else ""];
      j := j + 1;
    }
    assert header[..j] == header;
  }

  /** The loop of `parseCSV` over the data lines. */
  method ParseLines(header: seq<string>, data: seq<string>, source: string, rt: Runtime) returns (rows: seq<NormalizedRow>)
    ensures rows == FilterMap(data, CsvLine(header, source, rt))
  {
    rows := [];
    var i := 0;
    while i < |data|
      invariant 0 <= i <= |data|
      invariant rows == FilterMap(data[..i], CsvLine(header, source, rt))
    {
      var values := TrimAll(Split(data[i], ','));
      var record := BuildRecord(header, values);
      var row := RowFromRecord(record, source, rt);
      FilterMapStep(data, i, CsvLine(header, source, rt));
      assert CsvLine(header, source, rt)(data[i]) == row;
      if row.Some? {
        rows := rows + [row.value];
      }
      i := i + 1;
    }
    assert data[..i] == data;
  }

  /** `parseCSV`. */
  method ParseCSV(text: string, source: string, rt: Runtime) returns (rows: seq<NormalizedRow>)
    ensures rows == ParseCsv(text, source, rt)
  {
    var lines := Lines(Trim(text));
    if |lines| < 2 {
      return [];
    }
    var header := NormalizeHeaders(Split(lines[0], ','));
    rows := ParseLines(header, lines[1..], source, rt);
  }

  // ---------------------------------------------------------------------------
  // JSON
  // ---------------------------------------------------------------------------

  /** A parsed JSON value; an object keeps its members in text order, and a later duplicate key wins. */
  datatype Json =
    | JNull
    | JBool(b: bool)
    | JNum(n: real)
    | JStr(s: string)
    | JArr(items: seq<Json>)
    | JObj(members: seq<(string, Json)>)

  /** The value of the last member named `key`. */
  function Member(members: seq<(string, Json)>, key: string): Option<Json> {
    if members == [] then None
    else if members[|members| - 1].0 == key then Some(members[|members| - 1].1)
    else Member(members[..|members| - 1], key)
  }

  /** The member `key` of an object (`obj[key]`), None when it is undefined. Arrays have none of the keys read here. */
  function Field(item: Json, key: string): Option<Json> {
    if item.JObj? then Member(item.members, key) else None
  }

  /** Null or undefined: what `??` skips. */
  predicate Nullish(v: Option<Json>) {
    v.None? || v.value.JNull?
  }

  /** `obj.k1 ?? obj.k2 ?? ... ?? obj.kn`: the first member that is not null or undefined, else the last one as it is. */
  function Chain(item: Json, keys: seq<string>): Option<Json>
    requires keys != []
  {
    if |keys| == 1 then Field(item, keys[0])
    else if !Nullish(Field(item, keys[0])) then Field(item, keys[0])
    else Chain(item, keys[1..])
  }

  /** The same chain ending in a default. */
  function ChainOr(item: Json, keys: seq<string>, default: Json): Option<Json>
    requires keys != []
  {
    if Nullish(Chain(item, keys)) then Some(default) else Chain(item, keys)
  }

  /** `String(v)`, with undefined as None. */
  function StringOf(v: Option<Json>, rt: Runtime): string {
    match v
    case None => "undefined"
    case Some(j) => JsonString(j, rt)
  }

  function JsonString(j: Json, rt: Runtime): string
    decreases j, 1
  {
    match j
    case JNull => "null"
    case JBool(b) => if b then "true" else "false"
    case JNum(n) => rt.numberToString(n)
    case JStr(s) => s
    case JArr(items) => JoinItems(j, |items|, rt)
    case JObj(_) => "[object Object]"
  }

  /** `Array.prototype.join(",")` over the first `n` elements: null elements print as empty. */
  function JoinItems(arr: Json, n: nat, rt: Runtime): string
    requires arr.JArr? && n <= |arr.items|
    decreases arr, 0, n
  {
    if n == 0 then ""
    else
      var item := arr.items[n - 1];
      var text := if item.JNull? then "" else JsonString(item, rt);
      if n == 1 then text else JoinItems(arr, n - 1, rt) + "," + text
  }

  /** Truthy and of type "object": an object or an array. */
  predicate IsObjectLike(item: Json) {
    item.JObj? || item.JArr?
  }

  function JsonShipmentId(item: Json, rt: Runtime): string {
    Trim(StringOf(ChainOr(item, ["shipmentId", "shipment_id"], JStr("")), rt))
  }

  function JsonTimestampRaw(item: Json): Option<Json> {
    Chain(item, ["timestamp", "time", "datetime"])
  }

  /** A JSON number below 10^12 is seconds, otherwise milliseconds (fractions cut off); anything else goes through `normalizeTimestamp`. */
  function JsonTimestamp(tsRaw: Option<Json>, rt: Runtime): int {
    match tsRaw
    case Some(JNum(n)) => if n < SecondsBelow as real then (n * 1000.0).Floor else n.Floor
    case _ => NormalizeTimestamp(StringOf(tsRaw, rt), rt)
  }

  /** A JSON number as it is; anything else through `parseFloat(String(temp))`. */
  function JsonTemperature(item: Json, rt: Runtime): Option<real> {
    var temp := Chain(item, ["temperature", "tempC", "temp_c", "temp"]);
    match temp
    case Some(JNum(n)) => Some(n)
    case _ => rt.parseFloat(StringOf(temp, rt))
  }

  function JsonProductType(item: Json, rt: Runtime): string {
    Trim(StringOf(ChainOr(item, ["productType", "product_type", "product"], JStr("unknown")), rt))
  }

  function JsonFacilityId(item: Json, rt: Runtime): Option<string> {
    var facility := Chain(item, ["facilityId", "facility_id"]);
    if Nullish(facility) then None else Some(StringOf(facility, rt))
  }

  /** The row one JSON item yields, or None when it is skipped. */
  function JsonRowOf(item: Json, source: string, rt: Runtime): (r: Option<NormalizedRow>)
    ensures r.Some? ==> r.value.source == source && r.value.productType != []
  {
    if !IsObjectLike(item) then None
    else
      var shipmentId := JsonShipmentId(item, rt);
      var tsRaw := JsonTimestampRaw(item);
      var productType := JsonProductType(item, rt);
      if shipmentId == [] || (tsRaw.None? && tsRaw == Some(JNull)) then None
      else
        match JsonTemperature(item, rt)
        case None => None
        case Some(t) =>
          Some(NormalizedRow(ToUpper(shipmentId), JsonTimestamp(tsRaw, rt), t,
                             if productType != [] then productType else "unknown", JsonFacilityId(item, rt), source))
  }

  function JsonItem(source: string, rt: Runtime): Json -> Option<NormalizedRow> {
    (item: Json) => JsonRowOf(item, source, rt)
  }

  /** The items `parseJSON` walks: an array's elements, or the value itself. */
  function Items(data: Json): seq<Json> {
    if data.JArr? then data.items else [data]
  }

  /** `parseJSON`: the rows of the items that are not skipped, in order. */
  function ParseJson(data: Json, source: string, rt: Runtime): seq<NormalizedRow> {
    FilterMap(Items(data), JsonItem(source, rt))
  }

  /** `parseJSON`, item by item. */
  method ParseJSON(data: Json, source: string, rt: Runtime) returns (rows: seq<NormalizedRow>)
    ensures rows == ParseJson(data, source, rt)
  {
    var arr := if data.JArr? then data.items else [data];
    rows := [];
    var i := 0;
    while i < |arr|
      invariant 0 <= i <= |arr|
      invariant rows == FilterMap(arr[..i], JsonItem(source, rt))
    {
      var row := JsonRowOf(arr[i], source, rt);
      FilterMapStep(arr, i, JsonItem(source, rt));
      assert JsonItem(source, rt)(arr[i]) == row;
      if row.Some? {
        rows := rows + [row.value];
      }
      i := i + 1;
    }
    assert arr[..i] == arr;
  }

  // ---------------------------------------------------------------------------
  // Properties
  // ---------------------------------------------------------------------------

  /** A shipment id as stored: non-empty, trimmed and upper-cased. */
  predicate CanonicalId(id: string) {
    id != [] && IsTrimmed(id) && forall i :: 0 <= i < |id| ==> !IsLowerAscii(id[i])
  }

  /** Upper-casing a non-empty trimmed string gives a canonical id. */
  lemma UpperTrimmedCanonical(s: string)
    requires s != [] && IsTrimmed(s)
    ensures CanonicalId(ToUpper(s))
  {
    ToUpperSpec(s);
  }

  /** Every CSV row has a canonical shipment id and a non-empty, trimmed product type. */
  lemma CsvRowShape(record: Record, source: string, rt: Runtime)
    ensures var r := RowFromRecord(record, source, rt);
      r.Some? ==> CanonicalId(r.value.shipmentId) && r.value.productType != [] && IsTrimmed(r.value.productType)
  {
    TrimSpec(Pick(record, ["shipment_id", "shipmentid", "shipment_id"], ""));
    TrimSpec(Pick(record, ["shipmentid"], ""));
    TrimSpec(Pick(record, ["product_type", "producttype", "product"], "unknown"));
    if CsvShipmentId(record) != [] {
      UpperTrimmedCanonical(CsvShipmentId(record));
    }
  }

  /**
   * A CSV line is kept exactly when it has a shipment id, a timestamp and a temperature and
   * the temperature is a number; the kept row carries the upper-cased id and the parsed
   * temperature.
   */
  lemma CsvRowKept(record: Record, source: string, rt: Runtime)
    ensures RowFromRecord(record, source, rt).Some? <==>
      CsvShipmentId(record) != [] && CsvTimestampRaw(record) != [] && CsvTemperatureRaw(record) != []
      && rt.parseFloat(CsvTemperatureRaw(record)).Some?
    ensures RowFromRecord(record, source, rt).Some? ==>
      RowFromRecord(record, source, rt).value.shipmentId == ToUpper(CsvShipmentId(record))
      && RowFromRecord(record, source, rt).value.temperature == rt.parseFloat(CsvTemperatureRaw(record)).value
  {
  }

  /** `record.k1 ?? ... ?? default` is the default when none of the keys is a column. */
  lemma {:induction false} PickAbsent(record: Record, keys: seq<string>, default: string)
    requires forall j :: 0 <= j < |keys| ==> keys[j] !in record
    ensures Pick(record, keys, default) == default
  {
    if keys != [] {
      PickAbsent(record, keys[1..], default);
    }
  }

  /**
   * A header without a shipment id column, or without a timestamp column, or without a
   * temperature column drops every data line.
   */
  lemma CsvMissingColumn(header: seq<string>, line: string, source: string, rt: Runtime)
    requires || ("shipment_id" !in header && "shipmentid" !in header)
             || ("timestamp" !in header && "time" !in header && "datetime" !in header)
             || ("temperature" !in header && "temp_c" !in header && "temp" !in header)
    ensures CsvRowOf(header, line, source, rt) == None
  {
    var record := RecordOf(header, TrimAll(Split(line, ',')));
    forall key | key in ["shipment_id", "shipmentid", "timestamp", "time", "datetime", "temperature", "temp_c", "temp"]
      ensures key in record <==> key in header
    {
      RecordKeys(header, TrimAll(Split(line, ',')), key);
    }
    if "shipment_id" !in header && "shipmentid" !in header {
      PickAbsent(record, ["shipment_id", "shipmentid", "shipment_id"], "");
      PickAbsent(record, ["shipmentid"], "");
    } else if "timestamp" !in header && "time" !in header && "datetime" !in header {
      PickAbsent(record, ["timestamp", "time", "datetime"], "");
    } else {
      PickAbsent(record, ["temperature", "temp_c", "temp"], "");
    }
  }

  /** "unknown" has no spaces, so trimming keeps it. */
  lemma TrimUnknown()
    ensures Trim("unknown") == "unknown"
  {
    TrimNoSpace("unknown");
  }

  /**
   * A kept row's product type is the trimmed product column, or "unknown" when that is blank;
   * without any product column it is "unknown".
   */
  lemma CsvProductDefault(record: Record, source: string, rt: Runtime)
    requires RowFromRecord(record, source, rt).Some?
    ensures RowFromRecord(record, source, rt).value.productType
      == if CsvProductType(record) == [] then "unknown" else CsvProductType(record)
    ensures "product_type" !in record && "producttype" !in record && "product" !in record
      ==> RowFromRecord(record, source, rt).value.productType == "unknown"
  {
    var row := RowFromRecord(record, source, rt).value;
    assert row.productType == if CsvProductType(record) == [] then "unknown" else CsvProductType(record);
    if "product_type" !in record && "producttype" !in record && "product" !in record {
      CsvProductAbsent(record);
    }
  }

  /** Without any product column the product type is "unknown". */
  lemma CsvProductAbsent(record: Record)
    requires "product_type" !in record && "producttype" !in record && "product" !in record
    ensures CsvProductType(record) == "unknown"
  {
    PickAbsent(record, ["product_type", "producttype", "product"], "unknown");
    TrimUnknown();
  }

  /** Text that is a single line once trimmed has no data line, so it yields no rows. */
  lemma CsvSingleLine(text: string, source: string, rt: Runtime)
    requires '\n' !in Trim(text)
    ensures ParseCsv(text, source, rt) == []
  {
    SplitWithout(Trim(text), '\n');
  }

  lemma JsonFieldsTrimmed(item: Json, rt: Runtime)
    ensures IsTrimmed(JsonShipmentId(item, rt)) && IsTrimmed(JsonProductType(item, rt))
  {
    TrimSpec(StringOf(ChainOr(item, ["shipmentId", "shipment_id"], JStr("")), rt));
    TrimSpec(StringOf(ChainOr(item, ["productType", "product_type", "product"], JStr("unknown")), rt));
  }

  /** Every JSON row has a canonical shipment id and a non-empty, trimmed product type. */
  lemma JsonRowShape(item: Json, source: string, rt: Runtime)
    ensures var r := JsonRowOf(item, source, rt);
      r.Some? ==> CanonicalId(r.value.shipmentId) && r.value.productType != [] && IsTrimmed(r.value.productType)
  {
    var r := JsonRowOf(item, source, rt);
    if r.Some? {
      var id := JsonShipmentId(item, rt);
      var pt := JsonProductType(item, rt);
      assert id != [] && r.value.shipmentId == ToUpper(id);
      assert r.value.productType == if pt != [] then pt else "unknown";
      JsonFieldsTrimmed(item, rt);
      UpperTrimmedCanonical(id);
    }
  }

  /**
   * A JSON item is kept exactly when it is an object (or array), its shipment id is not blank
   * and its temperature reads as a number: a missing timestamp never drops it.
   */
  lemma JsonRowKept(item: Json, source: string, rt: Runtime)
    ensures JsonRowOf(item, source, rt).Some? <==>
      IsObjectLike(item) && JsonShipmentId(item, rt) != [] && JsonTemperature(item, rt).Some?
  {
  }

  /** An item without any timestamp member is kept and stamped by `normalizeTimestamp("undefined")`. */
  lemma JsonMissingTimestamp(item: Json, source: string, rt: Runtime)
    requires IsObjectLike(item) && JsonShipmentId(item, rt) != [] && JsonTemperature(item, rt).Some?
    requires Field(item, "timestamp").None? && Field(item, "time").None? && Field(item, "datetime").None?
    ensures JsonRowOf(item, source, rt).Some?
    ensures JsonRowOf(item, source, rt).value.timestamp == NormalizeTimestamp("undefined", rt)
  {
    var keys: seq<string> := ["timestamp", "time", "datetime"];
    assert Chain(item, keys[2..]) == None by {
      assert keys[2..] == ["datetime"];
    }
    assert Chain(item, keys[1..]) == None by {
      assert keys[1..][0] == "time" && keys[1..][1..] == keys[2..];
    }
    assert keys[0] == "timestamp";
  }

  /** A whole number of seconds or milliseconds converts the same way as a JSON number and as text. */
  lemma JsonNumberMatchesText(n: int, rt: Runtime)
    ensures JsonTimestamp(Some(JNum(n as real)), rt) == ToMillis(n)
  {
    if n < SecondsBelow {
      assert (n as real) * 1000.0 == (n * 1000) as real;
    }
  }

  /** A value that is not an array is parsed as a one-item list: at most one row, from that value. */
  lemma JsonSingleValue(data: Json, source: string, rt: Runtime)
    requires !data.JArr?
    ensures ParseJson(data, source, rt) == match JsonRowOf(data, source, rt) case Some(r) => [r] case None => []
  {
    assert [data][..0] == [];
  }

  /**
   * The rows of a list of data lines read with one header: no more rows than lines; each row
   * comes from one line, in line order; every line that yields a row is represented; every
   * row has a canonical shipment id, a trimmed non-empty product type and the given source.
   */
  lemma CsvLinesRows(header: seq<string>, data: seq<string>, source: string, rt: Runtime)
    ensures var rows := FilterMap(data, CsvLine(header, source, rt)); var src := Accepted(data, CsvLine(header, source, rt));
      && |rows| <= |data|
      && |src| == |rows|
      && (forall k :: 0 <= k < |rows| ==> src[k] < |data| && CsvRowOf(header, data[src[k]], source, rt) == Some(rows[k]))
      && (forall k, m :: 0 <= k < m < |rows| ==> src[k] < src[m])
      && (forall i :: 0 <= i < |data| && CsvRowOf(header, data[i], source, rt).Some? ==> i in src)
      && (forall k :: 0 <= k < |rows| ==>
            CanonicalId(rows[k].shipmentId) && rows[k].productType != [] && IsTrimmed(rows[k].productType)
            && rows[k].source == source)
  {
    var f := CsvLine(header, source, rt);
    FilterMapOrigin(data, f);
    var rows := FilterMap(data, f);
    var src := Accepted(data, f);
    forall k | 0 <= k < |rows|
      ensures CanonicalId(rows[k].shipmentId) && rows[k].productType != [] && IsTrimmed(rows[k].productType)
      ensures rows[k].source == source
    {
      var record := RecordOf(header, TrimAll(Split(data[src[k]], ',')));
      assert RowFromRecord(record, source, rt) == Some(rows[k]);
      CsvRowShape(record, source, rt);
    }
  }

  /**
   * `parseJSON` as a whole: no more rows than items; each row comes from one item, in item
   * order; every item that yields a row is represented; every row is well formed.
   */
  lemma ParseJsonRows(data: Json, source: string, rt: Runtime)
    ensures var items := Items(data); var rows := ParseJson(data, source, rt);
      var src := Accepted(items, JsonItem(source, rt));
      && |rows| <= |items|
      && |src| == |rows|
      && (forall k :: 0 <= k < |rows| ==> src[k] < |items| && JsonRowOf(items[src[k]], source, rt) == Some(rows[k]))
      && (forall k, m :: 0 <= k < m < |rows| ==> src[k] < src[m])
      && (forall i :: 0 <= i < |items| && JsonRowOf(items[i], source, rt).Some? ==> i in src)
      && (forall k :: 0 <= k < |rows| ==>
            CanonicalId(rows[k].shipmentId) && rows[k].productType != [] && IsTrimmed(rows[k].productType)
            && rows[k].source == source)
  {
    var items := Items(data);
    FilterMapOrigin(items, JsonItem(source, rt));
    var rows := ParseJson(data, source, rt);
    var src := Accepted(items, JsonItem(source, rt));
    forall k | 0 <= k < |rows|
      ensures CanonicalId(rows[k].shipmentId) && rows[k].productType != [] && IsTrimmed(rows[k].productType)
    {
      JsonRowShape(items[src[k]], source, rt);
    }
  }
}
