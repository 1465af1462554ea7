/** The two tables `vehicle_logs` and `companies`: their rows, their constraints, and
    the two shapes a row takes in JavaScript — keyed by SQL column name (what the
    `pg` driver hands back) or by the schema's property name (what drizzle hands back). */
module Schema {
  import opened Base
  import opened Decimal

  /** `weight` is `decimal(10,2)`: at most 8 digits before the point, so fewer than
      10^10 hundredths either way. */
  const WeightLimit: int := 10_000_000_000

  predicate InWeightDomain(h: int) { -WeightLimit < h < WeightLimit }

  /** A `vehicle_logs` row. Every column but `photo_url` is NOT NULL; `weight` is in
      hundredths; `id` is the uuid (drawn from a supply of fresh numbers); `createdAt`
      is the insertion instant on an abstract clock. */
  datatype VehicleLog = VehicleLog(
    id: nat,
    location: string,
    company: string,
    driverName: string,
    phoneNumber: string,
    weight: int,
    photoUrl: Option<string>,
    createdAt: nat)

  /** A `companies` row. */
  datatype Company = Company(id: nat, name: string, isActive: bool, createdAt: nat)

  /** The table constraints of `vehicle_logs`: weights fit the column type, and `id` is
      the primary key. `company` is plain text, referring to no other table. */
  predicate LogTableOk(logs: seq<VehicleLog>)
  {
    && (forall i :: 0 <= i < |logs| ==> InWeightDomain(logs[i].weight))
    && (forall i, j :: 0 <= i < j < |logs| ==> logs[i].id != logs[j].id)
  }

  /** The table constraints of `companies`: `id` is the primary key and `name` is unique. */
  predicate CompanyTableOk(cs: seq<Company>)
  {
    && (forall i, j :: 0 <= i < j < |cs| ==> cs[i].id != cs[j].id)
    && (forall i, j :: 0 <= i < j < |cs| ==> cs[i].name != cs[j].name)
  }

  /** A column value as JavaScript sees it. `numeric` arrives as text. */
  datatype Value = VText(text: string) | VBool(flag: bool) | VTime(instant: nat) | VUuid(uuid: nat) | VNull

  /** A JavaScript object: property name to value; a missing key is `undefined`. */
  type Record = map<string, Value>

  function OptText(s: Option<string>): Value
  {
    match s
    case Some(t) => VText(t)
    case None => VNull
  }

  /** A `vehicle_logs` row keyed by column name, as `RETURNING *` / `SELECT *` yield it. */
  function LogRow(l: VehicleLog): Record
  {
    map[
      "id" := VUuid(l.id),
      "location" := VText(l.location),
      "company" := VText(l.company),
      "driver_name" := VText(l.driverName),
      "phone_number" := VText(l.phoneNumber),
      "weight" := VText(NumericText(l.weight)),
      "photo_url" := OptText(l.photoUrl),
      "created_at" := VTime(l.createdAt)]
  }

  /** The same row keyed by the schema's property names. */
  function LogRecord(l: VehicleLog): Record
  {
    map[
      "id" := VUuid(l.id),
      "location" := VText(l.location),
      "company" := VText(l.company),
      "driverName" := VText(l.driverName),
      "phoneNumber" := VText(l.phoneNumber),
      "weight" := VText(NumericText(l.weight)),
      "photoUrl" := OptText(l.photoUrl),
      "createdAt" := VTime(l.createdAt)]
  }

  function CompanyRow(c: Company): Record
  {
    map["id" := VUuid(c.id), "name" := VText(c.name), "is_active" := VBool(c.isActive), "created_at" := VTime(c.createdAt)]
  }

  function CompanyRecord(c: Company): Record
  {
    map["id" := VUuid(c.id), "name" := VText(c.name), "isActive" := VBool(c.isActive), "createdAt" := VTime(c.createdAt)]
  }

  /** Property name to column name, as the schema declares them. */
  const LogColumnOf: map<string, string> := map[
    "id" := "id", "location" := "location", "company" := "company",
    "driverName" := "driver_name", "phoneNumber" := "phone_number", "weight" := "weight",
    "photoUrl" := "photo_url", "createdAt" := "created_at"]

  /** Column name to property name: the inverse of `LogColumnOf`. */
  const LogPropertyOf: map<string, string> := map[
    "id" := "id", "location" := "location", "company" := "company",
    "driver_name" := "driverName", "phone_number" := "phoneNumber", "weight" := "weight",
    "photo_url" := "photoUrl", "created_at" := "createdAt"]

  const CompanyColumnOf: map<string, string> := map[
    "id" := "id", "name" := "name", "isActive" := "is_active", "createdAt" := "created_at"]

  const CompanyPropertyOf: map<string, string> := map[
    "id" := "id", "name" := "name", "is_active" := "isActive", "created_at" := "createdAt"]

  /** Renames the keys of `r`: key `k` of the result takes the value of key `sourceOf[k]` of `r`. */
  function Rename(r: Record, sourceOf: map<string, string>): (out: Record)
    ensures forall k :: k in out <==> k in sourceOf && sourceOf[k] in r
    ensures forall k :: k in out ==> out[k] == r[sourceOf[k]]
  {
    map k | k in sourceOf && sourceOf[k] in r :: r[sourceOf[k]]
  }

  /** Row to record: the mapping drizzle applies to every `vehicle_logs` row. */
  function ToLogRecord(row: Record): Record { Rename(row, LogColumnOf) }

  function ToLogRow(rec: Record): Record { Rename(rec, LogPropertyOf) }

  function ToCompanyRecord(row: Record): Record { Rename(row, CompanyColumnOf) }

  function ToCompanyRow(rec: Record): Record { Rename(rec, CompanyPropertyOf) }

  lemma ToLogRecordOfRow(l: VehicleLog)
    ensures ToLogRecord(LogRow(l)) == LogRecord(l)
  {
    var a, b := ToLogRecord(LogRow(l)), LogRecord(l);
    assert a.Keys == b.Keys;
  }

  lemma ToLogRowOfRecord(l: VehicleLog)
    ensures ToLogRow(LogRecord(l)) == LogRow(l)
  {
    var a, b := ToLogRow(LogRecord(l)), LogRow(l);
    assert a.Keys == b.Keys;
  }

  lemma ToCompanyRecordOfRow(c: Company)
    ensures ToCompanyRecord(CompanyRow(c)) == CompanyRecord(c)
  {
    var a, b := ToCompanyRecord(CompanyRow(c)), CompanyRecord(c);
    assert a.Keys == b.Keys;
  }

  lemma ToCompanyRowOfRecord(c: Company)
    ensures ToCompanyRow(CompanyRecord(c)) == CompanyRow(c)
  {
    var a, b := ToCompanyRow(CompanyRecord(c)), CompanyRow(c);
    assert a.Keys == b.Keys;
  }

  /** Any object keyed by `vehicle_logs` column names survives the round trip to
      property names and back. */
  lemma LogRenameRoundTrip(row: Record)
    requires row.Keys <= LogPropertyOf.Keys
    ensures ToLogRow(ToLogRecord(row)) == row
  {
    var rec := ToLogRecord(row);
    var back := ToLogRow(rec);
    forall c | c in LogPropertyOf
      ensures LogPropertyOf[c] in LogColumnOf && LogColumnOf[LogPropertyOf[c]] == c
    {
      LogNamesInverse(c);
    }
    assert back.Keys == row.Keys;
  }

  lemma LogNamesInverse(c: string)
    requires c in LogPropertyOf
    ensures LogPropertyOf[c] in LogColumnOf && LogColumnOf[LogPropertyOf[c]] == c
  {
    assert LogPropertyOf.Keys == {"id", "location", "company", "driver_name", "phone_number", "weight", "photo_url", "created_at"};
  }

  /** Reads a `vehicle_logs` object through the property names the code declares
      (`driverName`, `phoneNumber`, `photoUrl`, `createdAt`). */
  function DecodeLog(r: Record): Option<VehicleLog>
  {
    if && "id" in r && r["id"].VUuid?
       && "location" in r && r["location"].VText?
       && "company" in r && r["company"].VText?
       && "driverName" in r && r["driverName"].VText?
       && "phoneNumber" in r && r["phoneNumber"].VText?
       && "weight" in r && r["weight"].VText? && ParseNumeric(r["weight"].text).Some?
       && "photoUrl" in r && (r["photoUrl"].VText? || r["photoUrl"].VNull?)
       && "createdAt" in r && r["createdAt"].VTime?
    then
      Some(VehicleLog(
        r["id"].uuid, r["location"].text, r["company"].text, r["driverName"].text,
        r["phoneNumber"].text, ParseNumeric(r["weight"].text).value,
        if r["photoUrl"].VText? then Some(r["photoUrl"].text) else None,
        r["createdAt"].instant))
    else None
  }

  function DecodeCompany(r: Record): Option<Company>
  {
    if && "id" in r && r["id"].VUuid?
       && "name" in r && r["name"].VText?
       && "isActive" in r && r["isActive"].VBool?
       && "createdAt" in r && r["createdAt"].VTime?
    then Some(Company(r["id"].uuid, r["name"].text, r["isActive"].flag, r["createdAt"].instant))
    else None
  }

  /** A record carries every stored column value unchanged: decoding gives the row back. */
  lemma DecodeLogRecord(l: VehicleLog)
    ensures DecodeLog(LogRecord(l)) == Some(l)
  {
    NumericTextRoundTrip(l.weight);
  }

  lemma DecodeCompanyRecord(c: Company)
    ensures DecodeCompany(CompanyRecord(c)) == Some(c)
  {
  }

  /** A row keyed by column name lacks the properties the code declares: read through
      them it is not a vehicle log at all. */
  lemma RawLogRowMissesDeclaredFields(l: VehicleLog)
    ensures "driverName" !in LogRow(l) && "phoneNumber" !in LogRow(l)
    ensures "photoUrl" !in LogRow(l) && "createdAt" !in LogRow(l)
    ensures DecodeLog(LogRow(l)) == None
  {
  }

  lemma RawCompanyRowMissesDeclaredFields(c: Company)
    ensures "isActive" !in CompanyRow(c) && "createdAt" !in CompanyRow(c)
    ensures DecodeCompany(CompanyRow(c)) == None
  {
  }

  /** Only `photo_url` can be NULL in a stored row. */
  lemma OnlyPhotoUrlNullable(l: VehicleLog)
    ensures forall k :: k in LogRow(l) && LogRow(l)[k] == VNull ==> k == "photo_url"
    ensures LogRow(l)["photo_url"] == VNull <==> l.photoUrl == None
  {
  }
}
