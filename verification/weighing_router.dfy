/** The procedures of the mounted `weighing` router: `create`, `list`, `getCompanies`
    and `addCompany`. Each checks its input against its object schema, runs one
    statement against the tables, and replies with the rows mapped to the schema's
    property names. A storage failure becomes an internal error with its message. */
module WeighingRouter {
  import opened Base
  import opened Decimal
  import opened Schema
  import opened Queries
  import opened DbRaw
  import opened RpcInput

  // ---------------------------------------------------------------- input schemas

  /** `create`: four required strings, a number, and two optional strings. */
  const CreateSchema: seq<Field> := [
    Field("location", Str), Field("company", Str), Field("driverName", Str),
    Field("phoneNumber", Str), Field("weight", Number),
    Field("photoUrl", OptStr), Field("notes", OptStr)]

  /** `list`: `limit` in [1, 100] defaulting to 50, `offset` at least 0 defaulting to 0. */
  const ListSchema: seq<Field> := [
    Field("limit", BoundedNumber(1, Some(100), 50)),
    Field("offset", BoundedNumber(0, None, 0))]

  /** `addCompany`: a non-empty name. */
  const AddCompanySchema: seq<Field> := [Field("name", NonEmptyStr)]

  /** The parsed input of `create`. */
  datatype CreateInput = CreateInput(
    location: string,
    company: string,
    driverName: string,
    phoneNumber: string,
    weight: Num,
    photoUrl: Option<string>,
    notes: Option<string>)

  datatype ListInput = ListInput(limit: Num, offset: Num)

  /** What the `create` schema demands of an input. */
  predicate CreateShape(input: Input)
  {
    && IsStr(input, "location") && IsStr(input, "company") && IsStr(input, "driverName")
    && IsStr(input, "phoneNumber") && IsNum(input, "weight")
    && IsOptStr(input, "photoUrl") && IsOptStr(input, "notes")
  }

  lemma CreateSchemaMeans(input: Input)
    ensures Accepts(input, CreateSchema) <==> CreateShape(input)
  {
    if Accepts(input, CreateSchema) {
      assert Conforms(input, CreateSchema[0]) && Conforms(input, CreateSchema[1]);
      assert Conforms(input, CreateSchema[2]) && Conforms(input, CreateSchema[3]);
      assert Conforms(input, CreateSchema[4]) && Conforms(input, CreateSchema[5]);
      assert Conforms(input, CreateSchema[6]);
    }
  }

  /** An input that fails the `create` schema only at `weight` gets exactly that issue. */
  lemma OnlyWeightRejected(input: Input)
    requires IsStr(input, "location") && IsStr(input, "company") && IsStr(input, "driverName")
    requires IsStr(input, "phoneNumber") && !IsNum(input, "weight")
    requires IsOptStr(input, "photoUrl") && IsOptStr(input, "notes")
    ensures Issues(input, CreateSchema) == ["weight"]
  {
    var s := CreateSchema;
    assert s[6..][1..] == [];
    assert Issues(input, s[6..]) == [];
    assert s[5..][1..] == s[6..];
    assert Issues(input, s[5..]) == [];
    assert s[4..][1..] == s[5..];
    assert Issues(input, s[4..]) == ["weight"];
    assert s[3..][1..] == s[4..];
    assert Issues(input, s[3..]) == ["weight"];
    assert s[2..][1..] == s[3..];
    assert Issues(input, s[2..]) == ["weight"];
    assert s[1..][1..] == s[2..];
    assert Issues(input, s[1..]) == ["weight"];
    assert s[0..] == s;
  }

  function ParseCreate(input: Input): (r: Result<CreateInput, seq<string>>)
    ensures r.Ok? <==> CreateShape(input)
    ensures r.Ok? <==> Accepts(input, CreateSchema)
    ensures r.Err? ==> r.error == Issues(input, CreateSchema) && r.error != []
    ensures r.Ok? ==>
      && r.value.location == input["location"].str
      && r.value.company == input["company"].str
      && r.value.driverName == input["driverName"].str
      && r.value.phoneNumber == input["phoneNumber"].str
      && r.value.weight == input["weight"].num
      && (r.value.photoUrl.Some? <==> "photoUrl" in input)
      && (r.value.notes.Some? <==> "notes" in input)
      && r.value.photoUrl == OptTextAt(input, "photoUrl")
      && r.value.notes == OptTextAt(input, "notes")
  {
    CreateSchemaMeans(input);
    if !CreateShape(input) then Err(Issues(input, CreateSchema))
    else
      Ok(CreateInput(
        TextAt(input, "location"), TextAt(input, "company"), TextAt(input, "driverName"),
        TextAt(input, "phoneNumber"), input["weight"].num,
        OptTextAt(input, "photoUrl"), OptTextAt(input, "notes")))
  }

  lemma ListSchemaMeans(input: Input)
    ensures Accepts(input, ListSchema)
        <==> IsOptNumIn(input, "limit", 1, Some(100)) && IsOptNumIn(input, "offset", 0, None)
  {
    if Accepts(input, ListSchema) {
      assert Conforms(input, ListSchema[0]) && Conforms(input, ListSchema[1]);
    }
  }

  function ParseList(input: Input): (r: Result<ListInput, seq<string>>)
    ensures r.Ok? <==> IsOptNumIn(input, "limit", 1, Some(100)) && IsOptNumIn(input, "offset", 0, None)
    ensures r.Ok? <==> Accepts(input, ListSchema)
    ensures r.Err? ==> r.error == Issues(input, ListSchema) && r.error != []
    ensures r.Ok? ==> 100 <= r.value.limit.hundredths <= 10000 && r.value.offset.hundredths >= 0
    ensures r.Ok? ==> ("limit" in input ==> r.value.limit == input["limit"].num)
                      && ("limit" !in input ==> r.value.limit == Whole(50))
    ensures r.Ok? ==> ("offset" in input ==> r.value.offset == input["offset"].num)
                      && ("offset" !in input ==> r.value.offset == Whole(0))
  {
    ListSchemaMeans(input);
    if !Accepts(input, ListSchema) then Err(Issues(input, ListSchema))
    else
      Ok(ListInput(NumberOr(input, "limit", 50), NumberOr(input, "offset", 0)))
  }

  function ParseAddCompany(input: Input): (r: Result<string, seq<string>>)
    ensures r.Ok? <==> "name" in input && input["name"].JString? && |input["name"].str| >= 1
    ensures r.Err? ==> r.error == ["name"]
    ensures r.Ok? ==> r.value == input["name"].str
  {
    if !Accepts(input, AddCompanySchema) then
      assert Issues(input, AddCompanySchema[1..]) == [];
      Err(Issues(input, AddCompanySchema))
    else
      assert Conforms(input, AddCompanySchema[0]);
      Ok(TextAt(input, "name"))
  }

  // ---------------------------------------------------------------- create

  /** What `create` hands to the insert: the four strings, the weight as text, and the
      photo URL; `notes` is dropped. */
  function ToNewLog(c: CreateInput): NewLog
  {
    NewLog(c.location, c.company, c.driverName, c.phoneNumber, NumberText(c.weight), c.photoUrl)
  }

  /** The row a successful `create` stores: every input field but `notes`, as given. */
  function StoredLog(c: CreateInput, id: nat, at: nat): VehicleLog
  {
    VehicleLog(id, c.location, c.company, c.driverName, c.phoneNumber, c.weight.hundredths, c.photoUrl, at)
  }

  /** Forwarding an input stores exactly its fields, and the insert fails only on a lost
      connection or a weight outside `decimal(10,2)`. */
  lemma ForwardedLog(c: CreateInput, outage: Option<string>, id: nat, at: nat)
    ensures ParseNumeric(ToNewLog(c).weight) == Some(c.weight.hundredths)
    ensures InsertedLog(ToNewLog(c), id, at) == StoredLog(c, id, at)
    ensures LogInsertError(outage, ToNewLog(c))
         == (if outage.Some? then Some(ConnectionFailed(outage.value))
             else if InWeightDomain(c.weight.hundredths) then None
             else Some(NumericOverflow))
  {
    NumberTextRoundTrip(c.weight);
  }

  /** `create`: validate, insert, reply with the inserted row. */
  method Create(db: Database, input: Input) returns (r: Reply<Record>)
    requires db.Valid()
    modifies db
    ensures db.Valid()
    ensures db.companies == old(db.companies) && db.outage == old(db.outage)
    ensures !Accepts(input, CreateSchema) ==>
      r == BadRequest(Issues(input, CreateSchema)) && db.logs == old(db.logs)
    ensures Accepts(input, CreateSchema) ==>
      var c := ParseCreate(input).value;
      && (r.Done? <==> old(db.outage).None? && InWeightDomain(c.weight.hundredths))
      && (r.Done? ==> db.logs == old(db.logs) + [StoredLog(c, old(db.nextId), old(db.clock))]
                      && r.value == LogRecord(StoredLog(c, old(db.nextId), old(db.clock))))
      && (old(db.outage).Some? ==> r == InternalError(old(db.outage).value) && db.logs == old(db.logs))
      && (old(db.outage).None? && !InWeightDomain(c.weight.hundredths) ==>
            r == InternalError(Message(NumericOverflow)) && db.logs == old(db.logs))
  {
    var parsed := ParseCreate(input);
    if parsed.Err? {
      return BadRequest(parsed.error);
    }
    var c := parsed.value;
    ForwardedLog(c, db.outage, db.nextId, db.clock);
    var row := db.CreateVehicleLog(ToNewLog(c));
    match row
    case Err(e) =>
      r := InternalError(Message(e));
    case Ok(v) =>
      ToLogRecordOfRow(StoredLog(c, old(db.nextId), old(db.clock)));
      r := Done(ToLogRecord(v));
  }

  // ---------------------------------------------------------------- list

  /** `list`: validate, then the newest rows; `limit` and `offset` reach the statement
      as given, so a fractional one is refused there as a `bigint`. */
  function List(db: Database, input: Input): (r: Reply<seq<Record>>)
    reads db
    requires db.Valid()
    ensures !Accepts(input, ListSchema) ==> r == BadRequest(Issues(input, ListSchema))
    ensures r.Done? ==>
      var q := ParseList(input).value;
      && |r.value| <= q.limit.hundredths / 100
      && r.value == MapSeq(db.LatestLogs(q.limit.hundredths / 100, q.offset.hundredths / 100), LogRecord)
    ensures Accepts(input, ListSchema) ==>
      var q := ParseList(input).value;
      (r.Done? <==> db.outage.None? && IsBigint(q.limit) && IsBigint(q.offset))
    ensures Accepts(input, ListSchema) && db.outage.Some? ==> r == InternalError(db.outage.value)
  {
    match ParseList(input)
    case Err(issues) => BadRequest(issues)
    case Ok(q) =>
      match db.GetVehicleLogs(q.limit, q.offset)
      case Err(e) => InternalError(Message(e))
      case Ok(rows) =>
        var ls := db.LatestLogs(q.limit.hundredths / 100, q.offset.hundredths / 100);
        forall l | l in ls ensures ToLogRecord(LogRow(l)) == LogRecord(l) {
          ToLogRecordOfRow(l);
        }
        Done(MapSeq(rows, ToLogRecord))
  }

  /** Without `limit` and `offset`, `list` returns the 50 newest rows. */
  lemma ListDefaults(db: Database)
    requires db.Valid() && db.outage.None?
    ensures List(db, map[]) == Done(MapSeq(db.LatestLogs(50, 0), LogRecord))
  {
    assert Accepts(map[], ListSchema);
  }

  /** Every record of a successful `list` decodes to the stored row `offset + i` places
      back from the latest insert; so the records are newest first. */
  lemma ListNewestFirst(db: Database, input: Input)
    requires db.Valid()
    requires List(db, input).Done?
    ensures var rs := List(db, input).value;
      var off := ParseList(input).value.offset.hundredths / 100;
      forall i :: 0 <= i < |rs| ==> DecodeLog(rs[i]) == Some(db.logs[|db.logs| - 1 - (off + i)])
  {
    var q := ParseList(input).value;
    var ls := db.LatestLogs(q.limit.hundredths / 100, q.offset.hundredths / 100);
    RecordsDecode(ls);
  }

  /** Records built from rows decode back to those rows. */
  lemma RecordsDecode(ls: seq<VehicleLog>)
    ensures forall i :: 0 <= i < |ls| ==> DecodeLog(MapSeq(ls, LogRecord)[i]) == Some(ls[i])
  {
    forall i | 0 <= i < |ls| ensures DecodeLog(MapSeq(ls, LogRecord)[i]) == Some(ls[i]) {
      DecodeLogRecord(ls[i]);
    }
  }

  // ---------------------------------------------------------------- companies

  /** `getCompanies`: the active companies ascending by name. */
  function GetCompanies(db: Database): (r: Reply<seq<Record>>)
    reads db
    requires db.Valid()
    ensures r.Done? <==> db.outage.None?
    ensures r.InternalError? ==> r.message == db.outage.value
    ensures r.Done? ==> r.value == MapSeq(db.ActiveCompanies(), CompanyRecord)
  {
    match db.GetActiveCompanies()
    case Err(e) => InternalError(Message(e))
    case Ok(rows) =>
      forall c | c in db.ActiveCompanies() ensures ToCompanyRecord(CompanyRow(c)) == CompanyRecord(c) {
        ToCompanyRecordOfRow(c);
      }
      Done(MapSeq(rows, ToCompanyRecord))
  }

  /** Records built from company rows decode back to those rows. */
  lemma CompanyRecordsDecode(cs: seq<Company>)
    ensures forall i :: 0 <= i < |cs| ==> DecodeCompany(MapSeq(cs, CompanyRecord)[i]) == Some(cs[i])
  {
    forall i | 0 <= i < |cs| ensures DecodeCompany(MapSeq(cs, CompanyRecord)[i]) == Some(cs[i]) {
      DecodeCompanyRecord(cs[i]);
    }
  }

  /** A company is listed by `getCompanies` exactly when it is stored and active. */
  lemma GetCompaniesExactlyActive(db: Database, c: Company)
    requires db.Valid() && db.outage.None?
    ensures CompanyRecord(c) in GetCompanies(db).value <==> c in db.companies && c.isActive
  {
    var cs := db.ActiveCompanies();
    assert GetCompanies(db).value == MapSeq(cs, CompanyRecord);
    CompanyRecordIn(cs, c);
  }

  /** A company's record is among the records of `cs` exactly when the company is in `cs`. */
  lemma CompanyRecordIn(cs: seq<Company>, c: Company)
    ensures CompanyRecord(c) in MapSeq(cs, CompanyRecord) <==> c in cs
  {
    var rs := MapSeq(cs, CompanyRecord);
    CompanyRecordsDecode(cs);
    DecodeCompanyRecord(c);
    if CompanyRecord(c) in rs {
      var i :| 0 <= i < |rs| && rs[i] == CompanyRecord(c);
      assert Some(cs[i]) == Some(c);
    }
    if c in cs {
      var i :| 0 <= i < |cs| && cs[i] == c;
      assert rs[i] == CompanyRecord(c);
    }
  }

  /** `addCompany`: validate, then insert the name with every other column defaulted. */
  method AddCompany(db: Database, input: Input) returns (r: Reply<Record>)
    requires db.Valid()
    modifies db
    ensures db.Valid()
    ensures db.logs == old(db.logs) && db.outage == old(db.outage)
    ensures ParseAddCompany(input).Err? ==> r == BadRequest(["name"]) && db.companies == old(db.companies)
    ensures ParseAddCompany(input).Ok? ==>
      var name := ParseAddCompany(input).value;
      && (r.Done? <==> old(db.outage).None? && !NameTaken(old(db.companies), name))
      && (r.Done? ==> db.companies == old(db.companies) + [Company(old(db.nextId), name, true, old(db.clock))]
                      && r.value == CompanyRecord(Company(old(db.nextId), name, true, old(db.clock))))
      && (!r.Done? ==> db.companies == old(db.companies))
      && (old(db.outage).Some? ==> r == InternalError(old(db.outage).value))
      && (old(db.outage).None? && NameTaken(old(db.companies), name) ==>
            r == InternalError(Message(UniqueViolation(CompanyNameKey))))
  {
    var parsed := ParseAddCompany(input);
    if parsed.Err? {
      return BadRequest(parsed.error);
    }
    var row := db.CreateCompany(parsed.value);
    match row
    case Err(e) =>
      r := InternalError(Message(e));
    case Ok(v) =>
      ToCompanyRecordOfRow(Company(old(db.nextId), parsed.value, true, old(db.clock)));
      r := Done(ToCompanyRecord(v));
  }
}
