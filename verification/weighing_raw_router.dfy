/** The `weighing-raw` router: the same four procedures with the same input schemas,
    delegating to `dbRaw`, plus `testConnection`. Its replies carry the rows as the
    driver returns them, keyed by column name. */
module WeighingRawRouter {
  import opened Base
  import opened Decimal
  import opened Schema
  import opened Queries
  import opened DbRaw
  import opened RpcInput
  import WeighingRouter

  /** The result of `testConnection`: it reports a failure instead of throwing. */
  datatype ConnectionReport =
    | Connected(message: string, companiesCount: nat)
    | NotConnected(message: string, error: string)

  /** `testConnection`: runs the active-companies query and reports how many rows it gave. */
  function TestConnection(db: Database): (r: ConnectionReport)
    reads db
    requires db.Valid()
    ensures r.Connected? <==> db.outage.None?
    ensures r.Connected? ==>
      r.message == "Database connection successful" && r.companiesCount == |ActiveOnly(db.companies)|
    ensures r.NotConnected? ==> r.message == db.outage.value && r.error == "Error: " + db.outage.value
  {
    match db.GetActiveCompanies()
    case Ok(rows) => Connected("Database connection successful", |rows|)
    case Err(e) => NotConnected(Message(e), ErrorString(e))
  }

  /** `create`: validate, forward every field but `notes` with the weight as text, and
      reply with the inserted row. */
  method Create(db: Database, input: Input) returns (r: Reply<Record>)
    requires db.Valid()
    modifies db
    ensures db.Valid()
    ensures db.companies == old(db.companies) && db.outage == old(db.outage)
    ensures !Accepts(input, WeighingRouter.CreateSchema) ==>
      r == BadRequest(Issues(input, WeighingRouter.CreateSchema)) && db.logs == old(db.logs)
    ensures Accepts(input, WeighingRouter.CreateSchema) ==>
      var c := WeighingRouter.ParseCreate(input).value;
      var stored := WeighingRouter.StoredLog(c, old(db.nextId), old(db.clock));
      && (r.Done? <==> old(db.outage).None? && InWeightDomain(c.weight.hundredths))
      && (r.Done? ==> db.logs == old(db.logs) + [stored] && r.value == LogRow(stored))
      && (!r.Done? ==> db.logs == old(db.logs))
      && (old(db.outage).Some? ==> r == InternalError(old(db.outage).value))
      && (old(db.outage).None? && !InWeightDomain(c.weight.hundredths) ==>
            r == InternalError(Message(NumericOverflow)))
  {
    var parsed := WeighingRouter.ParseCreate(input);
    if parsed.Err? {
      return BadRequest(parsed.error);
    }
    var c := parsed.value;
    WeighingRouter.ForwardedLog(c, db.outage, db.nextId, db.clock);
    var row := db.CreateVehicleLog(WeighingRouter.ToNewLog(c));
    match row
    case Err(e) =>
      r := InternalError(Message(e));
    case Ok(v) =>
      r := Done(v);
  }

  /** `list`: validate, then pass `limit` and `offset` unchanged to `getVehicleLogs`. */
  function List(db: Database, input: Input): (r: Reply<seq<Record>>)
    reads db
    requires db.Valid()
    ensures !Accepts(input, WeighingRouter.ListSchema) ==>
      r == BadRequest(Issues(input, WeighingRouter.ListSchema))
    ensures Accepts(input, WeighingRouter.ListSchema) ==>
      var q := WeighingRouter.ParseList(input).value;
      (r.Done? <==> db.outage.None? && IsBigint(q.limit) && IsBigint(q.offset))
    ensures Accepts(input, WeighingRouter.ListSchema) && db.outage.Some? ==> r == InternalError(db.outage.value)
    ensures r.Done? ==>
      var q := WeighingRouter.ParseList(input).value;
      && |r.value| <= q.limit.hundredths / 100
      && r.value == MapSeq(db.LatestLogs(q.limit.hundredths / 100, q.offset.hundredths / 100), LogRow)
  {
    match WeighingRouter.ParseList(input)
    case Err(issues) => BadRequest(issues)
    case Ok(q) =>
      match db.GetVehicleLogs(q.limit, q.offset)
      case Err(e) => InternalError(Message(e))
      case Ok(rows) => Done(rows)
  }

  /** `getCompanies`: the active companies ascending by name, as rows. */
  function GetCompanies(db: Database): (r: Reply<seq<Record>>)
    reads db
    requires db.Valid()
    ensures r.Done? <==> db.outage.None?
    ensures r.InternalError? ==> r.message == db.outage.value
    ensures r.Done? ==> r.value == MapSeq(db.ActiveCompanies(), CompanyRow)
  {
    match db.GetActiveCompanies()
    case Err(e) => InternalError(Message(e))
    case Ok(rows) => Done(rows)
  }

  /** `addCompany`: validate before any storage call, then insert the name. */
  method AddCompany(db: Database, input: Input) returns (r: Reply<Record>)
    requires db.Valid()
    modifies db
    ensures db.Valid()
    ensures db.logs == old(db.logs) && db.outage == old(db.outage)
    ensures WeighingRouter.ParseAddCompany(input).Err? ==>
      r == BadRequest(["name"]) && db.companies == old(db.companies) && db.nextId == old(db.nextId)
    ensures WeighingRouter.ParseAddCompany(input).Ok? ==>
      var name := WeighingRouter.ParseAddCompany(input).value;
      var stored := Company(old(db.nextId), name, true, old(db.clock));
      && (r.Done? <==> old(db.outage).None? && !NameTaken(old(db.companies), name))
      && (r.Done? ==> db.companies == old(db.companies) + [stored] && r.value == CompanyRow(stored))
      && (!r.Done? ==> db.companies == old(db.companies))
      && (old(db.outage).None? && NameTaken(old(db.companies), name) ==>
            r == InternalError(Message(UniqueViolation(CompanyNameKey))))
  {
    var parsed := WeighingRouter.ParseAddCompany(input);
    if parsed.Err? {
      return BadRequest(parsed.error);
    }
    var row := db.CreateCompany(parsed.value);
    match row
    case Err(e) =>
      r := InternalError(Message(e));
    case Ok(v) =>
      r := Done(v);
  }

  // ---------------------------------------------------------------- declared shape

  /** The rows of a successful list are not the `VehicleLog` objects `dbRaw` declares:
      read through the declared property names, none of them decodes. */
  lemma RawListRowsDoNotDecode(db: Database, input: Input)
    requires db.Valid()
    requires List(db, input).Done?
    ensures forall i :: 0 <= i < |List(db, input).value| ==> DecodeLog(List(db, input).value[i]) == None
  {
    var rs := List(db, input).value;
    var q := WeighingRouter.ParseList(input).value;
    var ls := db.LatestLogs(q.limit.hundredths / 100, q.offset.hundredths / 100);
    forall i | 0 <= i < |rs| ensures DecodeLog(rs[i]) == None {
      RawLogRowMissesDeclaredFields(ls[i]);
    }
  }

  lemma RawCompanyRowsDoNotDecode(db: Database)
    requires db.Valid()
    requires GetCompanies(db).Done?
    ensures forall i :: 0 <= i < |GetCompanies(db).value| ==> DecodeCompany(GetCompanies(db).value[i]) == None
  {
    var rs := GetCompanies(db).value;
    var cs := db.ActiveCompanies();
    forall i | 0 <= i < |rs| ensures DecodeCompany(rs[i]) == None {
      RawCompanyRowMissesDeclaredFields(cs[i]);
    }
  }

  /** A reply with each row renamed to the declared property names. */
  function Declared(r: Reply<seq<Record>>, rename: Record -> Record): Reply<seq<Record>>
  {
    match r
    case Done(rows) => Done(MapSeq(rows, rename))
    case BadRequest(issues) => BadRequest(issues)
    case InternalError(m) => InternalError(m)
  }

  /** Renamed, the raw `list` is the mounted router's `list`. */
  lemma DeclaredListIsMounted(db: Database, input: Input)
    requires db.Valid()
    ensures Declared(List(db, input), ToLogRecord) == WeighingRouter.List(db, input)
  {
    var p := WeighingRouter.ParseList(input);
    if p.Ok? {
      var g := db.GetVehicleLogs(p.value.limit, p.value.offset);
      if g.Ok? {
        assert List(db, input) == Done(g.value);
      }
    }
  }

  /** Renamed, the rows of the raw `list` decode to the stored rows newest first. */
  lemma DeclaredListDecodes(db: Database, input: Input)
    requires db.Valid()
    requires List(db, input).Done?
    ensures var rs := Declared(List(db, input), ToLogRecord).value;
      var off := WeighingRouter.ParseList(input).value.offset.hundredths / 100;
      forall i :: 0 <= i < |rs| ==> DecodeLog(rs[i]) == Some(db.logs[|db.logs| - 1 - (off + i)])
  {
    DeclaredListIsMounted(db, input);
    WeighingRouter.ListNewestFirst(db, input);
  }

  /** Renamed, the raw `getCompanies` is the mounted router's. */
  lemma DeclaredCompaniesIsMounted(db: Database)
    requires db.Valid()
    ensures Declared(GetCompanies(db), ToCompanyRecord) == WeighingRouter.GetCompanies(db)
  {
    var g := db.GetActiveCompanies();
    if g.Ok? {
      assert GetCompanies(db) == Done(g.value);
    }
  }

  /** Renamed, the rows of the raw `getCompanies` decode to exactly the active companies. */
  lemma DeclaredCompaniesDecode(db: Database, c: Company)
    requires db.Valid()
    requires GetCompanies(db).Done?
    ensures var rs := Declared(GetCompanies(db), ToCompanyRecord).value;
      (exists i :: 0 <= i < |rs| && DecodeCompany(rs[i]) == Some(c)) <==> c in db.companies && c.isActive
  {
    var cs := db.ActiveCompanies();
    var rs := Declared(GetCompanies(db), ToCompanyRecord).value;
    DeclaredCompaniesIsMounted(db);
    assert rs == MapSeq(cs, CompanyRecord);
    WeighingRouter.CompanyRecordsDecode(cs);
    if c in db.companies && c.isActive {
      var i :| 0 <= i < |cs| && cs[i] == c;
      assert DecodeCompany(rs[i]) == Some(c);
    }
  }
}
