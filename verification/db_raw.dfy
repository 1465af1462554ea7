/** The data-access layer `dbRaw`: the two tables held by a `Database` object, and the
    four SQL statements run against them. Each statement returns the rows exactly as
    the `pg` driver does, keyed by column name. */
module DbRaw {
  import opened Base
  import opened Text
  import opened Decimal
  import opened Schema
  import opened Queries

  /** The failures a statement can report. */
  datatype StorageError =
    | ConnectionFailed(reason: string)
    | InvalidNumeric(input: string)
    | NumericOverflow
    | InvalidBigint(input: string)
    | BigintOutOfRange(input: string)
    | NegativeOffset
    | NegativeLimit
    | UniqueViolation(constraint: string)

  /** The `message` of the error the driver throws. */
  function Message(e: StorageError): (m: string)
    ensures e.ConnectionFailed? ==> m == e.reason
    ensures !e.ConnectionFailed? ==> |m| > 0
    ensures e.InvalidNumeric? ==> QuotedAt(m, e.input, |m| - |e.input| - 1)
    ensures e.InvalidBigint? ==> QuotedAt(m, e.input, |m| - |e.input| - 1)
    ensures e.UniqueViolation? ==> QuotedAt(m, e.constraint, |m| - |e.constraint| - 1)
    ensures e.BigintOutOfRange? ==> QuotedAt(m, e.input, 7)
  {
    match e
    case ConnectionFailed(reason) => reason
    case InvalidNumeric(t) => Quoting("invalid input syntax for type numeric: ", t, "")
    case NumericOverflow => "numeric field overflow"
    case InvalidBigint(t) => Quoting("invalid input syntax for type bigint: ", t, "")
    case BigintOutOfRange(t) => Quoting("value ", t, " is out of range for type bigint")
    case NegativeOffset => "OFFSET must not be negative"
    case NegativeLimit => "LIMIT must not be negative"
    case UniqueViolation(c) => Quoting("duplicate key value violates unique constraint ", c, "")
  }

  /** `q` stands in double quotes in `m`, starting at position `i`. */
  predicate QuotedAt(m: string, q: string, i: int)
  {
    1 <= i && i + |q| < |m| && m[i - 1] == '"' && m[i..i + |q|] == q && m[i + |q|] == '"'
  }

  /** A message that quotes `q` between `prefix` and `suffix`. */
  function Quoting(prefix: string, q: string, suffix: string): (m: string)
    ensures |m| == |prefix| + |q| + |suffix| + 2
    ensures QuotedAt(m, q, |prefix| + 1)
  {
    var m := prefix + "\"" + q + "\"" + suffix;
    assert m[|prefix| + 1..|prefix| + 1 + |q|] == q;
    m
  }

  /** `String(e)` of the thrown error: a failed connection throws a plain `Error`; the
      server's own errors come as the driver's database error, whose name is `error`. */
  function ErrorString(e: StorageError): (s: string)
    ensures |s| >= 7 && s[7..] == Message(e)
    ensures s[0] == 'E' <==> e.ConnectionFailed?
  {
    if e.ConnectionFailed? then "Error: " + Message(e) else "error: " + Message(e)
  }

  /** A whole number within PostgreSQL's `bigint`, from -2^63 to 2^63 - 1. */
  predicate IsBigint(n: Num)
  {
    IsWhole(n) && -0x8000_0000_0000_0000 <= n.hundredths / 100 <= 0x7FFF_FFFF_FFFF_FFFF
  }

  /** The unique constraint on `companies.name`. */
  const CompanyNameKey := "companies_name_unique"

  /** The argument of `createVehicleLog`; `weight` is the text of a decimal. */
  datatype NewLog = NewLog(
    location: string,
    company: string,
    driverName: string,
    phoneNumber: string,
    weight: string,
    photoUrl: Option<string>)

  /** Why inserting `data` fails, if it does: the connection is down, the weight text is
      not a number, or the number does not fit `decimal(10,2)`. The company is not
      checked against `companies`. */
  function LogInsertError(outage: Option<string>, data: NewLog): (r: Option<StorageError>)
    ensures r.None? <==> outage.None? && ParseNumeric(data.weight).Some? && InWeightDomain(ParseNumeric(data.weight).value)
    ensures outage.Some? ==> r == Some(ConnectionFailed(outage.value))
    ensures outage.None? && r.Some? ==> r.value == InvalidNumeric(data.weight) || r.value == NumericOverflow
    ensures r == Some(NumericOverflow) ==> ParseNumeric(data.weight).Some?
  {
    if outage.Some? then Some(ConnectionFailed(outage.value))
    else
      match ParseNumeric(data.weight)
      case None => Some(InvalidNumeric(data.weight))
      case Some(h) => if InWeightDomain(h) then None else Some(NumericOverflow)
  }

  /** The row an accepted insert of `data` stores, with id `id` and timestamp `at`. */
  function InsertedLog(data: NewLog, id: nat, at: nat): VehicleLog
    requires ParseNumeric(data.weight).Some?
  {
    VehicleLog(id, data.location, data.company, data.driverName, data.phoneNumber,
               ParseNumeric(data.weight).value, data.photoUrl, at)
  }

  predicate NameTaken(cs: seq<Company>, name: string)
  {
    exists i :: 0 <= i < |cs| && cs[i].name == name
  }

  /** Why inserting a company called `name` fails, if it does. */
  function CompanyInsertError(outage: Option<string>, cs: seq<Company>, name: string): (r: Option<StorageError>)
    ensures r.None? <==> outage.None? && forall c :: c in cs ==> c.name != name
    ensures outage.Some? ==> r == Some(ConnectionFailed(outage.value))
    ensures outage.None? && r.Some? ==> r.value == UniqueViolation(CompanyNameKey)
  {
    if outage.Some? then Some(ConnectionFailed(outage.value))
    else if NameTaken(cs, name) then Some(UniqueViolation(CompanyNameKey))
    else None
  }

  /** A number strictly above every id and every timestamp in the tables. */
  function Bound(logs: seq<VehicleLog>, cs: seq<Company>): (b: nat)
    ensures forall i :: 0 <= i < |logs| ==> logs[i].id < b && logs[i].createdAt < b
    ensures forall i :: 0 <= i < |cs| ==> cs[i].id < b && cs[i].createdAt < b
  {
    if logs != [] then
      var b := Bound(logs[1..], cs);
      assert forall i :: 1 <= i < |logs| ==> logs[i] == logs[1..][i - 1];
      Max(b, Max(logs[0].id, logs[0].createdAt) + 1)
    else if cs != [] then
      var b := Bound([], cs[1..]);
      assert forall i :: 1 <= i < |cs| ==> cs[i] == cs[1..][i - 1];
      Max(b, Max(cs[0].id, cs[0].createdAt) + 1)
    else 0
  }

  /** The table constraints hold, the log is in insertion order, and the id supply and
      the clock are ahead of every stored row. */
  ghost predicate StateOk(logs: seq<VehicleLog>, companies: seq<Company>, nextId: nat, clock: nat)
  {
    && LogTableOk(logs)
    && CompanyTableOk(companies)
    && InsertionOrdered(logs)
    && (forall i :: 0 <= i < |logs| ==> logs[i].id < nextId && logs[i].createdAt < clock)
    && (forall i :: 0 <= i < |companies| ==> companies[i].id < nextId && companies[i].createdAt < clock)
  }

  /** Appending a row with the next id and the current time keeps the state consistent. */
  lemma AppendLogOk(logs: seq<VehicleLog>, companies: seq<Company>, nextId: nat, clock: nat, row: VehicleLog)
    requires StateOk(logs, companies, nextId, clock)
    requires row.id == nextId && row.createdAt == clock && InWeightDomain(row.weight)
    ensures StateOk(logs + [row], companies, nextId + 1, clock + 1)
  {
    var t := logs + [row];
    assert forall i :: 0 <= i < |logs| ==> t[i] == logs[i];
  }

  lemma AppendCompanyOk(logs: seq<VehicleLog>, companies: seq<Company>, nextId: nat, clock: nat, row: Company)
    requires StateOk(logs, companies, nextId, clock)
    requires row.id == nextId && row.createdAt == clock && !NameTaken(companies, row.name)
    ensures StateOk(logs, companies + [row], nextId + 1, clock + 1)
  {
    var t := companies + [row];
    assert forall i :: 0 <= i < |companies| ==> t[i] == companies[i];
  }

  /** A page of a listing that is the table read backwards is counted back from the
      table's end. */
  lemma BackwardsPage(logs: seq<VehicleLog>, n: seq<VehicleLog>, limit: nat, offset: nat)
    requires |n| == |logs|
    requires forall k :: 0 <= k < |n| ==> n[k] == logs[|logs| - 1 - k]
    ensures var ls := Page(n, limit, offset);
      forall i :: 0 <= i < |ls| ==> ls[i] == logs[|logs| - 1 - (offset + i)]
  {
  }

  class Database {
    /** `vehicle_logs`, in insertion order. */
    var logs: seq<VehicleLog>
    /** `companies`, in insertion order. */
    var companies: seq<Company>
    /** The supply of fresh uuids: every id in use is below it. */
    var nextId: nat
    /** The clock `now()` reads: every stored timestamp is below it. */
    var clock: nat
    /** `Some(reason)` while the server cannot be reached. */
    var outage: Option<string>

    ghost predicate Valid()
      reads this
    {
      StateOk(logs, companies, nextId, clock)
    }

    /** Opens the database with the tables as found. */
    constructor (logs0: seq<VehicleLog>, companies0: seq<Company>, outage0: Option<string>)
      requires LogTableOk(logs0) && CompanyTableOk(companies0) && InsertionOrdered(logs0)
      ensures Valid()
      ensures logs == logs0 && companies == companies0 && outage == outage0
    {
      logs, companies, outage := logs0, companies0, outage0;
      var b := Bound(logs0, companies0);
      nextId, clock := b, b;
    }

    /** `INSERT INTO vehicle_logs (…) VALUES (…) RETURNING *`. */
    method CreateVehicleLog(data: NewLog) returns (r: Result<Record, StorageError>)
      requires Valid()
      modifies this
      ensures Valid()
      ensures companies == old(companies) && outage == old(outage)
      ensures r.Ok? <==> LogInsertError(old(outage), data) == None
      ensures r.Err? ==> r.error == LogInsertError(old(outage), data).value && logs == old(logs)
      ensures r.Ok? ==> ParseNumeric(data.weight).Some?
      ensures r.Ok? ==> logs == old(logs) + [InsertedLog(data, old(nextId), old(clock))]
      ensures r.Ok? ==> r.value == LogRow(InsertedLog(data, old(nextId), old(clock)))
      ensures r.Ok? ==> LatestLogs(1, 0) == [InsertedLog(data, old(nextId), old(clock))]
    {
      var err := LogInsertError(outage, data);
      if err.Some? {
        return Err(err.value);
      }
      var row := InsertedLog(data, nextId, clock);
      var logs', nextId', clock' := logs + [row], nextId + 1, clock + 1;
      AppendLogOk(logs, companies, nextId, clock, row);
      logs, nextId, clock := logs', nextId', clock';
      r := Ok(LogRow(row));
      assert logs[|logs| - 1] == row;
      var latest := LatestLogs(1, 0);
      assert |latest| == 1;
    }

    /** The `limit` newest rows after skipping the `offset` newest ones. */
    function LatestLogs(limit: nat, offset: nat): (ls: seq<VehicleLog>)
      reads this
      requires Valid()
      ensures |ls| == Min(limit, Max(0, |logs| - offset))
      ensures forall i :: 0 <= i < |ls| ==> ls[i] == logs[|logs| - 1 - (offset + i)]
      ensures NewestFirstOrder(ls)
    {
      NewestFirstIsReverse(logs);
      BackwardsPage(logs, NewestFirst(logs), limit, offset);
      var ls := Page(NewestFirst(logs), limit, offset);
      PageNewestFirst(NewestFirst(logs), limit, offset);
      ls
    }

    /** `SELECT * FROM vehicle_logs ORDER BY created_at DESC LIMIT $1 OFFSET $2`.
        The parameters are sent as the text of the numbers and read as `bigint`, `$1`
        before `$2`; each is refused when it is not whole, then when it is outside
        the `bigint` range. */
    function GetVehicleLogs(limit: Num, offset: Num): (r: Result<seq<Record>, StorageError>)
      reads this
      requires Valid()
      ensures r.Ok? <==> outage.None? && IsBigint(limit) && IsBigint(offset)
                         && limit.hundredths >= 0 && offset.hundredths >= 0
      ensures outage.Some? ==> r == Err(ConnectionFailed(outage.value))
      ensures outage.None? && !IsWhole(limit) ==> r == Err(InvalidBigint(NumberText(limit)))
      ensures outage.None? && IsWhole(limit) && !IsBigint(limit) ==> r == Err(BigintOutOfRange(NumberText(limit)))
      ensures outage.None? && IsBigint(limit) && !IsWhole(offset) ==> r == Err(InvalidBigint(NumberText(offset)))
      ensures outage.None? && IsBigint(limit) && IsWhole(offset) && !IsBigint(offset) ==>
                r == Err(BigintOutOfRange(NumberText(offset)))
      ensures outage.None? && IsBigint(limit) && IsBigint(offset) && offset.hundredths < 0 ==> r == Err(NegativeOffset)
      ensures outage.None? && IsBigint(limit) && IsBigint(offset) && offset.hundredths >= 0 && limit.hundredths < 0 ==>
                r == Err(NegativeLimit)
      ensures r.Ok? ==> r.value == MapSeq(LatestLogs(limit.hundredths / 100, offset.hundredths / 100), LogRow)
    {
      if outage.Some? then Err(ConnectionFailed(outage.value))
      else if !IsWhole(limit) then Err(InvalidBigint(NumberText(limit)))
      else if !IsBigint(limit) then Err(BigintOutOfRange(NumberText(limit)))
      else if !IsWhole(offset) then Err(InvalidBigint(NumberText(offset)))
      else if !IsBigint(offset) then Err(BigintOutOfRange(NumberText(offset)))
      else if offset.hundredths < 0 then Err(NegativeOffset)
      else if limit.hundredths < 0 then Err(NegativeLimit)
      else Ok(MapSeq(LatestLogs(limit.hundredths / 100, offset.hundredths / 100), LogRow))
    }

    /** The active companies, strictly ascending by name. */
    function ActiveCompanies(): (cs: seq<Company>)
      reads this
      requires Valid()
      ensures forall c :: c in cs <==> c in companies && c.isActive
      ensures forall i, j :: 0 <= i < j < |cs| ==> TextLe(cs[i].name, cs[j].name) && cs[i].name != cs[j].name
      ensures |cs| == |ActiveOnly(companies)|
    {
      var cs := ActiveByName(companies);
      forall i, j | 0 <= i < j < |cs| ensures cs[i].name != cs[j].name {
        ActiveNamesDistinct(companies, cs, i, j);
      }
      cs
    }

    /** `SELECT * FROM companies WHERE is_active = true ORDER BY name`. */
    function GetActiveCompanies(): (r: Result<seq<Record>, StorageError>)
      reads this
      requires Valid()
      ensures r.Ok? <==> outage.None?
      ensures r.Err? ==> r.error == ConnectionFailed(outage.value)
      ensures r.Ok? ==> r.value == MapSeq(ActiveCompanies(), CompanyRow)
    {
      if outage.Some? then Err(ConnectionFailed(outage.value))
      else Ok(MapSeq(ActiveCompanies(), CompanyRow))
    }

    /** `INSERT INTO companies (name) VALUES ($1) RETURNING *`: `is_active` and
        `created_at` take their defaults. */
    method CreateCompany(name: string) returns (r: Result<Record, StorageError>)
      requires Valid()
      modifies this
      ensures Valid()
      ensures logs == old(logs) && outage == old(outage)
      ensures r.Ok? <==> CompanyInsertError(old(outage), old(companies), name) == None
      ensures r.Err? ==> r.error == CompanyInsertError(old(outage), old(companies), name).value
                         && companies == old(companies)
      ensures r.Ok? ==>
        var row := Company(old(nextId), name, true, old(clock));
        companies == old(companies) + [row] && r.value == CompanyRow(row)
    {
      var err := CompanyInsertError(outage, companies, name);
      if err.Some? {
        return Err(err.value);
      }
      var row := Company(nextId, name, true, clock);
      AppendCompanyOk(logs, companies, nextId, clock, row);
      companies := companies + [row];
      nextId, clock := nextId + 1, clock + 1;
      r := Ok(CompanyRow(row));
    }
  }

  /** Two positions of a sorted selection of a table with unique names hold different names. */
  lemma ActiveNamesDistinct(companies: seq<Company>, cs: seq<Company>, i: int, j: int)
    requires CompanyTableOk(companies)
    requires multiset(cs) == multiset(ActiveOnly(companies))
    requires 0 <= i < j < |cs|
    ensures cs[i].name != cs[j].name
  {
    if cs[i].name == cs[j].name {
      assert cs[i] in multiset(cs) && cs[j] in multiset(cs);
      SameNameSameRow(companies, cs[i], cs[j]);
      TwiceInSeq(cs, i, j);
      UniqueNamesOnce(companies, cs[i]);
      assert false;
    }
  }

  /** In a table with unique names, two of its rows with the same name are one row. */
  lemma SameNameSameRow(companies: seq<Company>, a: Company, b: Company)
    requires CompanyTableOk(companies)
    requires a in companies && b in companies && a.name == b.name
    ensures a == b
  {
    var p :| 0 <= p < |companies| && companies[p] == a;
    var q :| 0 <= q < |companies| && companies[q] == b;
    assert p == q;
  }

  lemma TwiceInSeq<T>(s: seq<T>, i: int, j: int)
    requires 0 <= i < j < |s| && s[i] == s[j]
    ensures multiset(s)[s[i]] >= 2
  {
    assert s == s[..i] + [s[i]] + s[i + 1..j] + [s[j]] + s[j + 1..];
  }

  /** In a list with unique names, every row occurs at most once. */
  lemma {:induction false} UniqueNamesOnce(b: seq<Company>, x: Company)
    requires forall i, j :: 0 <= i < j < |b| ==> b[i].name != b[j].name
    ensures multiset(b)[x] <= 1
  {
    if b != [] {
      var rest := b[1..];
      assert b == [b[0]] + rest;
      assert forall k :: 0 <= k < |rest| ==> rest[k] == b[k + 1];
      UniqueNamesOnce(rest, x);
      if x == b[0] {
        assert x !in rest;
      }
    }
  }
}
