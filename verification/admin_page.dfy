/** The admin page: it lists the newest records through the `weighing` router, keeps
    those matching the search term and the date filter, and shows how many are left. */
module AdminPage {
  import opened Base
  import opened Text
  import opened Decimal
  import opened Schema
  import opened RpcInput
  import WeighingRouter

  /** `(value || '')` ready for `toLowerCase()`: a missing or falsy value is the empty
      string and a text is itself; any other value has no `toLowerCase`, so evaluating
      the filter throws (`None`). */
  function SearchText(r: Record, k: string): (t: Option<string>)
    ensures t.None? <==> k in r && (r[k].VTime? || r[k].VUuid? || r[k] == VBool(true))
    ensures k in r && r[k].VText? ==> t == Some(r[k].text)
    ensures t.Some? && !(k in r && r[k].VText?) ==> t == Some("")
  {
    if k !in r then Some("")
    else
      match r[k]
      case VText(s) => Some(s)
      case VNull => Some("")
      case VBool(b) => if b then None else Some("")
      case VTime(_) => None
      case VUuid(_) => None
  }

  /** `new Date(createdAt).toISOString().split('T')[0]`, where `iso` renders an instant
      (milliseconds since the epoch) in ISO form. A missing value is an invalid date, for
      which `toISOString` throws (`None`); `null` is the instant 0, `false` and `true`
      the instants 0 and 1. */
  function DatePart(r: Record, iso: nat -> string): (d: Option<string>)
    ensures d.Some? <==> "createdAt" in r && IsInstant(r["createdAt"])
    ensures d.Some? ==>
      var s := iso(InstantOf(r["createdAt"]));
      && |d.value| <= |s| && d.value == s[..|d.value|]
      && 'T' !in d.value
      && (|d.value| < |s| ==> s[|d.value|] == 'T')
  {
    if "createdAt" !in r then None
    else
      match r["createdAt"]
      case VTime(t) => Some(BeforeFirst(iso(t), 'T'))
      case VNull => Some(BeforeFirst(iso(0), 'T'))
      case VBool(b) => Some(BeforeFirst(iso(if b then 1 else 0), 'T'))
      case _ => None
  }

  /** The values `new Date(…)` turns into a valid instant here. */
  predicate IsInstant(v: Value)
  {
    v.VTime? || v.VNull? || v.VBool?
  }

  /** The instant `new Date(v)` gives: `null` and `false` are 0 and `true` is 1. */
  function InstantOf(v: Value): nat
    requires IsInstant(v)
  {
    match v
    case VTime(t) => t
    case VBool(b) => if b then 1 else 0
    case _ => 0
  }

  /** Whether the filter keeps `r`: the lowercased term occurs in the lowercased driver
      name, company or location (tried in that order, stopping at the first match),
      and, when a date filter is set, the record's date equals it. `None` when
      evaluating it throws. */
  function Keep(r: Record, term: string, dateFilter: string, iso: nat -> string): (k: Option<bool>)
    ensures SearchText(r, "driverName").None? ==> k.None?
    ensures dateFilter != "" && DatePart(r, iso).None? ==> k.None?
    ensures k == Some(true) ==>
      || (SearchText(r, "driverName").Some? && Includes(Lower(SearchText(r, "driverName").value), Lower(term)))
      || (SearchText(r, "company").Some? && Includes(Lower(SearchText(r, "company").value), Lower(term)))
      || (SearchText(r, "location").Some? && Includes(Lower(SearchText(r, "location").value), Lower(term)))
    ensures k == Some(true) && dateFilter != "" ==> DatePart(r, iso) == Some(dateFilter)
  {
    var q := Lower(term);
    var search: Option<bool> :=
      match SearchText(r, "driverName")
      case None => None
      case Some(d) =>
        if Includes(Lower(d), q) then Some(true)
        else
          match SearchText(r, "company")
          case None => None
          case Some(c) =>
            if Includes(Lower(c), q) then Some(true)
            else
              match SearchText(r, "location")
              case None => None
              case Some(l) => Some(Includes(Lower(l), q));
    if search.None? then None
    else if dateFilter == "" then search
    else
      match DatePart(r, iso)
      case None => None
      case Some(d) => Some(search.value && d == dateFilter)
  }

  /** `logs.filter(…)`: the kept records in their order, or `None` when the predicate
      throws on some record. */
  function FilterLogs(logs: seq<Record>, term: string, dateFilter: string, iso: nat -> string): (r: Option<seq<Record>>)
    ensures r.Some? <==> forall i :: 0 <= i < |logs| ==> Keep(logs[i], term, dateFilter, iso).Some?
    ensures r.Some? ==> IsSubsequence(r.value, logs)
    ensures r.Some? ==> forall x :: x in r.value <==> x in logs && Keep(x, term, dateFilter, iso) == Some(true)
    ensures r.Some? ==> forall x :: multiset(r.value)[x] == (if Keep(x, term, dateFilter, iso) == Some(true) then multiset(logs)[x] else 0)
    ensures r.Some? ==> r.value == Filter(logs, Kept(term, dateFilter, iso))
  {
    if forall i :: 0 <= i < |logs| ==> Keep(logs[i], term, dateFilter, iso).Some? then
      Some(Filter(logs, Kept(term, dateFilter, iso)))
    else None
  }

  /** The filter's predicate as a function value. */
  function Kept(term: string, dateFilter: string, iso: nat -> string): Record -> bool
  {
    (x: Record) => Keep(x, term, dateFilter, iso) == Some(true)
  }

  /** The value under `k` holds text, or is missing or null: what every reply carries
      under the three searched fields. */
  predicate TextOrAbsent(r: Record, k: string)
  {
    k !in r || r[k].VText? || r[k].VNull?
  }

  predicate Searchable(r: Record)
  {
    TextOrAbsent(r, "driverName") && TextOrAbsent(r, "company") && TextOrAbsent(r, "location")
  }

  /** The text searched under `k` of a searchable record. */
  function FieldText(r: Record, k: string): string
    requires TextOrAbsent(r, k)
  {
    if k in r && r[k].VText? then r[k].text else ""
  }

  /** With no term and no date, every searchable record is kept. */
  lemma {:induction false} EmptyFilterKeepsAll(logs: seq<Record>, iso: nat -> string)
    requires forall i :: 0 <= i < |logs| ==> Searchable(logs[i])
    ensures FilterLogs(logs, "", "", iso) == Some(logs)
  {
    forall x | x in logs ensures Keep(x, "", "", iso) == Some(true) {
      assert OccursAt("", Lower(FieldText(x, "driverName")), 0);
    }
    FilterKeepsAll(logs, Kept("", "", iso));
  }

  /** On a searchable record with a valid date, the filter never throws, and it keeps
      the record exactly when the lowercased term occurs somewhere in one of the three
      lowercased fields and the date filter is empty or equals the record's date. */
  lemma KeepMeans(r: Record, term: string, dateFilter: string, iso: nat -> string)
    requires Searchable(r)
    requires dateFilter == "" || DatePart(r, iso).Some?
    ensures Keep(r, term, dateFilter, iso).Some?
    ensures Keep(r, term, dateFilter, iso).value <==>
      && (|| (exists i :: OccursAt(Lower(term), Lower(FieldText(r, "driverName")), i))
          || (exists i :: OccursAt(Lower(term), Lower(FieldText(r, "company")), i))
          || (exists i :: OccursAt(Lower(term), Lower(FieldText(r, "location")), i)))
      && (dateFilter == "" || DatePart(r, iso) == Some(dateFilter))
  {
    assert SearchText(r, "driverName") == Some(FieldText(r, "driverName"));
    assert SearchText(r, "company") == Some(FieldText(r, "company"));
    assert SearchText(r, "location") == Some(FieldText(r, "location"));
  }

  /** The search ignores case: a term and its lowercase decide every record alike. */
  lemma SearchIgnoresCase(r: Record, term: string, dateFilter: string, iso: nat -> string)
    ensures Keep(r, term, dateFilter, iso) == Keep(r, Lower(term), dateFilter, iso)
  {
    LowerIdempotent(term);
  }

  /** Records as the mounted `list` returns them are searchable and dated: the filter
      never throws on them, and their date is the ISO date of their timestamp. */
  lemma ListedRecordsFilter(l: VehicleLog, term: string, dateFilter: string, iso: nat -> string)
    ensures Searchable(LogRecord(l))
    ensures DatePart(LogRecord(l), iso) == Some(BeforeFirst(iso(l.createdAt), 'T'))
    ensures Keep(LogRecord(l), term, dateFilter, iso).Some?
  {
    KeepMeans(LogRecord(l), term, dateFilter, iso);
  }

  /** Rows keyed by column name, as the raw router returns them, lack `createdAt`: with
      a date filter set, the filter throws on any non-empty list of them. */
  lemma RawRowsBreakDateFilter(ls: seq<VehicleLog>, term: string, dateFilter: string, iso: nat -> string)
    requires |ls| > 0 && dateFilter != ""
    ensures FilterLogs(MapSeq(ls, LogRow), term, dateFilter, iso) == None
  {
    assert "createdAt" !in LogRow(ls[0]);
    assert Keep(MapSeq(ls, LogRow)[0], term, dateFilter, iso) == None;
  }

  /** The query state of the list: still loading, answered, or failed. */
  datatype ListState = Pending | Answered(logs: seq<Record>) | Failed

  /** What the table card shows. */
  datatype Body = LoadingNotice | EmptyNotice | Table(rows: seq<Record>)

  /** The count line and the table card. */
  datatype Screen = Screen(count: nat, body: Body)

  /** The records the page works on: `data`, or `[]` while there is none. */
  function Data(state: ListState): seq<Record>
  {
    if state.Answered? then state.logs else []
  }

  class AdminPage {
    var searchTerm: string
    var dateFilter: string
    var limit: nat

    constructor ()
      ensures searchTerm == "" && dateFilter == "" && limit == 50
    {
      searchTerm, dateFilter, limit := "", "", 50;
    }

    method SetSearchTerm(t: string)
      modifies this
      ensures searchTerm == t && dateFilter == old(dateFilter) && limit == old(limit)
    {
      searchTerm := t;
    }

    method SetDateFilter(d: string)
      modifies this
      ensures dateFilter == d && searchTerm == old(searchTerm) && limit == old(limit)
    {
      dateFilter := d;
    }

    /** The input of the `list` query: the current limit and offset 0. A limit in
        [1, 100] passes the router's schema as it is. */
    function ListQuery(): (q: Input)
      reads this
      ensures 1 <= limit <= 100 ==>
        WeighingRouter.ParseList(q) == Ok(WeighingRouter.ListInput(Whole(limit), Whole(0)))
    {
      var q := map["limit" := JNumber(Whole(limit)), "offset" := JNumber(Whole(0))];
      WeighingRouter.ListSchemaMeans(q);
      q
    }

    /** The screen for a query state, or `None` when filtering throws. The count is the
        number of kept records; the table card shows the loading notice while loading,
        the empty notice when nothing is kept, and otherwise the kept records. */
    function Render(state: ListState, iso: nat -> string): (s: Option<Screen>)
      reads this
      ensures s.Some? <==> FilterLogs(Data(state), searchTerm, dateFilter, iso).Some?
      ensures s.Some? ==> s.value.count == |FilterLogs(Data(state), searchTerm, dateFilter, iso).value|
      ensures s.Some? ==> (s.value.body == LoadingNotice <==> state.Pending?)
      ensures s.Some? && !state.Pending? ==> (s.value.body == EmptyNotice <==> s.value.count == 0)
      ensures s.Some? && s.value.body.Table? ==>
        s.value.body.rows == FilterLogs(Data(state), searchTerm, dateFilter, iso).value
    {
      match FilterLogs(Data(state), searchTerm, dateFilter, iso)
      case None => None
      case Some(kept) =>
        var body := if state.Pending? then LoadingNotice else if |kept| == 0 then EmptyNotice else Table(kept);
        Some(Screen(|kept|, body))
    }
  }
}
