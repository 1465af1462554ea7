/** The read queries as list operations: `ORDER BY created_at DESC`, `ORDER BY name`,
    `WHERE is_active = true` and `LIMIT … OFFSET …`. */
module Queries {
  import opened Base
  import opened Text
  import opened Schema

  // ---------------------------------------------------------------- newest first

  /** Non-increasing `createdAt`: the order of `ORDER BY created_at DESC`. */
  predicate NewestFirstOrder(s: seq<VehicleLog>)
  {
    forall i, j :: 0 <= i < j < |s| ==> s[i].createdAt >= s[j].createdAt
  }

  function InsertByTime(x: VehicleLog, s: seq<VehicleLog>): (r: seq<VehicleLog>)
    requires NewestFirstOrder(s)
    ensures NewestFirstOrder(r)
    ensures multiset(r) == multiset(s) + multiset{x}
    ensures |r| == |s| + 1
  {
    if s == [] || x.createdAt >= s[0].createdAt then
      NewestBeforeAll(x, s);
      [x] + s
    else
      var t := InsertByTime(x, s[1..]);
      assert s == [s[0]] + s[1..];
      HeadBeforeInsert(s, x, t);
      [s[0]] + t
  }

  /** A row not older than the head of a newest-first list heads it. */
  lemma NewestBeforeAll(x: VehicleLog, s: seq<VehicleLog>)
    requires NewestFirstOrder(s)
    requires s == [] || x.createdAt >= s[0].createdAt
    ensures NewestFirstOrder([x] + s)
  {
    var r := [x] + s;
    forall i, j | 0 <= i < j < |r| ensures r[i].createdAt >= r[j].createdAt {
      if i > 0 {
        assert r[i] == s[i - 1] && r[j] == s[j - 1];
      } else {
        assert r[j] == s[j - 1];
      }
    }
  }

  /** The head of a newest-first list, not older than the inserted row, heads the
      insertion into its tail. */
  lemma HeadBeforeInsert(s: seq<VehicleLog>, x: VehicleLog, t: seq<VehicleLog>)
    requires s != [] && NewestFirstOrder(s) && s[0].createdAt >= x.createdAt
    requires multiset(t) == multiset(s[1..]) + multiset{x}
    requires NewestFirstOrder(t)
    ensures NewestFirstOrder([s[0]] + t)
  {
    forall k | 0 <= k < |t| ensures s[0].createdAt >= t[k].createdAt {
      assert t[k] in multiset(t);
      if t[k] != x {
        assert t[k] in multiset(s[1..]);
        var m :| 0 <= m < |s[1..]| && s[1..][m] == t[k];
        assert s[m + 1] == t[k];
      }
    }
    var r := [s[0]] + t;
    forall i, j | 0 <= i < j < |r| ensures r[i].createdAt >= r[j].createdAt {
      if i > 0 {
        assert r[i] == t[i - 1] && r[j] == t[j - 1];
      } else {
        assert r[j] == t[j - 1];
      }
    }
  }

  /** The table sorted newest first (insertion sort from the last row). */
  function NewestFirst(s: seq<VehicleLog>): (r: seq<VehicleLog>)
    ensures NewestFirstOrder(r)
    ensures multiset(r) == multiset(s)
    ensures |r| == |s|
  {
    if s == [] then []
    else
      assert s == s[..|s| - 1] + [s[|s| - 1]];
      InsertByTime(s[|s| - 1], NewestFirst(s[..|s| - 1]))
  }

  /** `createdAt` strictly increases along `s`: rows listed in insertion order on a
      clock that ticks with every insert. */
  predicate InsertionOrdered(s: seq<VehicleLog>)
  {
    forall i, j :: 0 <= i < j < |s| ==> s[i].createdAt < s[j].createdAt
  }

  /** A row newer than every row of the table comes first once inserted. */
  lemma {:induction false} NewestFirstAppend(s: seq<VehicleLog>, x: VehicleLog)
    requires forall y :: y in s ==> y.createdAt < x.createdAt
    ensures NewestFirst(s + [x]) == [x] + NewestFirst(s)
  {
    var t := s + [x];
    assert t[..|t| - 1] == s;
    var n := NewestFirst(s);
    if n != [] {
      assert n[0] in multiset(s);
    }
  }

  /** On a table kept in insertion order, newest first is the reverse of insertion order. */
  lemma {:induction false} NewestFirstIsReverse(s: seq<VehicleLog>)
    requires InsertionOrdered(s)
    ensures NewestFirst(s) == Reverse(s)
  {
    if s != [] {
      var init := s[..|s| - 1];
      assert s == init + [s[|s| - 1]];
      assert InsertionOrdered(init);
      NewestFirstIsReverse(init);
      forall y | y in init ensures y.createdAt < s[|s| - 1].createdAt {
        var k :| 0 <= k < |init| && init[k] == y;
      }
      NewestFirstAppend(init, s[|s| - 1]);
    }
  }

  // ---------------------------------------------------------------- by name

  /** Non-decreasing `name` in code-point order: the order of `ORDER BY name`. */
  predicate ByNameOrder(s: seq<Company>)
  {
    forall i, j :: 0 <= i < j < |s| ==> TextLe(s[i].name, s[j].name)
  }

  function InsertByName(x: Company, s: seq<Company>): (r: seq<Company>)
    requires ByNameOrder(s)
    ensures ByNameOrder(r)
    ensures multiset(r) == multiset(s) + multiset{x}
    ensures |r| == |s| + 1
  {
    if s == [] || TextLe(x.name, s[0].name) then
      NameBeforeAll(x, s);
      [x] + s
    else
      TextLeTotal(x.name, s[0].name);
      var t := InsertByName(x, s[1..]);
      assert s == [s[0]] + s[1..];
      FirstNameBeforeInsert(s, x, t);
      [s[0]] + t
  }

  /** A name not after the first of a sorted list is not after any of it, and heads it. */
  lemma NameBeforeAll(x: Company, s: seq<Company>)
    requires ByNameOrder(s)
    requires s == [] || TextLe(x.name, s[0].name)
    ensures ByNameOrder([x] + s)
  {
    var r := [x] + s;
    forall i, j | 0 <= i < j < |r| ensures TextLe(r[i].name, r[j].name) {
      if i > 0 {
        assert r[i] == s[i - 1] && r[j] == s[j - 1];
      } else if j > 1 {
        assert r[j] == s[j - 1];
        TextLeTransitive(x.name, s[0].name, s[j - 1].name);
      }
    }
  }

  /** The head of a sorted list, not after the inserted row, heads the insertion into its tail. */
  lemma FirstNameBeforeInsert(s: seq<Company>, x: Company, t: seq<Company>)
    requires s != [] && ByNameOrder(s) && TextLe(s[0].name, x.name)
    requires multiset(t) == multiset(s[1..]) + multiset{x}
    requires ByNameOrder(t)
    ensures ByNameOrder([s[0]] + t)
  {
    forall k | 0 <= k < |t| ensures TextLe(s[0].name, t[k].name) {
      assert t[k] in multiset(t);
      if t[k] != x {
        assert t[k] in multiset(s[1..]);
        var m :| 0 <= m < |s[1..]| && s[1..][m] == t[k];
        assert s[m + 1] == t[k];
      }
    }
    var r := [s[0]] + t;
    forall i, j | 0 <= i < j < |r| ensures TextLe(r[i].name, r[j].name) {
      if i > 0 {
        assert r[i] == t[i - 1] && r[j] == t[j - 1];
      } else {
        assert r[j] == t[j - 1];
      }
    }
  }

  /** The rows sorted ascending by name. */
  function ByName(s: seq<Company>): (r: seq<Company>)
    ensures ByNameOrder(r)
    ensures multiset(r) == multiset(s)
    ensures |r| == |s|
  {
    if s == [] then []
    else
      assert s == [s[0]] + s[1..];
      InsertByName(s[0], ByName(s[1..]))
  }

  // ---------------------------------------------------------------- filter and page

  /** `WHERE is_active = true`. */
  function ActiveOnly(cs: seq<Company>): (r: seq<Company>)
    ensures forall c :: c in r <==> c in cs && c.isActive
    ensures forall c :: multiset(r)[c] == (if c.isActive then multiset(cs)[c] else 0)
    ensures IsSubsequence(r, cs)
  {
    Filter(cs, (c: Company) => c.isActive)
  }

  /** `ORDER BY name` over `WHERE is_active = true`. */
  function ActiveByName(cs: seq<Company>): (r: seq<Company>)
    ensures ByNameOrder(r)
    ensures multiset(r) == multiset(ActiveOnly(cs))
    ensures forall c :: c in r <==> c in cs && c.isActive
  {
    var r := ByName(ActiveOnly(cs));
    assert forall c :: c in r <==> c in multiset(ActiveOnly(cs));
    r
  }

  /** `OFFSET offset LIMIT limit`: skip `offset` rows, then take at most `limit`;
      past the end the result is empty. */
  function Page<T>(rows: seq<T>, limit: nat, offset: nat): (r: seq<T>)
    ensures |r| == Min(limit, Max(0, |rows| - offset))
    ensures forall i :: 0 <= i < |r| ==> r[i] == rows[offset + i]
  {
    if offset >= |rows| then []
    else if limit >= |rows| - offset then rows[offset..]
    else rows[offset..offset + limit]
  }

  /** A page of a newest-first listing is newest first. */
  lemma PageNewestFirst(rows: seq<VehicleLog>, limit: nat, offset: nat)
    requires NewestFirstOrder(rows)
    ensures NewestFirstOrder(Page(rows, limit, offset))
  {
    var r := Page(rows, limit, offset);
    forall i, j | 0 <= i < j < |r| ensures r[i].createdAt >= r[j].createdAt {
      assert r[i] == rows[offset + i] && r[j] == rows[offset + j];
    }
  }
}
