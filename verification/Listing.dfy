/** The order of a listing, and the in-memory filter against the SQL filter. */
module Listing {
  import opened Domain
  import D = Departments
  import P = Plans
  import opened Strings

  ghost predicate UniqueCodes(rows: set<Department>) {
    forall x, y | x in rows && y in rows && x.code == y.code :: x == y
  }

  ghost predicate IsFirst(le: Collation, rows: set<Department>, d: Department) {
    d in rows && forall x | x in rows :: le(d.code, x.code)
  }

  lemma {:induction false} FirstExists(le: Collation, rows: set<Department>)
    requires rows != {}
    ensures exists d :: IsFirst(le, rows, d)
  {
    var x :| x in rows;
    if rows == {x} {
      assert IsFirst(le, rows, x);
    } else {
      var rest := rows - {x};
      FirstExists(le, rest);
      var d :| IsFirst(le, rest, d);
      if le(x.code, d.code) {
        assert IsFirst(le, rows, x);
      } else {
        assert IsFirst(le, rows, d);
      }
    }
  }

  // ORDER BY code.
  ghost function SortByCode(le: Collation, rows: set<Department>): seq<Department>
  {
    if rows == {} then []
    else
      FirstExists(le, rows);
      var d :| IsFirst(le, rows, d);
      [d] + SortByCode(le, rows - {d})
  }

  ghost predicate Sorted(le: Collation, s: seq<Department>) {
    forall i, j | 0 <= i < j < |s| :: le(s[i].code, s[j].code)
  }

  ghost predicate Strict(le: Collation, s: seq<Department>) {
    && Sorted(le, s)
    && (forall i, j | 0 <= i < j < |s| :: s[i] != s[j])
  }

  ghost predicate IsListing(le: Collation, rows: set<Department>, s: seq<Department>) {
    && Strict(le, s)
    && (forall d :: d in s <==> d in rows)
  }

  lemma {:induction false} SortIsListing(le: Collation, rows: set<Department>)
    ensures IsListing(le, rows, SortByCode(le, rows))
  {
    if rows != {} {
      var s := SortByCode(le, rows);
      var d := s[0];
      assert s[1..] == SortByCode(le, rows - {d}) && IsFirst(le, rows, d) by {
        FirstExists(le, rows);
      }
      SortIsListing(le, rows - {d});
      forall x ensures x in s <==> x in rows {
        assert x in s <==> x == d || x in s[1..];
      }
      forall i, j | 0 <= i < j < |s| ensures le(s[i].code, s[j].code) && s[i] != s[j] {
        assert s[j] == s[1..][j - 1] && s[j] in s[1..];
        if i > 0 {
          assert s[i] == s[1..][i - 1];
        }
      }
    }
  }

  // With unique codes the rows and the order determine the listing.
  lemma {:induction false} ListingIsUnique(le: Collation, rows: set<Department>, s: seq<Department>, t: seq<Department>)
    requires UniqueCodes(rows)
    requires IsListing(le, rows, s) && IsListing(le, rows, t)
    ensures s == t
    decreases |s|
  {
    EmptyIff(le, rows, s);
    EmptyIff(le, rows, t);
    if s != [] {
      hide IsListing, UniqueCodes;
      SameHead(le, rows, s, t);
      TailListing(le, rows, s);
      TailListing(le, rows, t);
      UniqueRest(rows, s[0]);
      ListingIsUnique(le, rows - {s[0]}, s[1..], t[1..]);
      assert s == [s[0]] + s[1..] && t == [t[0]] + t[1..];
    }
  }

  lemma UniqueRest(rows: set<Department>, d: Department)
    requires UniqueCodes(rows)
    ensures UniqueCodes(rows - {d})
  {
  }

  lemma SameHead(le: Collation, rows: set<Department>, s: seq<Department>, t: seq<Department>)
    requires UniqueCodes(rows)
    requires IsListing(le, rows, s) && IsListing(le, rows, t) && s != [] && t != []
    ensures s[0] == t[0]
  {
    assert s[0] in s && t[0] in t;
    LeAt(le, s, t[0]);
    LeAt(le, t, s[0]);
  }

  lemma EmptyIff(le: Collation, rows: set<Department>, s: seq<Department>)
    requires IsListing(le, rows, s)
    ensures s == [] <==> rows == {}
  {
    if s != [] {
      assert s[0] in s;
    }
    if rows != {} {
      var d :| d in rows;
      assert d in s;
    }
  }

  lemma LeAt(le: Collation, s: seq<Department>, d: Department)
    requires Sorted(le, s) && d in s
    ensures le(s[0].code, d.code)
  {
  }

  lemma TailListing(le: Collation, rows: set<Department>, s: seq<Department>)
    requires IsListing(le, rows, s) && s != []
    ensures IsListing(le, rows - {s[0]}, s[1..])
  {
    forall d ensures d in s[1..] <==> d in rows - {s[0]} {
      if d in s[1..] {
        var k :| 0 <= k < |s| - 1 && s[1..][k] == d;
        assert s[k + 1] == d;
      }
      if d in rows && d != s[0] {
        var k :| 0 <= k < |s| && s[k] == d;
        assert s[1..][k - 1] == d;
      }
    }
  }

  // ── the two ways to list active departments ──

  ghost function Rows(t: D.Table, activeOnly: bool): set<Department> {
    set id | id in t && (activeOnly ==> t[id].isActive) :: t[id]
  }

  // SELECT ... FROM departments [WHERE is_active = true] ORDER BY code.
  ghost function SelectDepartments(le: Collation, t: D.Table, activeOnly: bool): seq<Department>
  {
    SortByCode(le, Rows(t, activeOnly))
  }

  // The query has one answer.
  lemma OneListing(le: Collation, t: D.Table, activeOnly: bool, s: seq<Department>)
    requires IsListing(le, Rows(t, activeOnly), s)
    ensures UniqueCodes(Rows(t, activeOnly)) ==> s == SelectDepartments(le, t, activeOnly)
  {
    hide IsListing, UniqueCodes;
    var rows := Rows(t, activeOnly);
    SortIsListing(le, rows);
    if UniqueCodes(rows) {
      ListingIsUnique(le, rows, s, SortByCode(le, rows));
    }
  }

  // On a valid table: every row, or every active one, once, by code.
  lemma SelectedRows(le: Collation, t: D.Table, activeOnly: bool)
    requires D.Valid(t)
    ensures var s := SelectDepartments(le, t, activeOnly);
      && (forall d :: d in s <==> d.id in t && t[d.id] == d && (activeOnly ==> d.isActive))
      && (forall i, j | 0 <= i < j < |s| :: le(s[i].code, s[j].code) && s[i].id != s[j].id)
  {
    var rows := Rows(t, activeOnly);
    var s := SelectDepartments(le, t, activeOnly);
    SortIsListing(le, rows);
    forall d ensures d in rows <==> d.id in t && t[d.id] == d && (activeOnly ==> d.isActive) {
    }
    forall i, j | 0 <= i < j < |s| ensures s[i].id != s[j].id {
      assert s[i] in s && s[j] in s;
    }
  }

  function Scanned(t: P.Table, code: TenantPlan): seq<Plan> {
    if code in t && P.Scan(t[code]).Ok? then [P.Scan(t[code]).value] else []
  }

  // SELECT ... FROM plans ORDER BY code: the enum's declaration order.
  function SelectPlans(t: P.Table): seq<Plan> {
    Scanned(t, Starter) + Scanned(t, Pro) + Scanned(t, Enterprise)
  }

  // A valid table lists all three plans, each row scanned in full.
  lemma PlansListInFull(t: P.Table)
    requires P.Valid(t)
    ensures P.Scan(t[Starter]).Ok? && P.Scan(t[Pro]).Ok? && P.Scan(t[Enterprise]).Ok?
    ensures SelectPlans(t) == [P.Scan(t[Starter]).value, P.Scan(t[Pro]).value, P.Scan(t[Enterprise]).value]
  {
    P.AllPlans(Starter);
    P.AllPlans(Pro);
    P.AllPlans(Enterprise);
  }

  // Starter, pro, enterprise, each with the columns of its row.
  lemma PlansShowTheirRows(t: P.Table)
    requires P.Valid(t)
    ensures var s := SelectPlans(t);
      && |s| == 3 && s[0].code == Starter && s[1].code == Pro && s[2].code == Enterprise
      && forall i | 0 <= i < 3 ::
        var p := s[i];
        && p.code in t
        && var r := t[p.code];
          && p.displayName == r.displayName && p.workflowLimit == r.workflowLimit && p.tenderLimit == r.tenderLimit
          && p.trialDays == r.trialDays && p.sso == r.sso && p.branding == r.branding
          && AObj(p.features) == r.featureSet && p.recordVersion == r.recordVersion
          && p.createdAt == r.createdAt && p.updatedAt == r.updatedAt
  {
    hide P.CheckRow;
    PlansListInFull(t);
    P.AllPlans(Starter);
    P.AllPlans(Pro);
    P.AllPlans(Enterprise);
  }

  // Nothing is lost in scanning: the listing determines the table.
  lemma PlanListingDeterminesTable(t: P.Table, u: P.Table)
    requires P.Valid(t) && P.Valid(u) && SelectPlans(t) == SelectPlans(u)
    ensures t == u
  {
    PlansListInFull(t);
    PlansListInFull(u);
    var s := SelectPlans(t);
    assert s[0] == P.Scan(t[Starter]).value && s[1] == P.Scan(t[Pro]).value && s[2] == P.Scan(t[Enterprise]).value;
    assert s[0] == P.Scan(u[Starter]).value && s[1] == P.Scan(u[Pro]).value && s[2] == P.Scan(u[Enterprise]).value;
    forall code | code in t ensures t[code] == u[code] {
      P.AllPlans(code);
    }
  }

  function Active(s: seq<Department>): seq<Department> {
    if s == [] then []
    else Active(s[..|s| - 1]) + if s[|s| - 1].isActive then [s[|s| - 1]] else []
  }

  lemma {:induction false} ActiveMembers(s: seq<Department>)
    ensures forall d :: d in Active(s) <==> d in s && d.isActive
  {
    if s != [] {
      var n := |s| - 1;
      ActiveMembers(s[..n]);
      assert s == s[..n] + [s[n]];
    }
  }

  lemma StrictAppend(le: Collation, s: seq<Department>, d: Department)
    requires Strict(le, s) && forall x | x in s :: le(x.code, d.code) && x != d
    ensures Strict(le, s + [d])
  {
    var s' := s + [d];
    forall i, j | 0 <= i < j < |s'| ensures le(s'[i].code, s'[j].code) && s'[i] != s'[j] {
      assert s'[i] == s[i] && s[i] in s;
      if j < |s| {
        assert s'[j] == s[j];
      }
    }
  }

  lemma StrictFront(le: Collation, s: seq<Department>)
    requires Strict(le, s) && s != []
    ensures var n := |s| - 1; Strict(le, s[..n]) && forall x | x in s[..n] :: le(x.code, s[n].code) && x != s[n]
  {
    var front := s[..|s| - 1];
    forall x | x in front ensures le(x.code, s[|s| - 1].code) && x != s[|s| - 1] {
      var k :| 0 <= k < |front| && front[k] == x;
      assert s[k] == x;
    }
    forall i, j | 0 <= i < j < |front| ensures le(front[i].code, front[j].code) && front[i] != front[j] {
      assert front[i] == s[i] && front[j] == s[j];
    }
  }

  lemma {:induction false} ActiveIsStrict(le: Collation, s: seq<Department>)
    requires Strict(le, s)
    ensures Strict(le, Active(s))
  {
    if s != [] {
      hide Strict;
      var n := |s| - 1;
      StrictFront(le, s);
      ActiveIsStrict(le, s[..n]);
      ActiveMembers(s[..n]);
      if s[n].isActive {
        StrictAppend(le, Active(s[..n]), s[n]);
      } else {
        assert Active(s) == Active(s[..n]);
      }
    } else {
      assert Active(s) == s;
    }
  }

  lemma ValidTablesHaveUniqueCodes(t: D.Table)
    requires D.Valid(t)
    ensures UniqueCodes(Rows(t, false))
  {
  }

  // Filtering the full listing in memory is the filtered query, order included.
  lemma FilterEqualsWhere(le: Collation, t: D.Table)
    requires UniqueCodes(Rows(t, false))
    ensures Active(SelectDepartments(le, t, false)) == SelectDepartments(le, t, true)
  {
    var all, active := Rows(t, false), Rows(t, true);
    SortIsListing(le, all);
    SortIsListing(le, active);
    var s := SortByCode(le, all);
    ActiveMembers(s);
    ActiveIsStrict(le, s);
    forall d ensures d in Active(s) <==> d in active {
      assert d in all && d.isActive <==> d in active;
    }
    assert IsListing(le, active, Active(s));
    assert forall d | d in active :: d in all;
    ListingIsUnique(le, active, Active(s), SortByCode(le, active));
  }

  // DepartmentService.List's loop.
  method FilterActive(all: seq<Department>) returns (out: seq<Department>)
    ensures out == Active(all)
  {
    out := [];
    for i := 0 to |all|
      invariant out == Active(all[..i])
    {
      assert all[..i + 1][..i] == all[..i];
      if all[i].isActive {
        out := out + [all[i]];
      }
    }
    assert all[..|all|] == all;
  }
}
