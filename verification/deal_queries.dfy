// store_deal_list.go: the list filter compiled to a WHERE clause with numbered
// placeholders, and the page read with it.
module DealQueries {
  import opened Wrappers
  import opened Sequences
  import opened DealDomain

  datatype ListFilter = ListFilter(
    pipelineId: string, stageId: string, ownerId: string, organizationId: string, status: string,
    stalled: bool, forecastCategory: string, partnerOrgId: string, personId: string,
    custom: map<string, string>)

  // A deal row; columns holds the text of every column that is not null.
  datatype Row = Row(
    id: string, workspaceId: string, archived: bool, columns: map<string, string>,
    createdAt: Instant, lastActivityAt: Option<Instant>, waitUntil: Option<Date>)

  datatype Grant = Grant(recordId: string, subjectId: string, expiresAt: Option<Instant>)

  // The other tables a clause looks at: grants on deals to users, and live
  // stakeholder relationships as (deal, person).
  datatype Db = Db(grants: set<Grant>, stakeholders: set<(string, string)>, now: Instant)

  datatype Value = Text(s: string) | Number(n: int)

  // One conjunct of the WHERE clause; each argument is a $n.
  datatype Clause =
    | InWorkspace(arg: nat)
    | Live
    | AfterCursor(arg: nat)
    | ColumnIs(column: string, arg: nat)
    | OwnedOrGranted(arg: nat, grantee: nat)
    | StatusOpen
    | HasStakeholder(arg: nat)

  function ArgsOf(c: Clause): seq<nat> {
    match c
    case InWorkspace(a) => [a]
    case Live => []
    case AfterCursor(a) => [a]
    case ColumnIs(_, a) => [a]
    case OwnedOrGranted(a, g) => [a, g]
    case StatusOpen => []
    case HasStakeholder(a) => [a]
  }

  predicate IsText(args: seq<Value>, n: nat, s: string) {
    1 <= n <= |args| && args[n - 1] == Text(s)
  }

  predicate Has(row: Row, column: string, value: string) {
    column in row.columns && row.columns[column] == value
  }

  predicate GrantedTo(db: Db, row: Row, userId: string) {
    exists g :: g in db.grants && g.recordId == row.id && g.subjectId == userId
                && (g.expiresAt.None? || g.expiresAt.value > db.now)
  }

  predicate Eval(c: Clause, args: seq<Value>, row: Row, db: Db) {
    match c
    case InWorkspace(a) => IsText(args, a, row.workspaceId)
    case Live => !row.archived
    case AfterCursor(a) =>
      1 <= a <= |args| && args[a - 1].Text?
      && (args[a - 1].s == "" || (row.id != args[a - 1].s && StringLeq(args[a - 1].s, row.id)))
    case ColumnIs(column, a) => column in row.columns && IsText(args, a, row.columns[column])
    case OwnedOrGranted(a, g) =>
      ("owner_id" in row.columns && IsText(args, a, row.columns["owner_id"]))
      || (1 <= g <= |args| && args[g - 1].Text? && GrantedTo(db, row, args[g - 1].s))
    case StatusOpen => Has(row, "status", "open")
    case HasStakeholder(a) => 1 <= a <= |args| && args[a - 1].Text? && (row.id, args[a - 1].s) in db.stakeholders
  }

  predicate Holds(clauses: seq<Clause>, args: seq<Value>, row: Row, db: Db) {
    forall i :: 0 <= i < |clauses| ==> Eval(clauses[i], args, row, db)
  }

  // ------------------------------------------------------------ numbering

  function Placeholders(clauses: seq<Clause>): seq<nat> {
    if clauses == [] then [] else Placeholders(clauses[..|clauses| - 1]) + ArgsOf(clauses[|clauses| - 1])
  }

  function UpTo(from: nat, n: nat): seq<nat>
    requires from > 0
  {
    if n < from then [] else UpTo(from, n - 1) + [n]
  }

  // $1 and $2 are the base clauses', $3 is the LIMIT's, and every later
  // argument is used by exactly one placeholder, in order.
  ghost predicate WellNumbered(clauses: seq<Clause>, n: nat) {
    && n >= 3
    && Placeholders(clauses) == [1, 2] + UpTo(4, n)
    && (forall i, a :: 0 <= i < |clauses| && a in ArgsOf(clauses[i]) ==> 1 <= a <= n)
  }

  lemma PlaceholdersSnoc(clauses: seq<Clause>, c: Clause)
    ensures Placeholders(clauses + [c]) == Placeholders(clauses) + ArgsOf(c)
  {
    assert (clauses + [c])[..|clauses|] == clauses;
  }

  // Arguments bound later do not disturb the clauses already there.
  lemma LaterArgsKeep(c: Clause, args: seq<Value>, more: seq<Value>, row: Row, db: Db)
    requires forall a :: a in ArgsOf(c) ==> 1 <= a <= |args|
    ensures Eval(c, args + more, row, db) == Eval(c, args, row, db)
  {
    if c.OwnedOrGranted? {
      assert c.arg in ArgsOf(c) && c.grantee in ArgsOf(c);
    } else if c.InWorkspace? || c.AfterCursor? || c.ColumnIs? || c.HasStakeholder? {
      assert c.arg in ArgsOf(c);
    }
  }

  lemma AndMeans(clauses: seq<Clause>, args: seq<Value>, c: Clause, more: seq<Value>, row: Row, db: Db)
    requires WellNumbered(clauses, |args|)
    ensures Holds(clauses + [c], args + more, row, db) <==>
      Holds(clauses, args, row, db) && Eval(c, args + more, row, db)
  {
    var all := clauses + [c];
    forall i | 0 <= i < |clauses| ensures Eval(all[i], args + more, row, db) == Eval(clauses[i], args, row, db) {
      LaterArgsKeep(clauses[i], args, more, row, db);
    }
    assert all[|clauses|] == c;
    if Holds(all, args + more, row, db) {
      forall i | 0 <= i < |clauses| ensures Eval(clauses[i], args, row, db) {
        assert Eval(all[i], args + more, row, db);
      }
    }
  }

  lemma AndNumbered(clauses: seq<Clause>, n: nat, c: Clause)
    requires WellNumbered(clauses, n)
    ensures ArgsOf(c) == [] ==> WellNumbered(clauses + [c], n)
    ensures ArgsOf(c) == [n + 1] ==> WellNumbered(clauses + [c], n + 1)
    ensures ArgsOf(c) == [n + 1, n + 2] ==> WellNumbered(clauses + [c], n + 2)
  {
    PlaceholdersSnoc(clauses, c);
    if ArgsOf(c) == [] {
      assert Placeholders(clauses) + [] == Placeholders(clauses);
    } else if ArgsOf(c) == [n + 1] {
      Reassociate([1, 2], UpTo(4, n), [n + 1]);
    } else if ArgsOf(c) == [n + 1, n + 2] {
      assert UpTo(4, n + 2) == UpTo(4, n + 1) + [n + 2];
      assert UpTo(4, n) + [n + 1, n + 2] == UpTo(4, n + 2);
      Reassociate([1, 2], UpTo(4, n), [n + 1, n + 2]);
    }
  }

  // ------------------------------------------------- what the filter means

  // An empty filter value asks for nothing.
  predicate Asks(row: Row, column: string, value: string) {
    value == "" || Has(row, column, value)
  }

  predicate BasicMatch(f: ListFilter, row: Row, db: Db) {
    && Asks(row, "pipeline_id", f.pipelineId)
    && Asks(row, "stage_id", f.stageId)
    && (f.ownerId == "" || Has(row, "owner_id", f.ownerId) || GrantedTo(db, row, f.ownerId))
    && Asks(row, "organization_id", f.organizationId)
    && Asks(row, "status", f.status)
  }

  predicate PeopleMatch(f: ListFilter, row: Row, db: Db) {
    && Asks(row, "forecast_category", f.forecastCategory)
    && Asks(row, "partner_org_id", f.partnerOrgId)
    && (f.personId == "" || (row.id, f.personId) in db.stakeholders)
  }

  predicate CustomMatch(f: ListFilter, row: Row) {
    forall c :: c in f.custom ==> Has(row, c, f.custom[c])
  }

  // A closed deal's status text is anything but "open".
  predicate Stalled(row: Row, now: Instant) {
    IsStalled(if Has(row, "status", "open") then Open else Won, row.createdAt, row.lastActivityAt, row.waitUntil, now)
  }

  // The plain filter.
  predicate Matches(f: ListFilter, row: Row, db: Db) {
    BasicMatch(f, row, db) && PeopleMatch(f, row, db) && CustomMatch(f, row) && (f.stalled ==> Stalled(row, db.now))
  }

  predicate InScope(workspaceId: string, cursor: string, row: Row) {
    && row.workspaceId == workspaceId && !row.archived
    && (cursor == "" || (row.id != cursor && StringLeq(cursor, row.id)))
  }

  // -------------------------------------------------------------- builders

  // `if value != "" { n++; args = append(args, value); where += ... }`
  method AndColumn(where: seq<Clause>, args: seq<Value>, n: nat, column: string, value: string)
    returns (where': seq<Clause>, args': seq<Value>, n': nat)
    requires n == |args| && WellNumbered(where, n)
    ensures n' == |args'| && WellNumbered(where', n') && args <= args'
    ensures forall row, db :: Holds(where', args', row, db) <==> Holds(where, args, row, db) && Asks(row, column, value)
  {
    where', args', n' := where, args, n;
    if value != "" {
      n' := n + 1;
      args' := args + [Text(value)];
      where' := where + [ColumnIs(column, n')];
      AndNumbered(where, n, ColumnIs(column, n'));
      forall row, db ensures Holds(where', args', row, db) <==>
        Holds(where, args, row, db) && Asks(row, column, value) {
        AndMeans(where, args, ColumnIs(column, n'), [Text(value)], row, db);
      }
    }
  }

  method BuildWhereBasic(f: ListFilter, where: seq<Clause>, args: seq<Value>, n: nat)
    returns (where': seq<Clause>, args': seq<Value>, n': nat)
    requires n == |args| && WellNumbered(where, n)
    ensures n' == |args'| && WellNumbered(where', n') && args <= args'
    ensures forall row, db :: Holds(where', args', row, db) <==> Holds(where, args, row, db) && BasicMatch(f, row, db)
  {
    where', args', n' := AndColumn(where, args, n, "pipeline_id", f.pipelineId);
    where', args', n' := AndColumn(where', args', n', "stage_id", f.stageId);
    where', args', n' := AndOwner(where', args', n', f.ownerId);
    where', args', n' := AndColumn(where', args', n', "organization_id", f.organizationId);
    where', args', n' := AndColumn(where', args', n', "status", f.status);
  }

  method AndOwner(where: seq<Clause>, args: seq<Value>, n: nat, ownerId: string)
    returns (where': seq<Clause>, args': seq<Value>, n': nat)
    requires n == |args| && WellNumbered(where, n)
    ensures n' == |args'| && WellNumbered(where', n') && args <= args'
    ensures forall row, db :: Holds(where', args', row, db) <==>
      Holds(where, args, row, db) && (ownerId == "" || Has(row, "owner_id", ownerId) || GrantedTo(db, row, ownerId))
  {
    where', args', n' := where, args, n;
    if ownerId != "" {
      var ownerArg := n + 1;
      n' := n + 2;
      args' := args + [Text(ownerId), Text(ownerId)];
      var c := OwnedOrGranted(ownerArg, n');
      where' := where + [c];
      AndNumbered(where, n, c);
      forall row, db
        ensures Holds(where', args', row, db) <==>
          Holds(where, args, row, db) && (Has(row, "owner_id", ownerId) || GrantedTo(db, row, ownerId))
      {
        AndMeans(where, args, c, [Text(ownerId), Text(ownerId)], row, db);
      }
    }
  }

  method BuildWhereExtra(f: ListFilter, where: seq<Clause>, args: seq<Value>, n: nat)
    returns (where': seq<Clause>, args': seq<Value>, n': nat)
    requires n == |args| && WellNumbered(where, n)
    ensures n' == |args'| && WellNumbered(where', n') && args <= args'
    ensures forall row, db :: Holds(where', args', row, db) <==>
      Holds(where, args, row, db) && PeopleMatch(f, row, db) && (f.stalled ==> Has(row, "status", "open"))
  {
    where' := where;
    if f.stalled {
      where' := where + [StatusOpen];
      AndNumbered(where, n, StatusOpen);
      forall row, db ensures Holds(where', args, row, db) <==>
        Holds(where, args, row, db) && Has(row, "status", "open") {
        AndMeans(where, args, StatusOpen, [], row, db);
        assert args + [] == args;
      }
    }
    where', args', n' := AndColumn(where', args, n, "forecast_category", f.forecastCategory);
    where', args', n' := AndColumn(where', args', n', "partner_org_id", f.partnerOrgId);
    where', args', n' := AndPerson(where', args', n', f.personId);
  }

  method AndPerson(where: seq<Clause>, args: seq<Value>, n: nat, personId: string)
    returns (where': seq<Clause>, args': seq<Value>, n': nat)
    requires n == |args| && WellNumbered(where, n)
    ensures n' == |args'| && WellNumbered(where', n') && args <= args'
    ensures forall row, db :: Holds(where', args', row, db) <==>
      Holds(where, args, row, db) && (personId == "" || (row.id, personId) in db.stakeholders)
  {
    where', args', n' := where, args, n;
    if personId != "" {
      n' := n + 1;
      args' := args + [Text(personId)];
      where' := where + [HasStakeholder(n')];
      AndNumbered(where, n, HasStakeholder(n'));
      forall row, db
        ensures Holds(where', args', row, db) <==> Holds(where, args, row, db) && (row.id, personId) in db.stakeholders
      {
        AndMeans(where, args, HasStakeholder(n'), [Text(personId)], row, db);
      }
    }
  }

  // A map's keys in order.
  ghost predicate IsSortedKeys(cols: seq<string>, m: map<string, string>) {
    && Sorted(cols, StringLeq)
    && (forall c :: c in cols <==> c in m)
    && (forall i, j :: 0 <= i < j < |cols| ==> cols[i] != cols[j])
  }

  function CustomClauses(cols: seq<string>, n: nat): seq<Clause> {
    if cols == [] then [] else [ColumnIs(cols[0], n + 1)] + CustomClauses(cols[1..], n + 1)
  }

  // The keys come out of the map in any order; sorted, there is only one.
  lemma SortedKeysUnique(a: seq<string>, b: seq<string>, m: map<string, string>)
    requires IsSortedKeys(a, m) && IsSortedKeys(b, m)
    ensures a == b
  {
    StringOrder();
    DistinctMultiset(a, b);
    SortedUnique(a, b, StringLeq);
  }

  lemma DistinctMultiset(a: seq<string>, b: seq<string>)
    requires forall c :: c in a <==> c in b
    requires forall i, j :: 0 <= i < j < |a| ==> a[i] != a[j]
    requires forall i, j :: 0 <= i < j < |b| ==> b[i] != b[j]
    ensures multiset(a) == multiset(b)
  {
    forall c ensures multiset(a)[c] == multiset(b)[c] {
      CountDistinct(a, c);
      CountDistinct(b, c);
    }
  }

  lemma {:induction false} CountDistinct(a: seq<string>, c: string)
    requires forall i, j :: 0 <= i < j < |a| ==> a[i] != a[j]
    ensures multiset(a)[c] == if c in a then 1 else 0
  {
    if a != [] {
      CountDistinct(a[1..], c);
      assert a == [a[0]] + a[1..];
    }
  }

  lemma StillDistinct(cols: seq<string>, col: string)
    requires col !in cols && forall i, j :: 0 <= i < j < |cols| ==> cols[i] != cols[j]
    ensures var r := cols + [col]; forall i, j :: 0 <= i < j < |r| ==> r[i] != r[j]
    ensures forall c :: c in cols + [col] <==> c in cols || c == col
  {
  }

  method SortedColumns(m: map<string, string>) returns (cols: seq<string>)
    ensures IsSortedKeys(cols, m)
  {
    cols := [];
    var rest := m.Keys;
    while rest != {}
      invariant rest <= m.Keys
      invariant forall c :: c in cols <==> c in m.Keys - rest
      invariant forall i, j :: 0 <= i < j < |cols| ==> cols[i] != cols[j]
      decreases |rest|
    {
      var col :| col in rest;
      StillDistinct(cols, col);
      cols := cols + [col];
      rest := rest - {col};
    }
    StringOrder();
    StableSortSorts(cols, StringLeq);
    SortKeepsDistinct(cols);
    cols := StableSort(cols, StringLeq);
  }

  lemma SortKeepsDistinct(a: seq<string>)
    requires forall i, j :: 0 <= i < j < |a| ==> a[i] != a[j]
    ensures var r := StableSort(a, StringLeq); forall i, j :: 0 <= i < j < |r| ==> r[i] != r[j]
  {
    StringOrder();
    StableSortSorts(a, StringLeq);
    var r := StableSort(a, StringLeq);
    forall i, j | 0 <= i < j < |r| ensures r[i] != r[j] {
      if r[i] == r[j] {
        CountDistinct(a, r[i]);
        TwiceInSequence(r, i, j);
      }
    }
  }

  // The first k columns are compiled.
  ghost predicate CustomDone(f: ListFilter, cols: seq<string>, k: nat,
                             where: seq<Clause>, args: seq<Value>, where': seq<Clause>, args': seq<Value>)
    requires k <= |cols| && forall c :: c in cols ==> c in f.custom
  {
    && WellNumbered(where', |args'|) && |args'| == |args| + k && args <= args'
    && where' == where + CustomClauses(cols[..k], |args|)
    && (forall row, db :: Holds(where', args', row, db) <==>
          Holds(where, args, row, db) && forall i :: 0 <= i < k ==> Has(row, cols[i], f.custom[cols[i]]))
  }

  lemma CustomStep(f: ListFilter, cols: seq<string>, k: nat,
                   where: seq<Clause>, args: seq<Value>, where': seq<Clause>, args': seq<Value>)
    requires k < |cols| && forall c :: c in cols ==> c in f.custom
    requires CustomDone(f, cols, k, where, args, where', args')
    ensures CustomDone(f, cols, k + 1, where, args,
                       where' + [ColumnIs(cols[k], |args'| + 1)], args' + [Text(f.custom[cols[k]])])
  {
    var clause, val := ColumnIs(cols[k], |args'| + 1), f.custom[cols[k]];
    AndNumbered(where', |args'|, clause);
    forall row, db
      ensures Holds(where' + [clause], args' + [Text(val)], row, db) <==>
        Holds(where', args', row, db) && Has(row, cols[k], val)
    {
      AndMeans(where', args', clause, [Text(val)], row, db);
    }
    CustomClausesSnoc(cols, k, |args|);
    Reassociate(where, CustomClauses(cols[..k], |args|), [clause]);
  }

  lemma CustomStart(f: ListFilter, cols: seq<string>, where: seq<Clause>, args: seq<Value>)
    requires WellNumbered(where, |args|) && forall c :: c in cols ==> c in f.custom
    ensures CustomDone(f, cols, 0, where, args, where, args)
  {
    assert cols[..0] == [] && where == where + CustomClauses([], |args|);
  }

  method AndColumns(f: ListFilter, cols: seq<string>, where: seq<Clause>, args: seq<Value>, n: nat)
    returns (where': seq<Clause>, args': seq<Value>, n': nat)
    requires n == |args| && WellNumbered(where, n) && forall c :: c in cols ==> c in f.custom
    ensures n' == |args'| && CustomDone(f, cols, |cols|, where, args, where', args')
  {
    where', args', n' := where, args, n;
    CustomStart(f, cols, where, args);
    for k := 0 to |cols|
      invariant n' == |args'| && CustomDone(f, cols, k, where, args, where', args')
    {
      CustomStep(f, cols, k, where, args, where', args');
      n' := n' + 1;
      var clause, value := ColumnIs(cols[k], n'), Text(f.custom[cols[k]]);
      where', args' := where' + [clause], args' + [value];
    }
  }

  method BuildWhereCustom(f: ListFilter, where: seq<Clause>, args: seq<Value>, n: nat)
    returns (where': seq<Clause>, args': seq<Value>, n': nat)
    requires n == |args| && WellNumbered(where, n)
    ensures n' == |args'| && WellNumbered(where', n') && args <= args'
    ensures forall row, db :: Holds(where', args', row, db) <==> Holds(where, args, row, db) && CustomMatch(f, row)
    ensures exists cols :: IsSortedKeys(cols, f.custom) && where' == where + CustomClauses(cols, n)
  {
    var cols := SortedColumns(f.custom);
    where', args', n' := AndColumns(f, cols, where, args, n);
    TakeAll(cols);
    forall row ensures (forall i :: 0 <= i < |cols| ==> Has(row, cols[i], f.custom[cols[i]])) <==> CustomMatch(f, row) {
      EachColumn(f, cols, row);
    }
  }

  lemma EachColumn(f: ListFilter, cols: seq<string>, row: Row)
    requires forall c :: c in cols <==> c in f.custom
    ensures (forall i :: 0 <= i < |cols| ==> Has(row, cols[i], f.custom[cols[i]])) <==> CustomMatch(f, row)
  {
    if forall i :: 0 <= i < |cols| ==> Has(row, cols[i], f.custom[cols[i]]) {
      forall c | c in f.custom ensures Has(row, c, f.custom[c]) {
        var i :| 0 <= i < |cols| && cols[i] == c;
      }
    }
  }

  lemma {:induction false} CustomClausesSnoc(cols: seq<string>, k: nat, n: nat)
    requires k < |cols|
    ensures CustomClauses(cols[..k + 1], n) == CustomClauses(cols[..k], n) + [ColumnIs(cols[k], n + k + 1)]
    decreases k
  {
    if k == 0 {
      assert cols[..1][1..] == [];
    } else {
      assert cols[..k + 1][1..] == cols[1..][..k] && cols[..k][1..] == cols[1..][..k - 1];
      CustomClausesSnoc(cols[1..], k - 1, n + 1);
    }
  }

  // The compiled clause means the filter, for every row and every state of the
  // other tables, and binds each argument once.
  method BuildDealListWhere(workspaceId: string, cursor: string, limit: int, f: ListFilter)
    returns (where: seq<Clause>, args: seq<Value>, n: nat)
    ensures n == |args| && WellNumbered(where, n) && args[2] == Number(limit + 1)
    ensures forall row, db :: Holds(where, args, row, db) <==>
      InScope(workspaceId, cursor, row) && BasicMatch(f, row, db) && PeopleMatch(f, row, db)
      && CustomMatch(f, row) && (f.stalled ==> Has(row, "status", "open"))
  {
    args := [Text(workspaceId), Text(cursor), Number(limit + 1)];
    n := 3;
    where := [InWorkspace(1), Live, AfterCursor(2)];
    BaseNumbered();
    forall row, db ensures Holds(where, args, row, db) <==> InScope(workspaceId, cursor, row) {
      assert where[0] == InWorkspace(1) && where[1] == Live && where[2] == AfterCursor(2);
    }
    where, args, n := BuildWhereBasic(f, where, args, n);
    where, args, n := BuildWhereExtra(f, where, args, n);
    where, args, n := BuildWhereCustom(f, where, args, n);
  }

  lemma BaseNumbered()
    ensures WellNumbered([InWorkspace(1), Live, AfterCursor(2)], 3)
  {
    var where := [InWorkspace(1), Live, AfterCursor(2)];
    assert where == [] + [InWorkspace(1)] + [Live] + [AfterCursor(2)];
    PlaceholdersSnoc([], InWorkspace(1));
    PlaceholdersSnoc([] + [InWorkspace(1)], Live);
    PlaceholdersSnoc([] + [InWorkspace(1)] + [Live], AfterCursor(2));
    assert UpTo(4, 3) == [];
  }

  // ------------------------------------------------------------ one page

  const DEFAULT_LIMIT := 20
  const MAX_LIMIT := 100

  function PageLimit(limit: int): (r: nat)
    ensures r == if 1 <= limit <= 100 then limit else 20
  {
    if limit <= 0 || limit > MAX_LIMIT then DEFAULT_LIMIT else limit
  }

  // The rows asked for: in scope, and matching the plain filter.
  function Wanted(workspaceId: string, cursor: string, f: ListFilter, db: Db): Row -> bool {
    row => InScope(workspaceId, cursor, row) && Matches(f, row, db)
  }

  // The rows the WHERE clause lets through.
  function Narrowed(workspaceId: string, cursor: string, f: ListFilter, db: Db): Row -> bool {
    row => InScope(workspaceId, cursor, row) && BasicMatch(f, row, db) && PeopleMatch(f, row, db)
           && CustomMatch(f, row) && (f.stalled ==> Has(row, "status", "open"))
  }

  // A grant on the deal to the user that has not run out.
  predicate GrantHolds(g: Grant, dealId: string, userId: string, now: Instant) {
    g.recordId == dealId && g.subjectId == userId && (g.expiresAt.Some? ==> now < g.expiresAt.value)
  }

  // The column named holds the value asked for, if one is.
  predicate IsAsked(row: Row, column: string, value: string) {
    value == "" || (column in row.columns && row.columns[column] == value)
  }

  // An open deal, idle for more than sixty days with no customer wait holding.
  predicate GoneQuiet(row: Row, now: Instant) {
    && "status" in row.columns && row.columns["status"] == "open"
    && now - (if row.lastActivityAt.Some? then row.lastActivityAt.value else row.createdAt) > 60 * 86_400_000_000_000
    && (row.waitUntil.Some? ==> row.waitUntil.value < DateOf(now))
  }

  // What a listing asks for, column by column: live deals of the workspace
  // behind the cursor, in the pipeline, stage, organization, status, forecast
  // and partner asked for, with the person as a stakeholder, owned by the user
  // or shared with him, with the custom values, and stalled if that is asked.
  lemma WantedIff(workspaceId: string, cursor: string, f: ListFilter, db: Db, row: Row)
    ensures Wanted(workspaceId, cursor, f, db)(row) <==>
      && row.workspaceId == workspaceId && !row.archived
      && (cursor == "" || (cursor != row.id && StringLeq(cursor, row.id)))
      && IsAsked(row, "pipeline_id", f.pipelineId) && IsAsked(row, "stage_id", f.stageId)
      && (IsAsked(row, "owner_id", f.ownerId)
          || exists g :: g in db.grants && GrantHolds(g, row.id, f.ownerId, db.now))
      && IsAsked(row, "organization_id", f.organizationId) && IsAsked(row, "status", f.status)
      && IsAsked(row, "forecast_category", f.forecastCategory) && IsAsked(row, "partner_org_id", f.partnerOrgId)
      && (f.personId != "" ==> (row.id, f.personId) in db.stakeholders)
      && (forall c :: c in f.custom ==> c in row.columns && row.columns[c] == f.custom[c])
      && (f.stalled ==> GoneQuiet(row, db.now))
  {
    StalledIff(row, db.now);
    GrantedIff(db, row, f.ownerId);
  }

  lemma GrantedIff(db: Db, row: Row, userId: string)
    ensures GrantedTo(db, row, userId) <==> exists g :: g in db.grants && GrantHolds(g, row.id, userId, db.now)
  {
    if g :| g in db.grants && GrantHolds(g, row.id, userId, db.now) {
      assert g.recordId == row.id && g.subjectId == userId;
    }
    if GrantedTo(db, row, userId) {
      var g :| g in db.grants && g.recordId == row.id && g.subjectId == userId
               && (g.expiresAt.None? || g.expiresAt.value > db.now);
      assert GrantHolds(g, row.id, userId, db.now);
    }
  }

  lemma StalledIff(row: Row, now: Instant)
    ensures Stalled(row, now) <==> GoneQuiet(row, now)
  {
  }

  function StalledNow(db: Db): Row -> bool {
    row => Stalled(row, db.now)
  }

  function Passing(where: seq<Clause>, args: seq<Value>, db: Db): Row -> bool {
    row => Holds(where, args, row, db)
  }

  function Take<T>(s: seq<T>, n: nat): (r: seq<T>)
    ensures r <= s && |r| == if |s| < n then |s| else n
  {
    if |s| <= n then s else s[..n]
  }

  // The narrowing to open deals drops no stalled deal.
  lemma StalledAreOpen(workspaceId: string, cursor: string, f: ListFilter, db: Db, rows: seq<Row>)
    ensures f.stalled ==>
      Filter(Filter(rows, Narrowed(workspaceId, cursor, f, db)), StalledNow(db))
        == Filter(rows, Wanted(workspaceId, cursor, f, db))
    ensures !f.stalled ==>
      Filter(rows, Narrowed(workspaceId, cursor, f, db)) == Filter(rows, Wanted(workspaceId, cursor, f, db))
  {
    var narrowed, stalled := Narrowed(workspaceId, cursor, f, db), StalledNow(db);
    if f.stalled {
      FilterFilter(rows, narrowed, stalled);
      FilterSame(rows, x => narrowed(x) && stalled(x), Wanted(workspaceId, cursor, f, db));
    } else {
      FilterSame(rows, narrowed, Wanted(workspaceId, cursor, f, db));
    }
  }

  lemma FilterPrefix<T(!new)>(a: seq<T>, s: seq<T>, p: T -> bool)
    requires a <= s
    ensures Filter(a, p) <= Filter(s, p)
  {
    assert s == a + s[|a|..];
    FilterAppend(a, s[|a|..], p);
  }

  method KeepStalled(rows: seq<Row>, db: Db) returns (kept: seq<Row>)
    ensures kept == Filter(rows, StalledNow(db))
  {
    kept := [];
    for i := 0 to |rows|
      invariant kept == Filter(rows[..i], StalledNow(db))
    {
      TakeStep(rows, i);
      FilterAppend(rows[..i], [rows[i]], StalledNow(db));
      if Stalled(rows[i], db.now) {
        kept := kept + [rows[i]];
      }
    }
    TakeAll(rows);
  }

  // The query: rows through the WHERE clause, up to its LIMIT.
  method Fetch(table: seq<Row>, workspaceId: string, cursor: string, size: nat, f: ListFilter, db: Db)
    returns (fetched: seq<Row>)
    ensures fetched == Take(Filter(table, Narrowed(workspaceId, cursor, f, db)), size + 1)
  {
    var where, args, n := BuildDealListWhere(workspaceId, cursor, size, f);
    var passed := Filter(table, Passing(where, args, db));
    FilterSame(table, Passing(where, args, db), Narrowed(workspaceId, cursor, f, db));
    fetched := Take(passed, args[2].n);
  }

  // The page wanted: the first rows asked for, and a cursor if there are more.
  predicate IsPage(page: seq<Row>, next: string, all: seq<Row>, size: nat)
    requires size > 0
  {
    page == Take(all, size) && next == if |all| > size then all[size - 1].id else ""
  }

  // The fetched rows make up a page, or no deal that was not fetched is asked
  // for.
  predicate FetchSuffices(narrowed: seq<Row>, stalled: bool, size: nat, db: Db) {
    stalled ==>
      var fetched := Take(narrowed, size + 1);
      || |Filter(fetched, StalledNow(db))| > size
      || forall i :: |fetched| <= i < |narrowed| ==> !Stalled(narrowed[i], db.now)
  }

  // Of the rows let through, one more than a page is fetched, and those not
  // stalled are dropped afterwards.
  function PageOf(narrowed: seq<Row>, stalled: bool, size: nat, db: Db): (seq<Row>, string)
    requires size > 0
  {
    var fetched := Take(narrowed, size + 1);
    var out := if stalled then Filter(fetched, StalledNow(db)) else fetched;
    if |out| > size then (out[..size], out[size - 1].id) else (out, "")
  }

  function AskedFor(narrowed: seq<Row>, stalled: bool, db: Db): seq<Row> {
    if stalled then Filter(narrowed, StalledNow(db)) else narrowed
  }

  lemma PrefixPage(kept: seq<Row>, all: seq<Row>, size: nat)
    requires kept <= all && |kept| > size > 0
    ensures IsPage(kept[..size], kept[size - 1].id, all, size)
  {
  }

  lemma ShortPage(kept: seq<Row>, rest: seq<Row>, size: nat)
    requires 0 < size && |kept| <= size
    ensures rest == [] ==> IsPage(kept, "", kept + rest, size)
    ensures IsPage(kept, "", kept + rest, size) && IdsGiven(kept + rest) ==> rest == []
  {
    var all := kept + rest;
    if rest != [] {
      if |all| > size {
        assert all[size - 1] in all;
      } else {
        assert |Take(all, size)| == |all|;
      }
    } else {
      assert all == kept;
    }
  }

  predicate IdsGiven(rows: seq<Row>) {
    forall row :: row in rows ==> row.id != ""
  }

  lemma NoneStalled(rows: seq<Row>, db: Db)
    ensures Filter(rows, StalledNow(db)) == [] <==> forall i :: 0 <= i < |rows| ==> !Stalled(rows[i], db.now)
  {
    forall i | 0 <= i < |rows| ensures rows[i] in rows {
    }
    if Filter(rows, StalledNow(db)) == [] {
      forall i | 0 <= i < |rows| ensures !Stalled(rows[i], db.now) {
        FilterMember(rows, StalledNow(db), rows[i]);
      }
    } else {
      var first := Filter(rows, StalledNow(db))[0];
      FilterMember(rows, StalledNow(db), first);
    }
  }

  // What is asked for is what was kept of the fetched rows and what stands
  // behind them.
  lemma KeptAndRest(narrowed: seq<Row>, size: nat, db: Db) returns (kept: seq<Row>, rest: seq<Row>)
    ensures kept == Filter(Take(narrowed, size + 1), StalledNow(db))
    ensures Filter(narrowed, StalledNow(db)) == kept + rest
    ensures FetchSuffices(narrowed, true, size, db) <==> |kept| > size || rest == []
  {
    var fetched := Take(narrowed, size + 1);
    var later := narrowed[|fetched|..];
    assert narrowed == fetched + later;
    FilterAppend(fetched, later, StalledNow(db));
    NoneStalled(later, db);
    kept, rest := Filter(fetched, StalledNow(db)), Filter(later, StalledNow(db));
    assert forall i :: 0 <= i < |later| ==> later[i] == narrowed[|fetched| + i];
    assert forall i :: |fetched| <= i < |narrowed| ==> narrowed[i] == later[i - |fetched|];
  }

  lemma StalledPageRight(narrowed: seq<Row>, size: nat, db: Db)
    requires size > 0
    ensures var (page, next) := PageOf(narrowed, true, size, db);
      var right := IsPage(page, next, Filter(narrowed, StalledNow(db)), size);
      && (FetchSuffices(narrowed, true, size, db) ==> right)
      && (right && IdsGiven(narrowed) ==> FetchSuffices(narrowed, true, size, db))
  {
    var kept, rest := KeptAndRest(narrowed, size, db);
    KeptIds(narrowed, StalledNow(db));
    if |kept| > size {
      PrefixPage(kept, kept + rest, size);
    } else {
      ShortPage(kept, rest, size);
    }
  }

  lemma PlainPageRight(narrowed: seq<Row>, size: nat, db: Db)
    requires size > 0
    ensures var (page, next) := PageOf(narrowed, false, size, db); IsPage(page, next, narrowed, size)
  {
    var fetched := Take(narrowed, size + 1);
    if |narrowed| > size {
      assert fetched[..size] == Take(narrowed, size) && fetched[size - 1] == narrowed[size - 1];
    }
  }

  // The page and its cursor are right exactly if the fetch sufficed.
  lemma PageRightIff(narrowed: seq<Row>, stalled: bool, size: nat, db: Db)
    requires size > 0
    ensures var (page, next) := PageOf(narrowed, stalled, size, db);
      var right := IsPage(page, next, AskedFor(narrowed, stalled, db), size);
      && (FetchSuffices(narrowed, stalled, size, db) ==> right)
      && (right && IdsGiven(narrowed) ==> FetchSuffices(narrowed, stalled, size, db))
  {
    if stalled {
      StalledPageRight(narrowed, size, db);
    } else {
      PlainPageRight(narrowed, size, db);
    }
  }

  // Two deals with recent activity ahead of a stalled one: a page of one comes
  // back empty and without a cursor.
  lemma StalledPageCutShort() returns (narrowed: seq<Row>, db: Db)
    ensures PageOf(narrowed, true, 1, db) == ([], "")
    ensures AskedFor(narrowed, true, db) != [] && forall row :: row in narrowed ==> Has(row, "status", "open")
  {
    var columns := map["status" := "open"];
    var recent := Row("a", "w", false, columns, 61 * DAY, None, None);
    var alsoRecent := recent.(id := "b");
    var quiet := Row("c", "w", false, columns, 0, None, None);
    db := Db({}, {}, 61 * DAY);
    narrowed := [recent, alsoRecent, quiet];
    var fetched := [recent, alsoRecent];
    assert Take(narrowed, 2) == fetched;
    assert !Stalled(recent, db.now) && !Stalled(alsoRecent, db.now) && Stalled(quiet, db.now);
    FilterNone(fetched, StalledNow(db));
    assert quiet == narrowed[2] && quiet in narrowed;
    FilterMember(narrowed, StalledNow(db), quiet);
  }

  // The page read from the table, whose rows come in the order of the query's
  // ORDER BY. It is always a leading part of the rows asked for. It is all of
  // them up to the limit, with a cursor if there are more, exactly if the fetch
  // sufficed: deals dropped as not stalled use up the rows fetched.
  method ListFiltered(table: seq<Row>, workspaceId: string, cursor: string, limit: int, f: ListFilter, db: Db)
    returns (page: seq<Row>, next: string)
    ensures page <= Filter(table, Wanted(workspaceId, cursor, f, db)) && |page| <= PageLimit(limit)
    ensures (page, next) == PageOf(Filter(table, Narrowed(workspaceId, cursor, f, db)), f.stalled, PageLimit(limit), db)
    ensures FetchSuffices(Filter(table, Narrowed(workspaceId, cursor, f, db)), f.stalled, PageLimit(limit), db) ==>
      IsPage(page, next, Filter(table, Wanted(workspaceId, cursor, f, db)), PageLimit(limit))
    ensures
      && IdsGiven(table)
      && IsPage(page, next, Filter(table, Wanted(workspaceId, cursor, f, db)), PageLimit(limit)) ==>
      FetchSuffices(Filter(table, Narrowed(workspaceId, cursor, f, db)), f.stalled, PageLimit(limit), db)
  {
    var size := PageLimit(limit);
    var out := Fetch(table, workspaceId, cursor, size, f, db);
    if f.stalled {
      out := KeepStalled(out, db);
    }
    page, next := out, "";
    if |page| > size {
      next := page[size - 1].id;
      page := page[..size];
    }
    ListedPage(table, workspaceId, cursor, size, f, db);
  }

  // The page of the rows let through, seen from the rows asked for.
  lemma ListedPage(table: seq<Row>, workspaceId: string, cursor: string, size: nat, f: ListFilter, db: Db)
    requires size > 0
    ensures var narrowed := Filter(table, Narrowed(workspaceId, cursor, f, db));
      var all := Filter(table, Wanted(workspaceId, cursor, f, db));
      var (page, next) := PageOf(narrowed, f.stalled, size, db);
      && page <= all && |page| <= size
      && (FetchSuffices(narrowed, f.stalled, size, db) ==> IsPage(page, next, all, size))
      && (IdsGiven(table) && IsPage(page, next, all, size) ==> FetchSuffices(narrowed, f.stalled, size, db))
  {
    var narrowed := Filter(table, Narrowed(workspaceId, cursor, f, db));
    StalledAreOpen(workspaceId, cursor, f, db, table);
    FilterPrefix(Take(narrowed, size + 1), narrowed, StalledNow(db));
    KeptIds(table, Narrowed(workspaceId, cursor, f, db));
    PageRightIff(narrowed, f.stalled, size, db);
  }

  lemma KeptIds(table: seq<Row>, p: Row -> bool)
    ensures IdsGiven(table) ==> IdsGiven(Filter(table, p))
  {
    forall row | row in Filter(table, p) ensures row in table {
      FilterMember(table, p, row);
    }
  }
}
