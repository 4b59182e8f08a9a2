// store_deal_update.go: a partial update compiled to one UPDATE with numbered
// placeholders.
module DealUpdate {
  import opened Wrappers
  import opened Sequences
  import opened CustomColumns

  // The columns an UPDATE may name, and every other one. Custom columns are
  // named apart from the fixed ones by their cf_ prefix.
  datatype Col =
    | Name | StageId | Status | LostReason | AmountMinor | Currency | ClosedAt | FxRate | FxDate
    | ExpectedClose | OwnerId | PartnerOrgId | UpdatedAt | Custom(name: string) | Other(name: string)

  type Row = map<Col, Sql>
  type Fields = map<Col, Json>

  // One assignment of the SET list; each argument is a $n.
  datatype SetClause =
    | Coalesce(column: Col, arg: nat)  // column = COALESCE($n, column)
    | CloseStamp(statusArg: nat)            // now() when $n is won or lost
    | Assign(column: Col, arg: nat)
    | Touch                               // updated_at = now()

  datatype Statement = Statement(sets: seq<SetClause>, args: seq<Sql>, matchArg: nat)

  const TEXT_COLUMNS := {Name, StageId, Status, LostReason, Currency, ExpectedClose, OwnerId, PartnerOrgId}

  const FIXED_SET := [
    Coalesce(Name, 3), Coalesce(StageId, 4), Coalesce(Status, 5), Coalesce(LostReason, 6),
    Coalesce(AmountMinor, 7), Coalesce(Currency, 8), CloseStamp(5),
    Coalesce(FxRate, 9), Coalesce(FxDate, 10),
    Coalesce(ExpectedClose, 11), Coalesce(OwnerId, 12), Coalesce(PartnerOrgId, 13)]

  function NullStr(u: Fields, key: Col): Sql {
    if key in u && u[key].JString? then Text(u[key].s) else Null
  }

  function NullInt(u: Fields, key: Col): Sql {
    if key !in u then Null
    else match u[key]
      case JFloat(f) => Int(Trunc(f))
      case JInt(n) => Int(n)
      case _ => Null
  }

  function Get(row: Row, column: Col): Sql {
    if column in row then row[column] else Null
  }

  function Arg(args: seq<Sql>, n: nat): Sql {
    if 1 <= n <= |args| then args[n - 1] else Null
  }

  function ColumnOf(c: SetClause): Col {
    match c
    case Coalesce(column, _) => column
    case CloseStamp(_) => ClosedAt
    case Assign(column, _) => column
    case Touch => UpdatedAt
  }

  // A right-hand side sees the row as it was.
  function ValueOf(c: SetClause, args: seq<Sql>, row: Row, now: int): Sql {
    match c
    case Coalesce(column, a) => if Arg(args, a) != Null then Arg(args, a) else Get(row, column)
    case CloseStamp(a) => if Arg(args, a) in {Text("won"), Text("lost")} then Time(now) else Get(row, ClosedAt)
    case Assign(_, a) => Arg(args, a)
    case Touch => Time(now)
  }

  // The row after the SET list, applied on top of `onto`.
  function Apply(sets: seq<SetClause>, args: seq<Sql>, row: Row, onto: Row, now: int): Row {
    if sets == [] then onto
    else Apply(sets[1..], args, row, onto[ColumnOf(sets[0]) := ValueOf(sets[0], args, row, now)], now)
  }

  lemma {:induction false} ApplyAppend(a: seq<SetClause>, b: seq<SetClause>, args: seq<Sql>, row: Row, onto: Row,
      now: int)
    ensures Apply(a + b, args, row, onto, now) == Apply(b, args, row, Apply(a, args, row, onto, now), now)
    decreases |a|
  {
    if a == [] {
      assert a + b == b;
    } else {
      assert (a + b)[0] == a[0] && (a + b)[1..] == a[1..] + b;
      ApplyAppend(a[1..], b, args, row, onto[ColumnOf(a[0]) := ValueOf(a[0], args, row, now)], now);
    }
  }

  // ------------------------------------------------- what an update means

  // What a column is to be set to, if its key was supplied and fits.
  function Supplied(u: Fields, c: Column): Option<Sql> {
    if Custom(c.name) in u then SqlValue(c.fieldType, u[Custom(c.name)]) else None
  }

  // The value an active column is given: its own supplied one.
  function SuppliedFor(active: seq<Column>, u: Fields, column: Col): Option<Sql> {
    if active == [] then None
    else
      var last := active[|active| - 1];
      if Custom(last.name) == column && Supplied(u, last).Some? then Supplied(u, last)
      else SuppliedFor(active[..|active| - 1], u, column)
  }

  function Or(v: Sql, prior: Sql): Sql {
    if v != Null then v else prior
  }

  // The plain patch: what each column holds afterwards.
  function Patched(u: Fields, active: seq<Column>, fxRate: Sql, fxDate: Sql, row: Row, now: int, column: Col): Sql {
    if column == UpdatedAt then Time(now)
    else if SuppliedFor(active, u, column).Some? then SuppliedFor(active, u, column).value
    else if column in TEXT_COLUMNS then Or(NullStr(u, column), Get(row, column))
    else if column == AmountMinor then Or(NullInt(u, column), Get(row, column))
    else if column == ClosedAt then
      if Status in u && u[Status] in {JString("won"), JString("lost")} then Time(now) else Get(row, column)
    else if column == FxRate then Or(fxRate, Get(row, column))
    else if column == FxDate then Or(fxDate, Get(row, column))
    else Get(row, column)
  }

  // -------------------------------------------------------------- builders

  // One `col = $n` per active column supplied with a value that fits.
  ghost predicate CustomDone(u: Fields, active: seq<Column>, args: seq<Sql>, sets: seq<SetClause>, args': seq<Sql>) {
    && args <= args' && |args'| == |args| + |sets|
    && (forall i :: 0 <= i < |sets| ==> sets[i].Assign? && sets[i].arg == |args| + i + 1)
    && (forall more, row, onto, now, column ::
          Get(Apply(sets, args' + more, row, onto, now), column) ==
          if SuppliedFor(active, u, column).Some? then SuppliedFor(active, u, column).value else Get(onto, column))
    && (forall i :: 0 <= i < |sets| ==> IsNameOf(active, sets[i].column))
    && (NamesDistinct(active) ==> ColumnsDistinct(sets))
  }

  ghost predicate IsNameOf(active: seq<Column>, column: Col) {
    exists c :: c in active && column == Custom(c.name)
  }

  predicate NamesDistinct(active: seq<Column>) {
    forall i, j :: 0 <= i < j < |active| ==> active[i].name != active[j].name
  }

  // Postgres refuses a SET list that names a column twice.
  predicate ColumnsDistinct(sets: seq<SetClause>) {
    forall i, j :: 0 <= i < j < |sets| ==> ColumnOf(sets[i]) != ColumnOf(sets[j])
  }

  method DealUpdateCustomSet(u: Fields, active: seq<Column>, args: seq<Sql>, n: nat)
    returns (sets: seq<SetClause>, args': seq<Sql>, n': nat)
    requires n == |args|
    ensures n' == |args'| && CustomDone(u, active, args, sets, args')
  {
    sets, args', n' := [], args, n;
    for k := 0 to |active|
      invariant n' == |args'| && CustomDone(u, active[..k], args, sets, args')
    {
      sets, args', n' := SetColumn(u, active[..k], active[k], args, sets, args', n');
      TakeStep(active, k);
    }
    TakeAll(active);
  }

  // One more active column, after those in `done`.
  method SetColumn(u: Fields, ghost done: seq<Column>, c: Column, ghost args: seq<Sql>, sets: seq<SetClause>,
      bound: seq<Sql>, n: nat)
    returns (sets': seq<SetClause>, bound': seq<Sql>, n': nat)
    requires n == |bound| && CustomDone(u, done, args, sets, bound)
    ensures n' == |bound'| && CustomDone(u, done + [c], args, sets', bound')
  {
    CustomStep(u, done, c, args, sets, bound);
    sets', bound', n' := sets, bound, n;
    var val := Supplied(u, c);
    if val.Some? {
      n' := n' + 1;
      bound' := bound' + [val.value];
      sets' := sets' + [Assign(Custom(c.name), n')];
    }
  }

  lemma SuppliedForSnoc(active: seq<Column>, c: Column, u: Fields, column: Col)
    ensures SuppliedFor(active + [c], u, column)
      == if Custom(c.name) == column && Supplied(u, c).Some? then Supplied(u, c) else SuppliedFor(active, u, column)
  {
    assert (active + [c])[..|active|] == active;
  }

  lemma AssignLast(sets: seq<SetClause>, clause: SetClause, args: seq<Sql>, row: Row, onto: Row, now: int, column: Col)
    ensures Get(Apply(sets + [clause], args, row, onto, now), column)
      == if column == ColumnOf(clause) then ValueOf(clause, args, row, now)
        else Get(Apply(sets, args, row, onto, now), column)
  {
    ApplyAppend(sets, [clause], args, row, onto, now);
    assert [clause][1..] == [];
  }

  lemma CustomStep(u: Fields, active: seq<Column>, c: Column, args: seq<Sql>, sets: seq<SetClause>, args': seq<Sql>)
    requires CustomDone(u, active, args, sets, args')
    ensures match Supplied(u, c)
      case Some(val) => CustomDone(u, active + [c], args, sets + [Assign(Custom(c.name), |args'| + 1)], args' + [val])
      case None => CustomDone(u, active + [c], args, sets, args')
  {
    forall column
      ensures SuppliedFor(active + [c], u, column)
        == if Custom(c.name) == column && Supplied(u, c).Some? then Supplied(u, c) else SuppliedFor(active, u, column)
    {
      SuppliedForSnoc(active, c, u, column);
    }
    NamesPrefix(active, c);
    match Supplied(u, c)
    case None =>
    case Some(val) =>
      var clause := Assign(Custom(c.name), |args'| + 1);
      forall more, row, onto, now, column
        ensures Get(Apply(sets + [clause], args' + [val] + more, row, onto, now), column)
          == if SuppliedFor(active + [c], u, column).Some? then SuppliedFor(active + [c], u, column).value
            else Get(onto, column)
      {
        Reassociate(args', [val], more);
        AssignLast(sets, clause, args' + ([val] + more), row, onto, now, column);
      }
      ColumnsStep(active, c, sets, clause);
  }

  lemma NamesPrefix(active: seq<Column>, c: Column)
    ensures NamesDistinct(active + [c]) ==> NamesDistinct(active) && forall d :: d in active ==> d.name != c.name
  {
    if NamesDistinct(active + [c]) {
      forall d | d in active ensures d.name != c.name {
        var i :| 0 <= i < |active| && active[i] == d;
        assert (active + [c])[i] == d && (active + [c])[|active|] == c;
      }
      assert forall i :: 0 <= i < |active| ==> (active + [c])[i] == active[i];
    }
  }

  lemma ColumnsStep(active: seq<Column>, c: Column, sets: seq<SetClause>, clause: SetClause)
    requires forall i :: 0 <= i < |sets| ==> sets[i].Assign? && IsNameOf(active, sets[i].column)
    requires clause.Assign? && clause.column == Custom(c.name)
    ensures forall i :: 0 <= i <= |sets| ==>
      (sets + [clause])[i].Assign? && IsNameOf(active + [c], (sets + [clause])[i].column)
    ensures ColumnsDistinct(sets) && (forall d :: d in active ==> d.name != c.name) ==> ColumnsDistinct(sets + [clause])
  {
    forall i | 0 <= i < |sets| ensures IsNameOf(active + [c], sets[i].column) {
      assert IsNameOf(active, sets[i].column);
      var d :| d in active && sets[i].column == Custom(d.name);
      assert d in active + [c];
    }
    assert c in active + [c];
  }

  // In a SET list that names no column twice, a column holds its own
  // assignment's value, or what it held.
  lemma {:induction false} ApplyAt(sets: seq<SetClause>, i: nat, args: seq<Sql>, row: Row, onto: Row, now: int)
    requires i < |sets| && ColumnsDistinct(sets)
    ensures Get(Apply(sets, args, row, onto, now), ColumnOf(sets[i])) == ValueOf(sets[i], args, row, now)
    decreases |sets|
  {
    var onto' := onto[ColumnOf(sets[0]) := ValueOf(sets[0], args, row, now)];
    if i == 0 {
      ApplyOther(sets[1..], ColumnOf(sets[0]), args, row, onto', now);
    } else {
      ApplyAt(sets[1..], i - 1, args, row, onto', now);
    }
  }

  lemma {:induction false} ApplyOther(sets: seq<SetClause>, column: Col, args: seq<Sql>, row: Row, onto: Row, now: int)
    requires forall i :: 0 <= i < |sets| ==> ColumnOf(sets[i]) != column
    ensures Get(Apply(sets, args, row, onto, now), column) == Get(onto, column)
    decreases |sets|
  {
    if sets != [] {
      ApplyOther(sets[1..], column, args, row, onto[ColumnOf(sets[0]) := ValueOf(sets[0], args, row, now)], now);
    }
  }

  // The thirteen arguments the fixed part of the statement binds.
  function FixedArgs(id: string, workspaceId: string, u: Fields, fxRate: Sql, fxDate: Sql): seq<Sql> {
    [Text(id), Text(workspaceId),
     NullStr(u, Name), NullStr(u, StageId), NullStr(u, Status), NullStr(u, LostReason),
     NullInt(u, AmountMinor), NullStr(u, Currency), fxRate, fxDate,
     NullStr(u, ExpectedClose), NullStr(u, OwnerId), NullStr(u, PartnerOrgId)]
  }

  // Where the fixed SET list assigns a column; past its end if it does not.
  function FixedIndex(c: Col): (i: nat)
    ensures i < |FIXED_SET| ==> ColumnOf(FIXED_SET[i]) == c
  {
    match c
    case Name => 0 case StageId => 1 case Status => 2 case LostReason => 3 case AmountMinor => 4
    case Currency => 5 case ClosedAt => 6 case FxRate => 7 case FxDate => 8
    case ExpectedClose => 9 case OwnerId => 10 case PartnerOrgId => 11
    case _ => |FIXED_SET|
  }

  lemma FixedColumns()
    ensures ColumnsDistinct(FIXED_SET)
    ensures forall i :: 0 <= i < |FIXED_SET| ==> FixedIndex(ColumnOf(FIXED_SET[i])) == i
  {
  }

  lemma FixedValue(id: string, workspaceId: string, u: Fields, fxRate: Sql, fxDate: Sql, more: seq<Sql>, row: Row,
      now: int, column: Col)
    requires FixedIndex(column) < |FIXED_SET|
    ensures ValueOf(FIXED_SET[FixedIndex(column)], FixedArgs(id, workspaceId, u, fxRate, fxDate) + more, row, now)
      == Patched(u, [], fxRate, fxDate, row, now, column)
  {
  }

  lemma FixedPatch(id: string, workspaceId: string, u: Fields, fxRate: Sql, fxDate: Sql, more: seq<Sql>, row: Row,
      now: int, column: Col)
    requires column != UpdatedAt
    ensures Get(Apply(FIXED_SET, FixedArgs(id, workspaceId, u, fxRate, fxDate) + more, row, row, now), column)
      == Patched(u, [], fxRate, fxDate, row, now, column)
  {
    var args := FixedArgs(id, workspaceId, u, fxRate, fxDate) + more;
    var i := FixedIndex(column);
    FixedColumns();
    if i < |FIXED_SET| {
      ApplyAt(FIXED_SET, i, args, row, row, now);
      FixedValue(id, workspaceId, u, fxRate, fxDate, more, row, now, column);
    } else {
      ApplyOther(FIXED_SET, column, args, row, row, now);
    }
  }

  // applyUpdate's statement. For every row it changes exactly what the patch
  // says, names no column twice, and guards on the version through the last
  // argument alone.
  method BuildUpdate(id: string, workspaceId: string, u: Fields, active: seq<Column>, fxRate: Sql, fxDate: Sql,
      ifMatch: int)
    returns (s: Statement)
    ensures forall row, now, column ::
      Get(Apply(s.sets, s.args, row, row, now), column) == Patched(u, active, fxRate, fxDate, row, now, column)
    ensures NamesDistinct(active) ==> ColumnsDistinct(s.sets)
    ensures s.matchArg == |s.args| && Arg(s.args, s.matchArg) == Int(ifMatch)
    ensures Arg(s.args, 1) == Text(id) && Arg(s.args, 2) == Text(workspaceId)
  {
    var args := FixedArgs(id, workspaceId, u, fxRate, fxDate);
    var custom, args', n := DealUpdateCustomSet(u, active, args, |args|);
    s := Statement(FIXED_SET + custom + [Touch], args' + [Int(ifMatch)], n + 1);
    forall row, now, column
      ensures Get(Apply(s.sets, s.args, row, row, now), column) == Patched(u, active, fxRate, fxDate, row, now, column)
    {
      StatementPatches(id, workspaceId, u, active, fxRate, fxDate, custom, args', [Int(ifMatch)], row, now, column);
    }
    StatementColumns(custom);
  }

  lemma {:induction false} SuppliedIsCustom(active: seq<Column>, u: Fields, column: Col)
    requires SuppliedFor(active, u, column).Some?
    ensures column.Custom?
    decreases |active|
  {
    var last := active[|active| - 1];
    if !(Custom(last.name) == column && Supplied(u, last).Some?) {
      SuppliedIsCustom(active[..|active| - 1], u, column);
    }
  }

  lemma StatementPatches(
      id: string, workspaceId: string, u: Fields, active: seq<Column>, fxRate: Sql, fxDate: Sql,
      custom: seq<SetClause>, args': seq<Sql>, more: seq<Sql>, row: Row, now: int, column: Col)
    requires CustomDone(u, active, FixedArgs(id, workspaceId, u, fxRate, fxDate), custom, args')
    ensures Get(Apply(FIXED_SET + custom + [Touch], args' + more, row, row, now), column)
      == Patched(u, active, fxRate, fxDate, row, now, column)
  {
    var fixed := FixedArgs(id, workspaceId, u, fxRate, fxDate);
    var args := args' + more;
    var afterFixed := Apply(FIXED_SET, args, row, row, now);
    var afterCustom := Apply(custom, args, row, afterFixed, now);
    ApplyAppend(FIXED_SET + custom, [Touch], args, row, row, now);
    ApplyAppend(FIXED_SET, custom, args, row, row, now);
    ApplyTouch(args, row, afterCustom, now);
    if SuppliedFor(active, u, column).Some? {
      SuppliedIsCustom(active, u, column);
    }
    if column != UpdatedAt {
      SplitArgs(fixed, args', more);
      FixedPatch(id, workspaceId, u, fxRate, fxDate, args'[|fixed|..] + more, row, now, column);
    }
  }

  lemma ApplyTouch(args: seq<Sql>, row: Row, onto: Row, now: int)
    ensures Apply([Touch], args, row, onto, now) == onto[UpdatedAt := Time(now)]
  {
    assert [Touch][1..] == [];
  }

  lemma SplitArgs(fixed: seq<Sql>, args: seq<Sql>, more: seq<Sql>)
    requires fixed <= args
    ensures args + more == fixed + (args[|fixed|..] + more)
  {
  }

  lemma StatementColumns(custom: seq<SetClause>)
    requires forall i :: 0 <= i < |custom| ==> ColumnOf(custom[i]).Custom?
    ensures ColumnsDistinct(custom) ==> ColumnsDistinct(FIXED_SET + custom + [Touch])
  {
    FixedColumns();
    var all := FIXED_SET + custom + [Touch];
    forall i, j | 0 <= i < j < |all| && ColumnsDistinct(custom) ensures ColumnOf(all[i]) != ColumnOf(all[j]) {
      assert j < |FIXED_SET| || j == |all| - 1 || all[j] == custom[j - |FIXED_SET|];
      assert i < |FIXED_SET| || all[i] == custom[i - |FIXED_SET|];
    }
  }
}
