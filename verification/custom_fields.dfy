// create.go, options.go and lifecycle.go: the custom-field catalog of every
// workspace beside the physical columns all workspaces share.
module CustomFields {
  import opened Wrappers
  import opened CustomColumns
  import opened CustomFieldEngine
  import Strings

  datatype Status = Active | Retired

  // A catalog row. Only a picklist has options, only a currency field a code.
  datatype Field = Field(
    workspaceId: string, entity: Entity, slug: string, labelText: string, t: FieldType, status: Status,
    columnName: string, currency: Option<string>, options: seq<string>, createdBy: string, version: nat)

  datatype Physical = Physical(sqlType: SqlType, check: Option<Check>)

  type ColumnId = (string, string)  // table and column

  datatype Action = Created | Updated

  datatype Audit = Audit(action: Action, id: nat)

  // A catalog row's id is its position; no operation deletes one. stored holds
  // the distinct texts found in each custom column.
  datatype State = State(
    catalog: seq<Field>, columns: map<ColumnId, Physical>, stored: map<ColumnId, set<string>>, audit: seq<Audit>)

  datatype Error =
    | Invalid | Structural | Statement | NoWorkspace | ColumnExists | CheckViolated
    | NotFound | NotPicklist | LastOption | Database

  // fault: the catalog write or the audit write fails, after the ALTER.
  datatype Step =
    | Create(workspaceId: string, spec: FieldSpec, userId: string, fault: bool)
    | Rename(workspaceId: string, id: nat, labelText: string)
    | Retire(workspaceId: string, id: nat)
    | SetOptions(workspaceId: string, id: nat, options: seq<string>, fault: bool)
    | Store(column: ColumnId, value: string)  // a record is written elsewhere

  function KeyOf(f: Field): ColumnId {
    (TableName(f.entity), f.columnName)
  }

  predicate Allows(p: Physical, value: string) {
    p.check.Some? ==> value in p.check.value.allowed
  }

  predicate AllAllowed(values: set<string>, allowed: seq<string>) {
    forall v :: v in values ==> v in allowed
  }

  // What Postgres makes of a statement.
  function Alter(columns: map<ColumnId, Physical>, stored: map<ColumnId, set<string>>, ddl: Ddl)
    : Result<map<ColumnId, Physical>, Error>
  {
    match ddl
    case AddColumn(table, column, sqlType, check) =>
      if (table, column) in columns then Err(ColumnExists)
      else Ok(columns[(table, column) := Physical(sqlType, check)])
    case ReplaceCheck(table, column, check) =>
      if (table, column) !in columns then Err(Database)
      else if (table, column) in stored && !AllAllowed(stored[(table, column)], check.allowed) then Err(CheckViolated)
      else Ok(columns[(table, column) := columns[(table, column)].(check := Some(check))])
  }

  function NewField(workspaceId: string, spec: FieldSpec, userId: string): Field
    requires spec.fieldType.Known?
  {
    var slug := DeriveSlug(spec.labelText);
    Field(workspaceId, spec.entity, slug, spec.labelText, spec.fieldType.t, Active, ColumnName(slug),
          if spec.fieldType.t.CurrencyField? then Some(spec.currency) else None,
          if spec.fieldType.t.PicklistField? then spec.options else [], userId, 1)
  }

  // The columns after a Create's ALTER, or why it is refused.
  ghost function CreateAlter(s: State, workspaceId: string, spec: FieldSpec): Result<map<ColumnId, Physical>, Error> {
    if !IsValidSpec(spec) then Err(Invalid)
    else if IsStructural(spec.labelText) then Err(Structural)
    else match BuildDdl(TableName(spec.entity), ColumnName(DeriveSlug(spec.labelText)), spec)
      case Err(_) => Err(Statement)
      case Ok(ddl) => if workspaceId == "" then Err(NoWorkspace) else Alter(s.columns, s.stored, ddl)
  }

  predicate Visible(s: State, workspaceId: string, id: nat) {
    id < |s.catalog| && s.catalog[id].workspaceId == workspaceId
  }

  function OptionsAlter(s: State, workspaceId: string, id: nat, options: seq<string>)
    : Result<map<ColumnId, Physical>, Error>
  {
    if options == [] then Err(LastOption)
    else if workspaceId == "" then Err(NoWorkspace)
    else if !Visible(s, workspaceId, id) then Err(NotFound)
    else if s.catalog[id].t != PicklistField then Err(NotPicklist)
    else match BuildOptionsDdl(TableName(s.catalog[id].entity), s.catalog[id].columnName, options)
      case Err(_) => Err(Statement)
      case Ok(ddl) => Alter(s.columns, s.stored, ddl)
  }

  function Rewritten(s: State, id: nat, f: Field): State
    requires id < |s.catalog|
  {
    s.(catalog := s.catalog[id := f.(version := f.version + 1)], audit := s.audit + [Audit(Updated, id)])
  }

  // One call; a refused or failed call changes nothing.
  ghost function Next(s: State, step: Step): State {
    match step
    case Create(ws, spec, userId, fault) =>
      (match CreateAlter(s, ws, spec)
       case Ok(columns) =>
         if fault then s
         else s.(catalog := s.catalog + [NewField(ws, spec, userId)], columns := columns,
                 audit := s.audit + [Audit(Created, |s.catalog|)])
       case Err(_) => s)
    case Rename(ws, id, title) =>
      if IsBlank(title) || ws == "" || !Visible(s, ws, id) then s
      else Rewritten(s, id, s.catalog[id].(labelText := title))
    case Retire(ws, id) =>
      if ws == "" || !Visible(s, ws, id) then s else Rewritten(s, id, s.catalog[id].(status := Retired))
    case SetOptions(ws, id, options, fault) =>
      (match OptionsAlter(s, ws, id, options)
       case Ok(columns) =>
         if fault then s else Rewritten(s, id, s.catalog[id].(options := options)).(columns := columns)
       case Err(_) => s)
    case Store(column, value) =>
      if column in s.columns && Allows(s.columns[column], value)
      then s.(stored := s.stored[column := (if column in s.stored then s.stored[column] else {}) + {value}])
      else s
  }

  ghost function Run(s: State, steps: seq<Step>): State
    decreases |steps|
  {
    if steps == [] then s else Run(Next(s, steps[0]), steps[1..])
  }

  // -------------------------------------------------------------- invariant

  // The physical column a field must have.
  function ColumnFor(f: Field): Physical {
    Physical(SqlTypeOf(f.t), if f.t.PicklistField? then Some(Check(f.columnName + "_check", f.options)) else None)
  }

  predicate Built(columns: map<ColumnId, Physical>, f: Field) {
    KeyOf(f) in columns && columns[KeyOf(f)] == ColumnFor(f)
  }

  ghost predicate Legal(f: Field) {
    && !f.entity.Unsupported? && IsSlug(f.slug) && f.columnName == ColumnName(f.slug)
    && (f.t.PicklistField? <==> f.options != [])
  }

  ghost predicate AllBuilt(s: State) {
    forall i :: 0 <= i < |s.catalog| ==> Built(s.columns, s.catalog[i])
  }

  ghost predicate AllLegal(s: State) {
    forall i :: 0 <= i < |s.catalog| ==> Legal(s.catalog[i])
  }

  // Across all workspaces.
  ghost predicate ColumnsUnshared(s: State) {
    forall i, j :: 0 <= i < j < |s.catalog| ==> KeyOf(s.catalog[i]) != KeyOf(s.catalog[j])
  }

  ghost predicate Owned(s: State, c: ColumnId) {
    exists i :: 0 <= i < |s.catalog| && KeyOf(s.catalog[i]) == c
  }

  ghost predicate NoOrphans(s: State) {
    forall c :: c in s.columns ==> Owned(s, c)
  }

  ghost predicate StoredAllowed(s: State) {
    forall c :: c in s.stored ==> c in s.columns && forall v :: v in s.stored[c] ==> Allows(s.columns[c], v)
  }

  function Audits(audit: seq<Audit>, id: nat): nat {
    if audit == [] then 0
    else Audits(audit[..|audit| - 1], id) + (if audit[|audit| - 1].id == id then 1 else 0)
  }

  // Every accepted change left one audit row and one version.
  ghost predicate Audited(s: State) {
    forall id: nat :: Audits(s.audit, id) == if id < |s.catalog| then s.catalog[id].version else 0
  }

  ghost predicate Inv(s: State) {
    AllBuilt(s) && AllLegal(s) && ColumnsUnshared(s) && NoOrphans(s) && StoredAllowed(s) && Audited(s)
  }

  lemma CreateAlters(s: State, workspaceId: string, spec: FieldSpec, userId: string)
    requires CreateAlter(s, workspaceId, spec).Ok?
    ensures IsValidSpec(spec)
    ensures var f := NewField(workspaceId, spec, userId);
      && KeyOf(f) !in s.columns && CreateAlter(s, workspaceId, spec).value == s.columns[KeyOf(f) := ColumnFor(f)]
      && Legal(f)
  {
    ValidSpecBuilds(spec);
    DeriveSlugIsSlug(spec.labelText);
  }

  lemma OptionsAlters(s: State, workspaceId: string, id: nat, options: seq<string>)
    requires AllLegal(s) && OptionsAlter(s, workspaceId, id, options).Ok?
    ensures Visible(s, workspaceId, id) && options != [] && s.catalog[id].t == PicklistField
    ensures var f := s.catalog[id].(options := options);
      && Legal(f)
      && (Built(s.columns, s.catalog[id]) ==>
           OptionsAlter(s, workspaceId, id, options).value == s.columns[KeyOf(f) := ColumnFor(f)])
      && (KeyOf(f) in s.stored ==> AllAllowed(s.stored[KeyOf(f)], options))
  {
    var f := s.catalog[id];
    assert Legal(f);
    ColumnNamesLegal(f.slug);
    TablesLegal(f.entity);
  }

  lemma AuditSnoc(audit: seq<Audit>, a: Audit, id: nat)
    ensures Audits(audit + [a], id) == Audits(audit, id) + if a.id == id then 1 else 0
  {
    assert (audit + [a])[..|audit|] == audit;
  }

  // A field added with its column.
  function Added(s: State, f: Field): State {
    State(s.catalog + [f], s.columns[KeyOf(f) := ColumnFor(f)], s.stored, s.audit + [Audit(Created, |s.catalog|)])
  }

  lemma AddKeepsColumns(s: State, f: Field)
    requires AllBuilt(s) && NoOrphans(s) && StoredAllowed(s) && KeyOf(f) !in s.columns
    ensures AllBuilt(Added(s, f)) && NoOrphans(Added(s, f)) && StoredAllowed(Added(s, f))
  {
    var s' := Added(s, f);
    forall c | c in s'.columns ensures Owned(s', c) {
      if c == KeyOf(f) {
        assert s'.catalog[|s.catalog|] == f;
      } else {
        assert Owned(s, c);
        var i :| 0 <= i < |s.catalog| && KeyOf(s.catalog[i]) == c;
        assert s'.catalog[i] == s.catalog[i];
      }
    }
  }

  lemma AddKeepsCatalog(s: State, f: Field)
    requires AllBuilt(s) && AllLegal(s) && ColumnsUnshared(s) && Audited(s)
    requires KeyOf(f) !in s.columns && Legal(f) && f.version == 1
    ensures AllLegal(Added(s, f)) && ColumnsUnshared(Added(s, f)) && Audited(Added(s, f))
  {
    var s' := Added(s, f);
    forall i, j | 0 <= i < j < |s'.catalog| ensures KeyOf(s'.catalog[i]) != KeyOf(s'.catalog[j]) {
      assert Built(s.columns, s.catalog[i]);
    }
    forall id: nat ensures Audits(s'.audit, id) == if id < |s'.catalog| then s'.catalog[id].version else 0 {
      AuditSnoc(s.audit, Audit(Created, |s.catalog|), id);
    }
  }

  // A field rewritten in place, with its column.
  function Changed(s: State, id: nat, f: Field): State
    requires id < |s.catalog|
  {
    Rewritten(s, id, f).(columns := s.columns[KeyOf(f) := ColumnFor(f)])
  }

  lemma ChangeKeepsColumns(s: State, id: nat, f: Field)
    requires AllBuilt(s) && ColumnsUnshared(s) && NoOrphans(s) && StoredAllowed(s)
    requires id < |s.catalog| && KeyOf(f) == KeyOf(s.catalog[id])
    requires KeyOf(f) in s.stored ==> forall v :: v in s.stored[KeyOf(f)] ==> Allows(ColumnFor(f), v)
    ensures AllBuilt(Changed(s, id, f)) && NoOrphans(Changed(s, id, f)) && StoredAllowed(Changed(s, id, f))
  {
    var s' := Changed(s, id, f);
    assert Built(s.columns, s.catalog[id]);
    forall i | 0 <= i < |s'.catalog| ensures Built(s'.columns, s'.catalog[i]) {
      assert Built(s.columns, s.catalog[i]);
    }
    forall c | c in s'.columns ensures Owned(s', c) {
      assert Owned(s, c);
      var i :| 0 <= i < |s.catalog| && KeyOf(s.catalog[i]) == c;
      assert KeyOf(s'.catalog[i]) == c;
    }
  }

  lemma ChangeKeepsCatalog(s: State, id: nat, f: Field)
    requires AllLegal(s) && ColumnsUnshared(s) && Audited(s)
    requires id < |s.catalog| && KeyOf(f) == KeyOf(s.catalog[id]) && f.version == s.catalog[id].version && Legal(f)
    ensures AllLegal(Changed(s, id, f)) && ColumnsUnshared(Changed(s, id, f)) && Audited(Changed(s, id, f))
  {
    var s' := Changed(s, id, f);
    LegalVersion(f);
    forall i: nat ensures Audits(s'.audit, i) == if i < |s'.catalog| then s'.catalog[i].version else 0 {
      AuditSnoc(s.audit, Audit(Updated, id), i);
    }
  }

  lemma LegalVersion(f: Field)
    requires Legal(f)
    ensures Legal(f.(version := f.version + 1))
  {
  }

  lemma CreateKeepsInv(s: State, ws: string, spec: FieldSpec, userId: string)
    requires Inv(s) && CreateAlter(s, ws, spec).Ok?
    ensures Inv(Next(s, Create(ws, spec, userId, false)))
  {
    var f := NewField(ws, spec, userId);
    CreateAlters(s, ws, spec, userId);
    AddKeepsColumns(s, f);
    AddKeepsCatalog(s, f);
    assert Next(s, Create(ws, spec, userId, false)) == Added(s, f);
  }

  // A new label or status changes no column.
  lemma CatalogOnlyKeepsInv(s: State, id: nat, f: Field)
    requires Inv(s) && id < |s.catalog|
    requires f == s.catalog[id].(labelText := f.labelText, status := f.status)
    ensures Inv(Rewritten(s, id, f))
  {
    assert Built(s.columns, s.catalog[id]) && Legal(s.catalog[id]);
    assert s.columns == s.columns[KeyOf(f) := ColumnFor(f)];
    ChangeKeepsColumns(s, id, f);
    ChangeKeepsCatalog(s, id, f);
    assert Rewritten(s, id, f) == Changed(s, id, f);
  }

  lemma SetOptionsChanges(s: State, ws: string, id: nat, options: seq<string>)
    requires AllLegal(s) && AllBuilt(s) && OptionsAlter(s, ws, id, options).Ok?
    ensures Visible(s, ws, id) && options != [] && s.catalog[id].t == PicklistField
    ensures Next(s, SetOptions(ws, id, options, false)) == Changed(s, id, s.catalog[id].(options := options))
  {
    OptionsAlters(s, ws, id, options);
    assert Built(s.columns, s.catalog[id]);
  }

  lemma SetOptionsKeepsInv(s: State, ws: string, id: nat, options: seq<string>)
    requires Inv(s) && OptionsAlter(s, ws, id, options).Ok?
    ensures Inv(Next(s, SetOptions(ws, id, options, false)))
  {
    SetOptionsChanges(s, ws, id, options);
    OptionsAlters(s, ws, id, options);
    var f := s.catalog[id].(options := options);
    ChangeKeepsColumns(s, id, f);
    ChangeKeepsCatalog(s, id, f);
  }

  lemma StoreKeepsAllowed(s: State, c: ColumnId, value: string)
    requires StoredAllowed(s)
    ensures StoredAllowed(Next(s, Store(c, value)))
  {
  }

  lemma StoreKeepsInv(s: State, c: ColumnId, value: string)
    requires Inv(s)
    ensures Inv(Next(s, Store(c, value)))
  {
    var s' := Next(s, Store(c, value));
    StoreKeepsAllowed(s, c, value);
    forall k | k in s'.columns ensures Owned(s', k) {
      assert Owned(s, k);
      var i :| 0 <= i < |s.catalog| && KeyOf(s.catalog[i]) == k;
      assert s'.catalog[i] == s.catalog[i];
    }
  }

  lemma StepKeepsInv(s: State, step: Step)
    requires Inv(s)
    ensures Inv(Next(s, step))
  {
    match step {
      case Create(ws, spec, userId, fault) =>
        if CreateAlter(s, ws, spec).Ok? && !fault {
          CreateKeepsInv(s, ws, spec, userId);
        }
      case Rename(ws, id, title) =>
        if Visible(s, ws, id) {
          CatalogOnlyKeepsInv(s, id, s.catalog[id].(labelText := title));
        }
      case Retire(ws, id) =>
        if Visible(s, ws, id) {
          CatalogOnlyKeepsInv(s, id, s.catalog[id].(status := Retired));
        }
      case SetOptions(ws, id, options, fault) =>
        if OptionsAlter(s, ws, id, options).Ok? && !fault {
          SetOptionsKeepsInv(s, ws, id, options);
        }
      case Store(column, value) =>
        StoreKeepsInv(s, column, value);
    }
  }

  // Over every run: each field has its column of the mapped type, a picklist's
  // CHECK admits exactly its options, no two fields anywhere share a column,
  // no column lacks a field, and what is stored passes its CHECK.
  lemma {:induction false} RunKeepsInv(s: State, steps: seq<Step>)
    requires Inv(s)
    ensures Inv(Run(s, steps))
    decreases |steps|
  {
    if steps != [] {
      StepKeepsInv(s, steps[0]);
      RunKeepsInv(Next(s, steps[0]), steps[1..]);
    }
  }

  // From empty tables, one field at a time.
  lemma EveryFieldHasItsColumn(steps: seq<Step>, id: nat)
    requires id < |Run(State([], map[], map[], []), steps).catalog|
    ensures var s := Run(State([], map[], map[], []), steps); var f := s.catalog[id];
      && IsSlug(f.slug) && f.columnName == "cf_" + f.slug
      && KeyOf(f) in s.columns && s.columns[KeyOf(f)].sqlType == SqlTypeOf(f.t)
      && (f.t.PicklistField? <==> f.options != [])
      && (f.t.PicklistField? ==>
           s.columns[KeyOf(f)].check.Some? && s.columns[KeyOf(f)].check.value.allowed == f.options)
      && (!f.t.PicklistField? ==> s.columns[KeyOf(f)].check.None?)
      && (forall other :: 0 <= other < |s.catalog| && other != id ==> KeyOf(s.catalog[other]) != KeyOf(f))
  {
    var empty := State([], map[], map[], []);
    assert Inv(empty);
    RunKeepsInv(empty, steps);
    var s := Run(empty, steps);
    assert Built(s.columns, s.catalog[id]) && Legal(s.catalog[id]);
  }

  // Neither a column nor a field ever goes away, a column keeps its type, and
  // a field its place, its type and its column; a retired one stays retired.
  lemma {:induction false} NothingDisappears(s: State, steps: seq<Step>, c: ColumnId, id: nat)
    requires Inv(s) && c in s.columns && id < |s.catalog|
    ensures var s' := Run(s, steps);
      && c in s'.columns && s'.columns[c].sqlType == s.columns[c].sqlType
      && id < |s'.catalog|
      && KeyOf(s'.catalog[id]) == KeyOf(s.catalog[id]) && s'.catalog[id].t == s.catalog[id].t
      && s'.catalog[id].workspaceId == s.catalog[id].workspaceId
      && (s.catalog[id].status == Retired ==> s'.catalog[id].status == Retired)
    decreases |steps|
  {
    if steps != [] {
      StepKeepsInv(s, steps[0]);
      StepKeepsColumns(s, steps[0], c, id);
      NothingDisappears(Next(s, steps[0]), steps[1..], c, id);
    }
  }

  lemma StepKeepsColumns(s: State, step: Step, c: ColumnId, id: nat)
    requires Inv(s) && c in s.columns && id < |s.catalog|
    ensures var s' := Next(s, step);
      && c in s'.columns && s'.columns[c].sqlType == s.columns[c].sqlType
      && id < |s'.catalog|
      && KeyOf(s'.catalog[id]) == KeyOf(s.catalog[id]) && s'.catalog[id].t == s.catalog[id].t
      && s'.catalog[id].workspaceId == s.catalog[id].workspaceId
      && (s.catalog[id].status == Retired ==> s'.catalog[id].status == Retired)
  {
    match step {
      case Create(ws, spec, userId, fault) =>
        if CreateAlter(s, ws, spec).Ok? {
          CreateAlters(s, ws, spec, userId);
        }
      case SetOptions(ws, n, options, fault) =>
        SetOptionsKeepsColumns(s, ws, n, options, fault, c, id);
      case _ =>
    }
  }

  lemma SetOptionsKeepsColumns(s: State, ws: string, n: nat, options: seq<string>, fault: bool, c: ColumnId, id: nat)
    requires Inv(s) && c in s.columns && id < |s.catalog|
    ensures var s' := Next(s, SetOptions(ws, n, options, fault));
      && c in s'.columns && s'.columns[c].sqlType == s.columns[c].sqlType
      && id < |s'.catalog|
      && s'.catalog[id] == s.catalog[id].(options := s'.catalog[id].options, version := s'.catalog[id].version)
  {
    if OptionsAlter(s, ws, n, options).Ok? {
      OptionsAlters(s, ws, n, options);
      assert Built(s.columns, s.catalog[n]);
    }
  }

  // A valid, scalar label is refused only because some workspace already has
  // that column.
  lemma CreateSucceedsIff(s: State, ws: string, spec: FieldSpec)
    requires Inv(s) && IsValidSpec(spec) && !IsStructural(spec.labelText) && ws != ""
    ensures CreateAlter(s, ws, spec).Ok?
      <==> forall i :: 0 <= i < |s.catalog| ==>
             !(s.catalog[i].entity == spec.entity && s.catalog[i].slug == DeriveSlug(spec.labelText))
  {
    ValidSpecBuilds(spec);
    var slug := DeriveSlug(spec.labelText);
    var c := (TableName(spec.entity), ColumnName(slug));
    if c in s.columns {
      var i :| 0 <= i < |s.catalog| && KeyOf(s.catalog[i]) == c;
      SameColumn(s, i, spec.entity, slug);
    } else {
      forall i | 0 <= i < |s.catalog| ensures !(s.catalog[i].entity == spec.entity && s.catalog[i].slug == slug) {
        assert Built(s.columns, s.catalog[i]) && Legal(s.catalog[i]);
      }
    }
  }

  // A field created carries what was asked for under the slug of its label, and
  // comes with its column and one audit row; a fault after the ALTER, like a
  // refusal, leaves nothing.
  lemma CreateOutcome(s: State, ws: string, spec: FieldSpec, userId: string, fault: bool)
    ensures var s', slug := Next(s, Create(ws, spec, userId, fault)), DeriveSlug(spec.labelText);
      if !fault && CreateAlter(s, ws, spec).Ok?
      then
        && spec.fieldType.Known?
        && var t := spec.fieldType.t;
        && s'.catalog == s.catalog + [
             Field(ws, spec.entity, slug, spec.labelText, t, Active, "cf_" + slug,
                   if t == CurrencyField then Some(spec.currency) else None,
                   if t == PicklistField then spec.options else [], userId, 1)]
        && s'.columns.Keys == s.columns.Keys + {(TableName(spec.entity), "cf_" + slug)}
        && s'.audit == s.audit + [Audit(Created, |s.catalog|)] && s'.stored == s.stored
      else s' == s
    ensures !IsValidSpec(spec) || IsStructural(spec.labelText) || ws == "" ==> CreateAlter(s, ws, spec).Err?
  {
    if CreateAlter(s, ws, spec).Ok? {
      CreateAlters(s, ws, spec, userId);
    }
  }

  // A workspace renames or retires its own fields only; a rename needs a label
  // that is not blank. Nothing but the label, or the status, changes.
  lemma RenameAndRetire(s: State, ws: string, id: nat, labelText: string)
    ensures var own := id < |s.catalog| && ws != "" && s.catalog[id].workspaceId == ws;
      && Next(s, Rename(ws, id, labelText)) ==
           (if own && exists c :: c in labelText && !Strings.IsSpace(c)
            then
              var f := s.catalog[id].(labelText := labelText, version := s.catalog[id].version + 1);
              s.(catalog := s.catalog[id := f], audit := s.audit + [Audit(Updated, id)])
            else s)
      && Next(s, Retire(ws, id)) ==
           (if own
            then
              var f := s.catalog[id].(status := Retired, version := s.catalog[id].version + 1);
              s.(catalog := s.catalog[id := f], audit := s.audit + [Audit(Updated, id)])
            else s)
  {
  }

  // Options are set on a workspace's own picklist, to a list that is not empty
  // and holds every value already stored in the column, whoever stored it. Then
  // the CHECK and the catalog change together.
  lemma SetOptionsSucceedsIff(s: State, ws: string, id: nat, options: seq<string>)
    requires Inv(s)
    ensures OptionsAlter(s, ws, id, options).Ok? <==>
      && options != [] && ws != ""
      && id < |s.catalog| && s.catalog[id].workspaceId == ws && s.catalog[id].t == PicklistField
      && var c := (TableName(s.catalog[id].entity), s.catalog[id].columnName);
         forall v :: c in s.stored && v in s.stored[c] ==> v in options
    ensures var s' := Next(s, SetOptions(ws, id, options, false));
      if OptionsAlter(s, ws, id, options).Ok?
      then
        && var f := s.catalog[id]; var c := (TableName(f.entity), f.columnName);
        && c in s.columns
        && s'.catalog == s.catalog[id := f.(options := options, version := f.version + 1)]
        && s'.columns == s.columns[c := s.columns[c].(check := Some(Check(f.columnName + "_check", options)))]
        && s'.audit == s.audit + [Audit(Updated, id)] && s'.stored == s.stored
      else s' == s
    ensures Next(s, SetOptions(ws, id, options, true)) == s
  {
    if id < |s.catalog| {
      var f := s.catalog[id];
      assert Built(s.columns, f) && Legal(f);
      ColumnNamesLegal(f.slug);
      TablesLegal(f.entity);
    }
  }

  // A value reaches a column only if the column is there and its CHECK, if any,
  // lists the value; it stays there.
  lemma StoreOutcome(s: State, c: ColumnId, value: string)
    ensures var s' := Next(s, Store(c, value));
      if c in s.columns && (s.columns[c].check.Some? ==> value in s.columns[c].check.value.allowed)
      then
        && c in s'.stored && s'.stored == s.stored[c := s'.stored[c]]
        && s'.stored[c] == (if c in s.stored then s.stored[c] else {}) + {value}
        && s' == s.(stored := s'.stored)
      else s' == s
  {
  }

  lemma SameColumn(s: State, i: nat, entity: Entity, slug: string)
    requires i < |s.catalog| && Legal(s.catalog[i]) && !entity.Unsupported?
    requires KeyOf(s.catalog[i]) == (TableName(entity), ColumnName(slug))
    ensures s.catalog[i].entity == entity && s.catalog[i].slug == slug
  {
    assert ColumnName(slug)[3..] == slug && ColumnName(s.catalog[i].slug)[3..] == s.catalog[i].slug;
    TableNamesDiffer(s.catalog[i].entity, entity);
  }

  lemma TableNamesDiffer(a: Entity, b: Entity)
    requires !a.Unsupported? && !b.Unsupported? && TableName(a) == TableName(b)
    ensures a == b
  {
  }

  // -------------------------------------------------------------- the store

  class FieldStore {
    var catalog: seq<Field>
    var columns: map<ColumnId, Physical>
    var audit: seq<Audit>
    var stored: map<ColumnId, set<string>>

    constructor ()
      ensures Now() == State([], map[], map[], [])
    {
      catalog, columns, stored, audit := [], map[], map[], [];
    }

    ghost function Now(): State
      reads this
    {
      State(catalog, columns, stored, audit)
    }

    // The ALTER, the catalog row and the audit row land together or not at all.
    method Create(workspaceId: string, spec: FieldSpec, userId: string, fault: bool) returns (r: Result<nat, Error>)
      modifies this
      ensures Now() == Next(old(Now()), Step.Create(workspaceId, spec, userId, fault))
      ensures r == match CreateAlter(old(Now()), workspaceId, spec)
                   case Err(e) => Err(e)
                   case Ok(_) => if fault then Err(Database) else Ok(|old(catalog)|)
    {
      var errs := Validate(spec);
      NoViolationIffValid(spec);
      if |errs| > 0 {
        return Err(Invalid);
      }
      if IsStructural(spec.labelText) {
        return Err(Structural);
      }
      var slug := DeriveSlug(spec.labelText);
      var columnName := ColumnName(slug);
      var ddl := BuildDdl(TableName(spec.entity), columnName, spec);
      if ddl.Err? {
        return Err(Statement);
      }
      if workspaceId == "" {
        return Err(NoWorkspace);
      }
      var altered := Alter(columns, stored, ddl.value);
      if altered.Err? {
        return Err(altered.error);
      }
      if fault {
        return Err(Database);  // rolled back
      }
      var currency := if spec.fieldType.t.CurrencyField? then Some(spec.currency) else None;
      var options := if spec.fieldType.t.PicklistField? then spec.options else [];
      var id := |catalog|;
      columns := altered.value;
      catalog := catalog + [Field(workspaceId, spec.entity, slug, spec.labelText, spec.fieldType.t, Active,
                                  columnName, currency, options, userId, 1)];
      audit := audit + [Audit(Created, id)];
      return Ok(id);
    }

    method Rename(workspaceId: string, id: nat, labelText: string) returns (r: Result<Field, Error>)
      modifies this
      ensures Now() == Next(old(Now()), Step.Rename(workspaceId, id, labelText))
      ensures r == if IsBlank(labelText) then Err(Invalid)
                   else if workspaceId == "" then Err(NoWorkspace)
                   else if !Visible(old(Now()), workspaceId, id) then Err(NotFound)
                   else Ok(catalog[id])
    {
      if IsBlank(labelText) {
        return Err(Invalid);
      }
      if workspaceId == "" {
        return Err(NoWorkspace);
      }
      if id >= |catalog| || catalog[id].workspaceId != workspaceId {
        return Err(NotFound);
      }
      catalog := catalog[id := catalog[id].(labelText := labelText, version := catalog[id].version + 1)];
      audit := audit + [Audit(Updated, id)];
      return Ok(catalog[id]);
    }

    method Retire(workspaceId: string, id: nat) returns (r: Result<Field, Error>)
      modifies this
      ensures Now() == Next(old(Now()), Step.Retire(workspaceId, id))
      ensures r == if workspaceId == "" then Err(NoWorkspace)
                   else if !Visible(old(Now()), workspaceId, id) then Err(NotFound)
                   else Ok(catalog[id])
    {
      if workspaceId == "" {
        return Err(NoWorkspace);
      }
      if id >= |catalog| || catalog[id].workspaceId != workspaceId {
        return Err(NotFound);
      }
      catalog := catalog[id := catalog[id].(status := Retired, version := catalog[id].version + 1)];
      audit := audit + [Audit(Updated, id)];
      return Ok(catalog[id]);
    }

    method SetOptions(workspaceId: string, id: nat, options: seq<string>, fault: bool) returns (r: Result<Field, Error>)
      modifies this
      ensures Now() == Next(old(Now()), Step.SetOptions(workspaceId, id, options, fault))
      ensures r == match OptionsAlter(old(Now()), workspaceId, id, options)
                   case Err(e) => Err(e)
                   case Ok(_) => if fault then Err(Database) else Ok(catalog[id])
    {
      if |options| == 0 {
        return Err(LastOption);
      }
      if workspaceId == "" {
        return Err(NoWorkspace);
      }
      if id >= |catalog| || catalog[id].workspaceId != workspaceId {
        return Err(NotFound);
      }
      var field := catalog[id];
      if field.t != PicklistField {
        return Err(NotPicklist);
      }
      var ddl := BuildOptionsDdl(TableName(field.entity), field.columnName, options);
      if ddl.Err? {
        return Err(Statement);
      }
      var altered := Alter(columns, stored, ddl.value);
      if altered.Err? {
        return Err(altered.error);
      }
      if fault {
        return Err(Database);  // rolled back
      }
      columns := altered.value;
      catalog := catalog[id := field.(options := options, version := field.version + 1)];
      audit := audit + [Audit(Updated, id)];
      return Ok(catalog[id]);
    }
  }
}
