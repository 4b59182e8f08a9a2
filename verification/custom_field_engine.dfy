// engine.go: validation, slug derivation and the statements that add or change
// a custom column.
module CustomFieldEngine {
  import opened Wrappers
  import opened CustomColumns
  import opened Sequences
  import opened Strings
  import Text

  // The closed object and type sets, and every other name a request may carry.
  datatype Entity = Person | Organization | Deal | Lead | Activity | Unsupported(name: string)

  datatype TypeName = Known(t: FieldType) | Unknown(name: string)

  datatype FieldSpec = FieldSpec(
    entity: Entity, labelText: string, fieldType: TypeName, currency: string, options: seq<string>,
    source: string, capturedBy: string)

  // A field and the code it is reported with.
  datatype FieldError =
    | ObjectUnsupported | TypeUnsupported | LabelRequired | CurrencyRequired | OptionsRequired
    | SourceRequired | CapturedByRequired

  function TableName(e: Entity): string {
    match e
    case Person => "person"
    case Organization => "organization"
    case Deal => "deal"
    case Lead => "lead"
    case Activity => "activity"
    case Unsupported(name) => name
  }

  // ------------------------------------------------------------ validation

  predicate IsCurrencyCode(s: string) {
    |s| == 3 && forall i :: 0 <= i < 3 ==> 'A' <= s[i] <= 'Z'
  }

  // Nothing but white space.
  predicate IsBlank(s: string) {
    forall c :: c in s ==> IsSpace(c)
  }

  lemma BlankIff(s: string)
    ensures TrimSpace(s) == "" <==> IsBlank(s)
  {
    TrimEmptyIff(s, IsSpace);
  }

  // Three capital letters.
  lemma CurrencyCodeIff(s: string)
    ensures IsCurrencyCode(s) <==> |s| == 3 && forall c :: c in s ==> 65 <= c as int <= 90
  {
    if IsCurrencyCode(s) {
      assert s == [s[0], s[1], s[2]];
    }
    assert |s| == 3 ==> s[0] in s && s[1] in s && s[2] in s;
  }

  predicate IsValidSpec(spec: FieldSpec) {
    && !spec.entity.Unsupported?
    && spec.fieldType.Known?
    && !IsBlank(spec.labelText) && !IsBlank(spec.source) && !IsBlank(spec.capturedBy)
    && (spec.fieldType == Known(CurrencyField) ==> IsCurrencyCode(spec.currency))
    && (spec.fieldType == Known(PicklistField) ==> spec.options != [])
  }

  // What each error means.
  predicate AtFault(spec: FieldSpec, e: FieldError) {
    match e
    case ObjectUnsupported => spec.entity.Unsupported?
    case TypeUnsupported => spec.fieldType.Unknown?
    case LabelRequired => IsBlank(spec.labelText)
    case CurrencyRequired => spec.fieldType == Known(CurrencyField) && !IsCurrencyCode(spec.currency)
    case OptionsRequired => spec.fieldType == Known(PicklistField) && spec.options == []
    case SourceRequired => IsBlank(spec.source)
    case CapturedByRequired => IsBlank(spec.capturedBy)
  }

  // The errors in the order they are checked for.
  function Checked(k: nat): FieldError {
    if k == 0 then ObjectUnsupported
    else if k == 1 then TypeUnsupported
    else if k == 2 then LabelRequired
    else if k == 3 then CurrencyRequired
    else if k == 4 then OptionsRequired
    else if k == 5 then SourceRequired
    else CapturedByRequired
  }

  // Every error at fault among the first k, in order.
  ghost function Violations(spec: FieldSpec, k: nat): seq<FieldError> {
    if k == 0 then []
    else Violations(spec, k - 1) + if AtFault(spec, Checked(k - 1)) then [Checked(k - 1)] else []
  }

  function Position(e: FieldError): (k: nat)
    ensures k < 7 && Checked(k) == e
  {
    match e
    case ObjectUnsupported => 0 case TypeUnsupported => 1 case LabelRequired => 2 case CurrencyRequired => 3
    case OptionsRequired => 4 case SourceRequired => 5 case CapturedByRequired => 6
  }

  lemma {:induction false} ViolationsAre(spec: FieldSpec, k: nat, e: FieldError)
    requires k <= 7
    ensures e in Violations(spec, k) <==> AtFault(spec, e) && Position(e) < k
  {
    if k > 0 {
      ViolationsAre(spec, k - 1, e);
      CheckedAt(k - 1);
    }
  }

  lemma CheckedAt(k: nat)
    requires k < 7
    ensures Position(Checked(k)) == k
  {
  }

  // The seven checks together report exactly what is at fault.
  lemma ViolationsComplete(spec: FieldSpec, e: FieldError)
    ensures e in Violations(spec, 7) <==> AtFault(spec, e)
  {
    ViolationsAre(spec, 7, e);
  }

  lemma NoViolationIffValid(spec: FieldSpec)
    ensures Violations(spec, 7) == [] <==> IsValidSpec(spec)
  {
    if Violations(spec, 7) == [] {
      ViolationsComplete(spec, ObjectUnsupported);
      ViolationsComplete(spec, TypeUnsupported);
      ViolationsComplete(spec, LabelRequired);
      ViolationsComplete(spec, CurrencyRequired);
      ViolationsComplete(spec, OptionsRequired);
      ViolationsComplete(spec, SourceRequired);
      ViolationsComplete(spec, CapturedByRequired);
    } else {
      HeadIsIn(Violations(spec, 7));
      ViolationsComplete(spec, Violations(spec, 7)[0]);
    }
  }

  // One check: `if fault { errs = append(errs, e) }`.
  method Note(spec: FieldSpec, errs: seq<FieldError>, k: nat, fault: bool) returns (errs': seq<FieldError>)
    requires errs == Violations(spec, k) && fault == AtFault(spec, Checked(k))
    ensures errs' == Violations(spec, k + 1)
  {
    errs' := errs;
    if fault {
      errs' := errs' + [Checked(k)];
    }
  }

  // Every violation, not just the first.
  method Validate(spec: FieldSpec) returns (errs: seq<FieldError>)
    ensures errs == Violations(spec, 7)
  {
    errs := Note(spec, [], 0, spec.entity.Unsupported?);
    errs := Note(spec, errs, 1, spec.fieldType.Unknown?);
    BlankIff(spec.labelText);
    errs := Note(spec, errs, 2, TrimSpace(spec.labelText) == "");
    errs := Note(spec, errs, 3, spec.fieldType == Known(CurrencyField) && !IsCurrencyCode(spec.currency));
    errs := Note(spec, errs, 4, spec.fieldType == Known(PicklistField) && |spec.options| == 0);
    BlankIff(spec.source);
    errs := Note(spec, errs, 5, TrimSpace(spec.source) == "");
    BlankIff(spec.capturedBy);
    errs := Note(spec, errs, 6, TrimSpace(spec.capturedBy) == "");
  }

  // ----------------------------------------------------------------- slugs

  const MAX_SLUG_LEN := 40

  predicate IsAlnum(c: char) {
    'a' <= c <= 'z' || '0' <= c <= '9'
  }

  lemma AlnumIff(c: char)
    ensures IsAlnum(c) <==> 97 <= c as int <= 122 || 48 <= c as int <= 57
  {
  }

  predicate IsUnderscore(c: char) {
    c == '_'
  }

  // Lower case, as far as it yields a letter a to z. Besides A to Z, the
  // dotted capital I and the Kelvin sign do.
  function Lower(c: char): char {
    if 'A' <= c <= 'Z' then (c as int + 32) as char
    else if c == '\U{0130}' then 'i'
    else if c == '\U{212A}' then 'k'
    else c
  }

  lemma LowerIs(c: char)
    ensures 65 <= c as int <= 90 ==> Lower(c) as int == c as int + 32
    ensures c as int == 0x130 ==> Lower(c) as int == 105
    ensures c as int == 0x212A ==> Lower(c) as int == 107
    ensures !(65 <= c as int <= 90) && c as int != 0x130 && c as int != 0x212A ==> Lower(c) == c
  {
  }

  function ToLower(s: string): (r: string)
    ensures |r| == |s| && forall i :: 0 <= i < |s| ==> r[i] == Lower(s[i])
  {
    if s == "" then "" else [Lower(s[0])] + ToLower(s[1..])
  }

  // Every run of other characters becomes one underscore.
  function Collapse(s: string, inRun: bool): string {
    if s == "" then ""
    else if IsAlnum(s[0]) then [s[0]] + Collapse(s[1..], false)
    else if inRun then Collapse(s[1..], true)
    else "_" + Collapse(s[1..], true)
  }

  function DeriveSlug(labelText: string): string {
    var s := Trim(Collapse(ToLower(TrimSpace(labelText)), false), IsUnderscore);
    Capped(if s == "" then "field" else s)
  }

  function Capped(s: string): string {
    if |s| > MAX_SLUG_LEN then Trim(s[..MAX_SLUG_LEN], IsUnderscore) else s
  }

  function ColumnName(slug: string): string {
    "cf_" + slug
  }

  // Letters and digits, with single underscores only between them.
  ghost predicate IsSpaced(s: string) {
    && (forall i :: 0 <= i < |s| ==> IsAlnum(s[i]) || s[i] == '_')
    && (forall i, j :: 0 <= i < j < |s| && j == i + 1 ==> s[i] != '_' || s[j] != '_')
  }

  ghost predicate IsSlug(s: string) {
    0 < |s| <= MAX_SLUG_LEN && IsSpaced(s) && s[0] != '_' && s[|s| - 1] != '_'
  }

  lemma {:induction false} CollapseSpaced(s: string, inRun: bool)
    ensures IsSpaced(Collapse(s, inRun))
    ensures inRun && Collapse(s, inRun) != "" ==> Collapse(s, inRun)[0] != '_'
  {
    if s != "" {
      CollapseSpaced(s[1..], !IsAlnum(s[0]));
    }
  }

  lemma {:induction false} CollapseKeeps(s: string, inRun: bool)
    requires IsSpaced(s) && (inRun && s != "" ==> s[0] != '_')
    ensures Collapse(s, inRun) == s
  {
    if s != "" {
      CollapseKeeps(s[1..], !IsAlnum(s[0]));
      assert s == [s[0]] + s[1..];
    }
  }

  lemma {:induction false} LowerKeeps(s: string)
    requires IsSpaced(s)
    ensures ToLower(s) == s
  {
    assert forall i :: 0 <= i < |s| ==> Lower(s[i]) == s[i];
  }

  lemma PartSpaced(s: string, i: nat, j: nat)
    requires IsSpaced(s) && i <= j <= |s|
    ensures IsSpaced(s[i..j])
  {
    var part := s[i..j];
    forall k | 0 <= k < |part| ensures IsAlnum(part[k]) || part[k] == '_' {
      assert part[k] == s[i + k];
    }
    forall k, l | 0 <= k < l < |part| && l == k + 1 ensures part[k] != '_' || part[l] != '_' {
      assert part[k] == s[i + k] && part[l] == s[i + l];
    }
  }

  lemma TrimSpaced(s: string)
    requires IsSpaced(s)
    ensures var r := Trim(s, IsUnderscore);
      && IsSpaced(r) && |r| <= |s|
      && (r == "" || (r[0] != '_' && r[|r| - 1] != '_'))
      && (s != "" && s[0] != '_' ==> r != "")
  {
    var i, j := TrimIs(s, IsUnderscore);
    PartSpaced(s, i, j);
  }

  lemma CappedIsSlug(s: string)
    requires IsSpaced(s) && s != "" && s[0] != '_' && s[|s| - 1] != '_'
    ensures IsSlug(Capped(s))
  {
    if |s| > MAX_SLUG_LEN {
      PartSpaced(s, 0, MAX_SLUG_LEN);
      assert s[0..MAX_SLUG_LEN] == s[..MAX_SLUG_LEN];
      TrimSpaced(s[..MAX_SLUG_LEN]);
    }
  }

  // Every label gives a slug, and the slugs are exactly the labels left as
  // they are.
  lemma DeriveSlugIsSlug(labelText: string)
    ensures IsSlug(DeriveSlug(labelText))
  {
    var collapsed := Collapse(ToLower(TrimSpace(labelText)), false);
    CollapseSpaced(ToLower(TrimSpace(labelText)), false);
    TrimSpaced(collapsed);
    FieldIsSpaced();
    CappedIsSlug(if Trim(collapsed, IsUnderscore) == "" then "field" else Trim(collapsed, IsUnderscore));
  }

  // The unbroken runs of letters and digits.
  function Words(s: string): (r: seq<string>)
    ensures s != "" && IsAlnum(s[0]) ==> r != []
  {
    if s == "" then []
    else
      var rest := Words(s[1..]);
      if !IsAlnum(s[0]) then rest
      else if |s| > 1 && IsAlnum(s[1]) then [[s[0]] + rest[0]] + rest[1..]
      else [[s[0]]] + rest
  }

  lemma {:induction false} WordsNotEmpty(s: string)
    ensures forall w :: w in Words(s) ==> w != ""
  {
    if s != "" {
      WordsNotEmpty(s[1..]);
      var rest := Words(s[1..]);
      if IsAlnum(s[0]) && |s| > 1 && IsAlnum(s[1]) {
        forall w | w in [[s[0]] + rest[0]] + rest[1..] ensures w != "" {
          assert w == [s[0]] + rest[0] || w in rest;
        }
      }
    }
  }

  function Joined(words: seq<string>): string {
    if words == [] then "" else Text.Join(words, '_')
  }

  lemma JoinedCons(c: char, words: seq<string>)
    ensures words != [] ==> Joined([[c] + words[0]] + words[1..]) == [c] + Joined(words)
    ensures words != [] ==> Joined([[c]] + words) == [c] + "_" + Joined(words)
    ensures Joined([[c]]) == [c]
  {
    if words != [] {
      var first := [[c] + words[0]] + words[1..];
      assert first[1..] == words[1..] && ([[c]] + words)[1..] == words;
      if |words| > 1 {
        var rest := Text.Join(words[1..], '_');
        assert [c] + words[0] + ['_'] + rest == [c] + (words[0] + ['_'] + rest);
      }
    }
  }

  lemma {:induction false} JoinedIsEmpty(words: seq<string>)
    requires forall w :: w in words ==> w != ""
    ensures Joined(words) == "" <==> words == []
  {
    if words != [] {
      assert words[0] in words;
    }
  }

  lemma {:induction false} TrimRightCons(c: char, s: string)
    ensures TrimRight([c] + s, IsUnderscore) ==
      if TrimRight(s, IsUnderscore) == "" && c == '_' then "" else [c] + TrimRight(s, IsUnderscore)
    decreases |s|
  {
    if s == "" {
      assert [c] + s == [c] && [c][..0] == "";
    } else if IsUnderscore(s[|s| - 1]) {
      assert ([c] + s)[..|s|] == [c] + s[..|s| - 1];
      TrimRightCons(c, s[..|s| - 1]);
    }
  }

  lemma WordGrows(s: string, collapsed: string)
    requires s != "" && IsAlnum(s[0])
    requires TrimRight(collapsed, IsUnderscore) ==
      (if s[1..] == "" || IsAlnum(s[1]) || Words(s[1..]) == [] then "" else "_") + Joined(Words(s[1..]))
    ensures TrimRight([s[0]] + collapsed, IsUnderscore) == Joined(Words(s))
  {
    TrimRightCons(s[0], collapsed);
    JoinedCons(s[0], Words(s[1..]));
  }

  lemma GapBefore(s: string, collapsed: string)
    requires s != "" && !IsAlnum(s[0]) && TrimRight(collapsed, IsUnderscore) == Joined(Words(s[1..]))
    ensures TrimRight("_" + collapsed, IsUnderscore) == (if Words(s) == [] then "" else "_") + Joined(Words(s))
  {
    WordsNotEmpty(s[1..]);
    JoinedIsEmpty(Words(s[1..]));
    TrimRightCons('_', collapsed);
  }

  // Up to underscores at its end, the collapsed text is the words with an
  // underscore between them, and one in front if the text opens with a gap.
  lemma {:induction false} CollapsedWords(s: string, inRun: bool)
    ensures TrimRight(Collapse(s, inRun), IsUnderscore) ==
      (if inRun || s == "" || IsAlnum(s[0]) || Words(s) == [] then "" else "_") + Joined(Words(s))
    decreases |s|
  {
    if s != "" {
      if IsAlnum(s[0]) {
        CollapsedWords(s[1..], false);
        WordGrows(s, Collapse(s[1..], false));
      } else {
        CollapsedWords(s[1..], true);
        GapBefore(s, Collapse(s[1..], true));
      }
    }
  }

  lemma TrimmedWords(s: string)
    ensures Trim(Collapse(s, false), IsUnderscore) == Joined(Words(s))
  {
    var collapsed := Collapse(s, false);
    if s != "" && !IsAlnum(s[0]) {
      var rest := Collapse(s[1..], true);
      CollapseSpaced(s[1..], true);
      CollapsedWords(s[1..], true);
      assert collapsed[1..] == rest;
      assert TrimLeft(collapsed, IsUnderscore) == TrimLeft(rest, IsUnderscore) == rest;
    } else {
      CollapsedWords(s, false);
      assert TrimLeft(collapsed, IsUnderscore) == collapsed;
    }
  }

  lemma CappedIs(s: string)
    requires IsSpaced(s) && s != "" && s[0] != '_'
    ensures Capped(s) == if |s| <= 40 then s else if s[39] == '_' then s[..39] else s[..40]
  {
    if |s| > 40 {
      var cut := s[..40];
      assert TrimLeft(cut, IsUnderscore) == cut;
      if s[39] == '_' {
        assert s[38] != '_';
        assert cut[..39] == s[..39];
        assert TrimRight(cut, IsUnderscore) == TrimRight(s[..39], IsUnderscore) == s[..39];
      }
    }
  }

  // The slug of a label: its words in lower case, joined by underscores, or
  // "field" if there are none, cut to forty characters and never at an
  // underscore.
  lemma DeriveSlugIs(labelText: string)
    ensures var words := Words(ToLower(TrimSpace(labelText)));
      var full := if words == [] then "field" else Text.Join(words, '_');
      DeriveSlug(labelText) == if |full| <= 40 then full else if full[39] == '_' then full[..39] else full[..40]
  {
    var text := ToLower(TrimSpace(labelText));
    TrimmedWords(text);
    WordsNotEmpty(text);
    JoinedIsEmpty(Words(text));
    CollapseSpaced(text, false);
    TrimSpaced(Collapse(text, false));
    FieldIsSpaced();
    CappedIs(if Words(text) == [] then "field" else Joined(Words(text)));
  }

  lemma FieldIsSpaced()
    ensures IsSpaced("field")
  {
  }

  lemma SlugIsFixed(s: string)
    requires IsSlug(s)
    ensures DeriveSlug(s) == s
  {
    TrimKeeps(s, IsSpace);
    LowerKeeps(s);
    CollapseKeeps(s, false);
    TrimKeeps(s, IsUnderscore);
  }

  lemma DeriveSlugFixedIff(labelText: string)
    ensures DeriveSlug(labelText) == labelText <==> IsSlug(labelText)
    ensures DeriveSlug(DeriveSlug(labelText)) == DeriveSlug(labelText)
  {
    DeriveSlugIsSlug(labelText);
    SlugIsFixed(DeriveSlug(labelText));
    if IsSlug(labelText) {
      SlugIsFixed(labelText);
    }
  }

  // ------------------------------------------------------------ statements

  predicate IsIdentifier(s: string) {
    && 0 < |s| <= 63
    && (s[0] == '_' || 'a' <= s[0] <= 'z')
    && forall i :: 0 <= i < |s| ==> IsAlnum(s[i]) || s[i] == '_'
  }

  datatype SqlType = SqlText | SqlNumeric | SqlDate | SqlBigint | SqlBoolean

  function SqlTypeOf(t: FieldType): SqlType {
    match t
    case TextField => SqlText
    case NumberField => SqlNumeric
    case DateField => SqlDate
    case CurrencyField => SqlBigint
    case PicklistField => SqlText
    case BooleanField => SqlBoolean
  }

  // A named CHECK that lets through NULL and the listed values.
  datatype Check = Check(name: string, allowed: seq<string>)

  datatype Ddl =
    | AddColumn(table: string, column: string, sqlType: SqlType, check: Option<Check>)
    | ReplaceCheck(table: string, column: string, newCheck: Check)

  datatype DdlError = InvalidIdentifier(name: string) | UnsupportedType

  function CheckClause(column: string, options: seq<string>): Result<Check, DdlError> {
    var name := column + "_check";
    if IsIdentifier(name) then Ok(Check(name, options)) else Err(InvalidIdentifier(name))
  }

  function BuildDdl(table: string, column: string, spec: FieldSpec): Result<Ddl, DdlError> {
    if !IsIdentifier(table) then Err(InvalidIdentifier(table))
    else if !IsIdentifier(column) then Err(InvalidIdentifier(column))
    else match spec.fieldType
      case Unknown(_) => Err(UnsupportedType)
      case Known(PicklistField) =>
        (match CheckClause(column, spec.options)
         case Ok(check) => Ok(AddColumn(table, column, SqlText, Some(check)))
         case Err(e) => Err(e))
      case Known(t) => Ok(AddColumn(table, column, SqlTypeOf(t), None))
  }

  function BuildOptionsDdl(table: string, column: string, options: seq<string>): Result<Ddl, DdlError> {
    if !IsIdentifier(table) then Err(InvalidIdentifier(table))
    else if !IsIdentifier(column) then Err(InvalidIdentifier(column))
    else match CheckClause(column, options)
      case Ok(check) => Ok(ReplaceCheck(table, column, check))
      case Err(e) => Err(e)
  }

  // A small letter or an underscore, then small letters, digits and
  // underscores, sixty-three at most.
  predicate IsSqlName(s: string) {
    && s != "" && |s| < 64
    && (s[0] as int == 95 || 97 <= s[0] as int <= 122)
    && forall c :: c in s ==> c as int == 95 || 97 <= c as int <= 122 || 48 <= c as int <= 57
  }

  lemma IdentifierIff(s: string)
    ensures IsIdentifier(s) <==> IsSqlName(s)
  {
    if IsSqlName(s) {
      forall i | 0 <= i < |s| ensures IsAlnum(s[i]) || s[i] == '_' {
        assert s[i] in s;
      }
    }
  }

  // A statement is built exactly for a known type and names that are safe to
  // write unquoted, the CHECK's included.
  lemma BuildsIff(table: string, column: string, spec: FieldSpec, options: seq<string>)
    ensures BuildDdl(table, column, spec).Ok? <==>
      && IsSqlName(table) && IsSqlName(column) && spec.fieldType.Known?
      && (spec.fieldType == Known(PicklistField) ==> IsSqlName(column + "_check"))
    ensures BuildOptionsDdl(table, column, options) ==
      if !IsSqlName(table) then Err(InvalidIdentifier(table))
      else if !IsSqlName(column) then Err(InvalidIdentifier(column))
      else if !IsSqlName(column + "_check") then Err(InvalidIdentifier(column + "_check"))
      else Ok(ReplaceCheck(table, column, Check(column + "_check", options)))
  {
    IdentifierIff(table);
    IdentifierIff(column);
    IdentifierIff(column + "_check");
  }

  lemma ColumnNamesLegal(slug: string)
    requires IsSlug(slug)
    ensures IsIdentifier(ColumnName(slug)) && IsIdentifier(ColumnName(slug) + "_check")
  {
    var column := ColumnName(slug);
    var name := column + "_check";
    assert forall i :: 0 <= i < |slug| ==> column[i + 3] == slug[i];
    assert column[0] == 'c' && column[1] == 'f' && column[2] == '_';
    assert forall i :: 0 <= i < |name| ==> IsAlnum(name[i]) || name[i] == '_';
  }

  lemma TablesLegal(e: Entity)
    requires !e.Unsupported?
    ensures IsIdentifier(TableName(e))
  {
  }

  // Whatever its label, a valid spec always has a statement: its type's column,
  // with a CHECK exactly for a picklist.
  lemma ValidSpecBuilds(spec: FieldSpec)
    requires IsValidSpec(spec)
    ensures var column, t := "cf_" + DeriveSlug(spec.labelText), spec.fieldType.t;
      var table := match spec.entity
        case Person => "person" case Organization => "organization" case Deal => "deal" case Lead => "lead"
        case Activity => "activity" case Unsupported(name) => name;
      var sqlType := match t
        case TextField => SqlText case PicklistField => SqlText case NumberField => SqlNumeric
        case DateField => SqlDate case CurrencyField => SqlBigint case BooleanField => SqlBoolean;
      && BuildDdl(TableName(spec.entity), ColumnName(DeriveSlug(spec.labelText)), spec) ==
         Ok(AddColumn(table, column, sqlType,
                      if t.PicklistField? then Some(Check(column + "_check", spec.options)) else None))
      && SqlTypeOf(t) == sqlType
  {
    DeriveSlugIsSlug(spec.labelText);
    ColumnNamesLegal(DeriveSlug(spec.labelText));
    TablesLegal(spec.entity);
  }

  // ------------------------------------------------------------- structure

  const STRUCTURAL_KEYWORDS := {"object", "relationship", "link to", "lookup to", "formula", "validation rule"}

  predicate Contains(s: string, sub: string) {
    exists i: nat :: i <= |s| && Text.HasAt(s, i, sub)
  }

  predicate IsStructural(labelText: string) {
    exists k :: k in STRUCTURAL_KEYWORDS && Contains(ToLower(labelText), k)
  }

  ghost predicate StandsIn(s: string, phrase: string) {
    exists front, back :: s == front + (phrase + back)
  }

  lemma ContainsIff(s: string, phrase: string)
    ensures Contains(s, phrase) <==> StandsIn(s, phrase)
  {
    if i: nat :| i <= |s| && Text.HasAt(s, i, phrase) {
      assert s == s[..i] + (phrase + s[i + |phrase|..]);
    }
    if front, back :| s == front + (phrase + back) {
      assert Text.HasAt(s, |front|, phrase);
    }
  }

  // One of six phrases stands somewhere in the label, in whatever case.
  lemma StructuralIff(labelText: string)
    ensures IsStructural(labelText) <==>
      exists k :: k in {"object", "relationship", "link to", "lookup to", "formula", "validation rule"}
        && StandsIn(ToLower(labelText), k)
  {
    forall k ensures Contains(ToLower(labelText), k) <==> StandsIn(ToLower(labelText), k) {
      ContainsIff(ToLower(labelText), k);
    }
  }
}
