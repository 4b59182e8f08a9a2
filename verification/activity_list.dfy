// store_activity_list.go: the activity feed, sorted by one of three times and
// read page by page.
module ActivityList {
  import opened Wrappers
  import opened Sequences
  import opened Base64Url
  import opened KeysetCursor
  import opened KeysetPaging
  import opened Strings
  import Text

  datatype Activity = Activity(
    id: nat, workspaceId: string, kind: string, assigneeId: string, direction: string,
    occurredAt: int, dueAt: Option<int>, createdAt: int, archived: bool)

  datatype ActivityFilter = ActivityFilter(
    entityType: string, entityId: string, kind: string, assigneeId: string,
    direction: string, q: string, includeArchived: bool, sort: string)

  datatype SortColumn = OccurredAt | CreatedAt | DueAt

  datatype SortSpec = SortSpec(column: SortColumn, desc: bool)

  // A missing due date sorts as infinity.
  datatype SortKey = At(t: int) | Infinity

  datatype Key = Key(sort: SortKey, id: nat)

  datatype ListError = UnknownEntityType | BadCursor

  // The rows of activity_link, and full-text search.
  datatype Db = Db(links: set<(nat, string, string)>, search: (string, Activity) -> bool)

  // How Go prints a sort value and an id into a cursor and Postgres reads them.
  datatype Codec = Codec(
    formatSort: SortKey -> Bytes, parseSort: Bytes -> Option<SortKey>,
    formatId: nat -> Bytes, parseId: Bytes -> Option<nat>)

  // Printed values read back, are not empty and hold no NUL.
  ghost predicate CodecLawful(c: Codec) {
    && (forall k :: c.formatSort(k) != [] && 0 !in c.formatSort(k) && c.parseSort(c.formatSort(k)) == Some(k))
    && (forall n: nat :: c.formatId(n) != [] && c.parseId(c.formatId(n)) == Some(n))
  }

  // ------------------------------------------------------------- sort terms

  function ColumnNamed(term: string): Option<SortColumn> {
    if term == "created_at" then Some(CreatedAt)
    else if term == "due_at" then Some(DueAt)
    else if term == "occurred_at" then Some(OccurredAt)
    else None
  }

  // Only the first term counts; anything unknown means newest first.
  function ParseSort(sort: string): SortSpec {
    ParseTerm(TrimSpace(Text.Split(sort, ',')[0]))
  }

  function ParseTerm(term: string): SortSpec {
    var desc := term != "" && term[0] == '-';
    if term == "" then SortSpec(OccurredAt, true)
    else match ColumnNamed(if desc then term[1..] else term)
      case Some(column) => SortSpec(column, desc)
      case None => SortSpec(OccurredAt, true)
  }

  // The three permitted names, as the sort value writes them.
  function ColumnName(c: SortColumn): (r: string)
    ensures ',' !in r && r != "" && !IsSpace(r[0]) && r[0] != '-' && !IsSpace(r[|r| - 1])
    ensures ColumnNamed(r) == Some(c)
  {
    match c case CreatedAt => "created_at" case DueAt => "due_at" case OccurredAt => "occurred_at"
  }

  function SortTerm(spec: SortSpec): (r: string)
    ensures ',' !in r && r != "" && !IsSpace(r[0]) && !IsSpace(r[|r| - 1])
  {
    if spec.desc then "-" + ColumnName(spec.column) else ColumnName(spec.column)
  }

  lemma ParsePrintedTerm(desc: bool, name: string)
    requires ColumnNamed(name).Some? && name != "" && name[0] != '-'
    ensures ParseTerm(if desc then "-" + name else name) == SortSpec(ColumnNamed(name).value, desc)
  {
    assert ("-" + name)[1..] == name;
  }

  lemma FirstTerm(term: string, more: string)
    requires ',' !in term
    ensures Text.Split(term, ',')[0] == term
    ensures Text.Split(term + "," + more, ',')[0] == term
  {
    Text.SplitPrefix(term, "", ',');
    Text.SplitPrefix(term, "," + more, ',');
    assert term + "" == term;
    assert term + "," + more == term + ("," + more);
  }

  // Each way of sorting can be asked for, whatever terms follow.
  lemma ParsePrintedSort(spec: SortSpec, more: string)
    ensures ParseSort(SortTerm(spec)) == spec
    ensures ParseSort(SortTerm(spec) + "," + more) == spec
  {
    FirstTerm(SortTerm(spec), more);
    TrimKeeps(SortTerm(spec), IsSpace);
    ParsePrintedTerm(spec.desc, ColumnName(spec.column));
  }

  // The six terms, written out; without one of them the newest come first.
  function Meant(term: string): SortSpec {
    if term == "created_at" then SortSpec(CreatedAt, false)
    else if term == "-created_at" then SortSpec(CreatedAt, true)
    else if term == "due_at" then SortSpec(DueAt, false)
    else if term == "-due_at" then SortSpec(DueAt, true)
    else if term == "occurred_at" then SortSpec(OccurredAt, false)
    else SortSpec(OccurredAt, true)
  }

  lemma SortIs(sort: string)
    ensures ParseSort(sort) == Meant(TrimSpace(Text.Split(sort, ',')[0]))
  {
    TermIs(TrimSpace(Text.Split(sort, ',')[0]));
  }

  lemma TermIs(term: string)
    ensures ParseTerm(term) == Meant(term)
  {
    if term != "" && term[0] == '-' {
      DescendingTermIs(term, term[1..]);
    }
  }

  lemma DescendingTermIs(term: string, name: string)
    requires term == "-" + name
    ensures ParseTerm(term) == Meant(term)
  {
    assert term[1..] == name && "-created_at"[1..] == "created_at" && "-due_at"[1..] == "due_at";
    assert "-created_at" == "-" + "created_at" && "-due_at" == "-" + "due_at";
  }

  // ------------------------------------------------------------ the listing

  function SortKeyOf(column: SortColumn, a: Activity): SortKey {
    match column
    case CreatedAt => At(a.createdAt)
    case DueAt => if a.dueAt.Some? then At(a.dueAt.value) else Infinity
    case OccurredAt => At(a.occurredAt)
  }

  function KeyOf(column: SortColumn): Activity -> Key {
    (a: Activity) => Key(SortKeyOf(column, a), a.id)
  }

  predicate SortBefore(a: SortKey, b: SortKey) {
    a.At? && (b.Infinity? || a.t < b.t)
  }

  // Row comparison of (sort value, id).
  predicate KeyLeq(a: Key, b: Key) {
    SortBefore(a.sort, b.sort) || (a.sort == b.sort && a.id <= b.id)
  }

  function KeyOrder(desc: bool): (Key, Key) -> bool {
    if desc then (a, b) => KeyLeq(b, a) else KeyLeq
  }

  // The filter clause shared by both query variants.
  predicate Shown(db: Db, workspaceId: string, f: ActivityFilter, a: Activity) {
    && a.workspaceId == workspaceId
    && (f.includeArchived || !a.archived)
    && (f.kind == "" || a.kind == f.kind)
    && (f.assigneeId == "" || a.assigneeId == f.assigneeId)
    && (f.direction == "" || a.direction == f.direction)
    && (f.q == "" || db.search(f.q, a))
    && (f.entityType == "" || f.entityId == "" || (a.id, f.entityType, f.entityId) in db.links)
  }

  function ShownBy(db: Db, workspaceId: string, f: ActivityFilter): Activity -> bool {
    a => Shown(db, workspaceId, f, a)
  }

  // What the cursor asks for. An empty part binds as NULL, with which no
  // comparison holds.
  datatype Cursor = First | Past(sort: Option<SortKey>, id: Option<nat>)

  function ReadCursor(codec: Codec, cursor: string): Result<Cursor, ListError> {
    match DecodeKeysetCursor(cursor)
    case None => Ok(First)
    case Some((sortVal, id)) =>
      var sortKey := if sortVal == [] then None else codec.parseSort(sortVal);
      var idKey := if id == [] then None else codec.parseId(id);
      if (sortVal != [] && sortKey.None?) || (id != [] && idKey.None?) then Err(BadCursor) else Ok(Past(sortKey, idKey))
  }

  predicate IsPast(spec: SortSpec, cursor: Cursor, a: Activity) {
    match cursor
    case First => true
    case Past(None, _) => false
    case Past(Some(k), None) =>
      var own := SortKeyOf(spec.column, a);
      if spec.desc then SortBefore(own, k) else SortBefore(k, own)
    case Past(Some(k), Some(id)) =>
      var own, bound := KeyOf(spec.column)(a), Key(k, id);
      own != bound && KeyOrder(spec.desc)(bound, own)
  }

  function ActivityPaging(codec: Codec, spec: SortSpec): Paging<Activity, Key> {
    Paging(
      KeyOf(spec.column), KeyOrder(spec.desc),
      (k: Key) => EncodeKeysetCursor(codec.formatSort(k.sort), codec.formatId(k.id)),
      cursor => match ReadCursor(codec, cursor) case Ok(Past(Some(s), Some(id))) => Some(Key(s, id)) case _ => None)
  }

  function PageLimit(limit: int): (r: nat)
    ensures r == if 1 <= limit <= 100 then limit else 20
  {
    if limit <= 0 || limit > 100 then 20 else limit
  }

  // Cursors the feed can issue, and the empty one.
  predicate Issued(codec: Codec, cursor: string) {
    match ReadCursor(codec, cursor)
    case Ok(First) => true
    case Ok(Past(s, id)) => s.Some? && id.Some?
    case Err(_) => false
  }

  function PastCursor(shown: Activity -> bool, spec: SortSpec, cursor: Cursor): Activity -> bool {
    a => shown(a) && IsPast(spec, cursor, a)
  }

  lemma QueryIsAfter(table: seq<Activity>, shown: Activity -> bool, codec: Codec, spec: SortSpec, cursor: string)
    requires Issued(codec, cursor) && KeysDistinct(ActivityPaging(codec, spec), table)
    ensures var p := ActivityPaging(codec, spec);
      StableSort(Filter(table, PastCursor(shown, spec, ReadCursor(codec, cursor).value)), ByKey(p))
      == After(p, Listing(p, table, shown), p.decode(cursor))
  {
    var p := ActivityPaging(codec, spec);
    KeyOrderTotal(spec.desc);
    SelectedIsAfter(p, table, shown, p.decode(cursor));
    FilterSame(table, PastCursor(shown, spec, ReadCursor(codec, cursor).value), Cut(p, shown, p.decode(cursor)));
  }

  // LIMIT size + 1, the extra row standing for a next page.
  method CutPage(codec: Codec, spec: SortSpec, found: seq<Activity>, size: nat)
    returns (out: seq<Activity>, next: string)
    requires size > 0
    ensures var p := ActivityPaging(codec, spec);
      (out, next) == if |found| > size then (found[..size], p.encode(p.key(found[size - 1]))) else (found, "")
  {
    out, next := if |found| > size + 1 then found[..size + 1] else found, "";
    if |out| > size {
      var last := out[size - 1];
      assert last == found[size - 1] && out[..size] == found[..size];
      next := EncodeKeysetCursor(codec.formatSort(SortKeyOf(spec.column, last)), codec.formatId(last.id));
      out := out[..size];
    }
  }

  method ListFiltered(table: seq<Activity>, db: Db, codec: Codec, workspaceId: string, cursor: string, limit: int,
      f: ActivityFilter)
    returns (r: Result<(seq<Activity>, string), ListError>)
    requires KeysDistinct(ActivityPaging(codec, ParseSort(f.sort)), table)
    ensures r == Err(UnknownEntityType) <==> f.entityType !in {"", "person", "organization", "deal"}
    ensures f.entityType in {"", "person", "organization", "deal"} ==>
      (r == Err(BadCursor) <==> ReadCursor(codec, cursor).Err?)
    ensures r.Ok? && Issued(codec, cursor) ==>
      var p := ActivityPaging(codec, ParseSort(f.sort));
      r.value == Page(p, Listing(p, table, ShownBy(db, workspaceId, f)), PageLimit(limit), cursor)
  {
    var size := PageLimit(limit);
    if f.entityType != "" && f.entityType !in {"person", "organization", "deal"} {
      return Err(UnknownEntityType);
    }
    var spec := ParseSort(f.sort);
    var read := ReadCursor(codec, cursor);
    if read.Err? {
      return Err(BadCursor);
    }
    var p := ActivityPaging(codec, spec);
    var found := StableSort(Filter(table, PastCursor(ShownBy(db, workspaceId, f), spec, read.value)), ByKey(p));
    if Issued(codec, cursor) {
      QueryIsAfter(table, ShownBy(db, workspaceId, f), codec, spec, cursor);
    }
    var out, next := CutPage(codec, spec, found, size);
    return Ok((out, next));
  }

  lemma KeyOrderTotal(desc: bool)
    ensures TotalOrder(KeyOrder(desc))
  {
  }

  // What the feed shows: the workspace's activities that are live unless
  // archived ones are wanted too, with the kind, assignee, direction, text and
  // link asked for.
  lemma ShownIff(db: Db, workspaceId: string, f: ActivityFilter, a: Activity)
    ensures Shown(db, workspaceId, f, a) <==>
      && a.workspaceId == workspaceId
      && (a.archived ==> f.includeArchived)
      && f.kind in {"", a.kind} && f.assigneeId in {"", a.assigneeId} && f.direction in {"", a.direction}
      && (f.q != "" ==> db.search(f.q, a))
      && (f.entityType != "" && f.entityId != "" ==> (a.id, f.entityType, f.entityId) in db.links)
  {
  }

  // a's time in the column is earlier than b's, a missing due date being the
  // latest, or the times agree and a has the lower id.
  predicate Earlier(column: SortColumn, a: Activity, b: Activity) {
    match column
    case CreatedAt => a.createdAt < b.createdAt || (a.createdAt == b.createdAt && a.id < b.id)
    case OccurredAt => a.occurredAt < b.occurredAt || (a.occurredAt == b.occurredAt && a.id < b.id)
    case DueAt =>
      || (a.dueAt.Some? && (b.dueAt.None? || a.dueAt.value < b.dueAt.value))
      || (a.dueAt == b.dueAt && a.id < b.id)
  }

  // The feed in full runs from earlier to later, or back.
  lemma FeedInOrder(table: seq<Activity>, db: Db, codec: Codec, workspaceId: string, f: ActivityFilter, i: nat, j: nat)
    requires forall i, j :: 0 <= i < j < |table| ==> table[i].id != table[j].id
    requires i < j < |Listing(ActivityPaging(codec, ParseSort(f.sort)), table, ShownBy(db, workspaceId, f))|
    ensures var spec := ParseSort(f.sort);
      var feed := Listing(ActivityPaging(codec, spec), table, ShownBy(db, workspaceId, f));
      if spec.desc then Earlier(spec.column, feed[j], feed[i]) else Earlier(spec.column, feed[i], feed[j])
  {
    var spec := ParseSort(f.sort);
    var p := ActivityPaging(codec, spec);
    KeyOrderTotal(spec.desc);
    ListingIsStrict(p, table, ShownBy(db, workspaceId, f));
  }

  // A cursor is refused exactly if a part of it that is not empty does not
  // read.
  lemma BadCursorIff(codec: Codec, cursor: string)
    ensures ReadCursor(codec, cursor).Err? <==>
      && DecodeKeysetCursor(cursor).Some?
      && var (sortVal, id) := DecodeKeysetCursor(cursor).value;
      || (sortVal != [] && codec.parseSort(sortVal).None?) || (id != [] && codec.parseId(id).None?)
  {
  }

  // Behind a cursor without a sort value there is nothing, and behind one
  // without an id only what has another time.
  lemma PartialCursor(spec: SortSpec, k: SortKey, id: Option<nat>, a: Activity)
    ensures !IsPast(spec, Past(None, id), a)
    ensures IsPast(spec, Past(Some(k), None), a) ==> SortKeyOf(spec.column, a) != k
    ensures SortKeyOf(spec.column, a) != k ==>
      (IsPast(spec, Past(Some(k), None), a) <==> KeyOrder(spec.desc)(Key(k, 0), KeyOf(spec.column)(a)))
  {
  }

  // Following the cursors of the feed from the first page to the last gives
  // exactly the activities shown, in order, whichever the sort and the limit.
  lemma FeedWalkIsComplete(table: seq<Activity>, db: Db, codec: Codec, workspaceId: string, limit: int,
      f: ActivityFilter)
    requires CodecLawful(codec)
    requires forall i, j :: 0 <= i < j < |table| ==> table[i].id != table[j].id
    ensures var p, shown := ActivityPaging(codec, ParseSort(f.sort)), ShownBy(db, workspaceId, f);
      && KeysDistinct(p, table)
      && Lawful(p, Listing(p, table, shown))
      && Concat(Walk(p, Listing(p, table, shown), PageLimit(limit), "", 0)) == Listing(p, table, shown)
      && (forall a :: a in Listing(p, table, shown) <==> a in table && Shown(db, workspaceId, f, a))
  {
    var spec := ParseSort(f.sort);
    var p := ActivityPaging(codec, spec);
    KeyOrderTotal(spec.desc);
    forall a: Activity | a in table ensures p.encode(p.key(a)) != "" && p.decode(p.encode(p.key(a))) == Some(p.key(a)) {
      CursorReadsBack(codec, spec, a);
    }
    assert p.decode("") == None;
    ListingWalkIsComplete(p, table, ShownBy(db, workspaceId, f), PageLimit(limit));
    ListingIsStrict(p, table, ShownBy(db, workspaceId, f));
  }

  lemma CursorReadsBack(codec: Codec, spec: SortSpec, a: Activity)
    requires CodecLawful(codec)
    ensures var p := ActivityPaging(codec, spec);
      p.encode(p.key(a)) != "" && p.decode(p.encode(p.key(a))) == Some(p.key(a)) && Issued(codec, p.encode(p.key(a)))
  {
    DecodeKeysetIff(codec.formatSort(SortKeyOf(spec.column, a)), codec.formatId(a.id));
  }
}
