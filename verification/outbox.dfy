// outbox.go: the relay that publishes outbox rows to per-workspace, per-entity
// streams and then marks them, with a failure possible at every step.
module Outbox {
  import opened Wrappers
  import opened Sequences

  datatype Row = Row(id: string, workspaceId: string, topic: string, payload: string, createdAt: int)

  datatype Stored = Stored(row: Row, published: bool)

  datatype Entry = Entry(eventId: string, topic: string, payload: string)

  const BATCH_LIMIT := 100

  // ----------------------------------------------------------- stream keys

  function BeforeDot(topic: string): (r: string)
    ensures '.' !in r && r <= topic
  {
    if topic == [] || topic[0] == '.' then "" else [topic[0]] + BeforeDot(topic[1..])
  }

  function EntityTypeFromTopic(topic: string): string {
    if '.' !in topic || BeforeDot(topic) == "" then "unknown" else BeforeDot(topic)
  }

  // The entity type is what stands before the first dot, if anything does.
  lemma EntityTypeIs(e: string, rest: string)
    requires e != "" && '.' !in e
    ensures EntityTypeFromTopic(e + "." + rest) == e
  {
    BeforeFirstDot(e, rest);
    assert (e + "." + rest)[|e|] == '.';
  }

  lemma {:induction false} BeforeFirstDot(e: string, rest: string)
    requires '.' !in e
    ensures BeforeDot(e + "." + rest) == e
  {
    var topic := e + "." + rest;
    if e != "" {
      BeforeFirstDot(e[1..], rest);
      assert topic[0] == e[0] && topic[1..] == e[1..] + "." + rest;
    }
  }

  lemma NoEntityType(topic: string)
    requires '.' !in topic || topic[0] == '.'
    ensures EntityTypeFromTopic(topic) == "unknown"
  {
  }

  function StreamKey(workspaceId: string, entityType: string): string {
    "margince:events:" + workspaceId + ":" + entityType
  }

  function KeyOf(r: Row): string {
    StreamKey(r.workspaceId, EntityTypeFromTopic(r.topic))
  }

  lemma KeyParts(prefix: string, w: string, e: string, w': string, e': string)
    requires ':' !in w && ':' !in w'
    requires prefix + w + ":" + e == prefix + w' + ":" + e'
    ensures w == w' && e == e'
  {
    var s := prefix + w + ":" + e;
    assert s[|prefix|..] == w + ":" + e == w' + ":" + e';
    var t := w + ":" + e;
    assert t[|w|] == ':' && t[|w'|] == ':';
    assert forall k :: 0 <= k < |w| ==> t[k] == w[k] && w[k] in w;
    assert forall k :: 0 <= k < |w'| ==> t[k] == w'[k] && w'[k] in w';
    assert |w| == |w'|;
    assert w == t[..|w|] && w' == t[..|w'|];
    assert e == t[|w|+1..] && e' == t[|w'|+1..];
  }

  // Workspace ids hold no colon, so two events share a stream exactly when
  // they share workspace and entity type.
  lemma StreamKeyInjective(w: string, e: string, w': string, e': string)
    requires ':' !in w && ':' !in w'
    ensures StreamKey(w, e) == StreamKey(w', e') <==> w == w' && e == e'
  {
    if StreamKey(w, e) == StreamKey(w', e') {
      KeyParts("margince:events:", w, e, w', e');
    }
  }

  // ------------------------------------------------------------ the machine

  // Where one relay stands between its steps: the rows its query returned that
  // are still to do, the first of them being added or being marked.
  datatype Relay = Idle | Adding(todo: seq<nat>) | Marking(todo: seq<nat>)

  // Rows stand in the order they were committed. `sent` and `lost` are history:
  // the row of every entry ever added, in order, and the rows at which a batch
  // died between adding and marking.
  datatype State = State(
    rows: seq<Stored>,
    streams: map<string, seq<Entry>>,
    relay: Relay,
    sent: seq<nat>,
    lost: multiset<nat>)

  datatype Step =
    | Append(row: Row)         // some transaction commits an event
    | Begin(batch: seq<nat>)   // the relay reads its batch
    | Add                      // XADD succeeds
    | AddFails                 // XADD fails and adds nothing
    | AddUnacknowledged        // XADD adds the entry but reports failure
    | Mark                     // the row is marked published
    | MarkFails                // the mark fails

  function EntryOf(r: Row): Entry {
    Entry(r.id, r.topic, r.payload)
  }

  function StreamAt(streams: map<string, seq<Entry>>, key: string): seq<Entry> {
    if key in streams then streams[key] else []
  }

  predicate FreshId(rows: seq<Stored>, id: string) {
    forall i :: 0 <= i < |rows| ==> rows[i].row.id != id
  }

  function CreatedAt(rows: seq<Stored>, i: nat): int {
    if i < |rows| then rows[i].row.createdAt else 0
  }

  predicate IsUnpublished(rows: seq<Stored>, i: nat) {
    i < |rows| && !rows[i].published
  }

  ghost predicate ByCreation(rows: seq<Stored>, batch: seq<nat>) {
    forall a, b :: 0 <= a < b < |batch| ==> CreatedAt(rows, batch[a]) <= CreatedAt(rows, batch[b])
  }

  ghost predicate Distinct(s: seq<nat>) {
    forall a, b :: 0 <= a < b < |s| ==> s[a] != s[b]
  }

  ghost predicate AllUnpublished(rows: seq<Stored>, batch: seq<nat>) {
    forall k :: 0 <= k < |batch| ==> IsUnpublished(rows, batch[k])
  }

  // No unpublished row outside the batch is older than one in it.
  ghost predicate OldestFirst(rows: seq<Stored>, batch: seq<nat>) {
    forall j: nat, k :: IsUnpublished(rows, j) && j !in batch && 0 <= k < |batch| ==>
      CreatedAt(rows, batch[k]) <= CreatedAt(rows, j)
  }

  // What the query may return: unpublished rows ordered by created_at, rows
  // created at the same time in any order, cut after the limit.
  ghost predicate IsBatch(rows: seq<Stored>, batch: seq<nat>) {
    && AllUnpublished(rows, batch) && Distinct(batch) && ByCreation(rows, batch) && OldestFirst(rows, batch)
    && |batch| <= BATCH_LIMIT
    && (|batch| < BATCH_LIMIT ==> forall j: nat :: IsUnpublished(rows, j) ==> j in batch)
  }

  function Sending(todo: seq<nat>): Relay {
    if todo == [] then Idle else Adding(todo)
  }

  function Sent(s: State, i: nat): State
    requires i < |s.rows|
  {
    var r := s.rows[i].row;
    s.(streams := s.streams[KeyOf(r) := StreamAt(s.streams, KeyOf(r)) + [EntryOf(r)]], sent := s.sent + [i])
  }

  predicate Head(todo: seq<nat>, rows: seq<Stored>) {
    todo != [] && todo[0] < |rows|
  }

  function Marked(rows: seq<Stored>, i: nat): seq<Stored>
    requires i < |rows|
  {
    rows[i := rows[i].(published := true)]
  }

  // None: the step is not possible in this state. Any row with a new id may be
  // committed at any time, whatever its created_at: that is the time its
  // transaction began.
  ghost function Next(s: State, step: Step): Option<State> {
    match step
    case Append(row) =>
      if FreshId(s.rows, row.id) then Some(s.(rows := s.rows + [Stored(row, false)])) else None
    case Begin(batch) =>
      if s.relay.Idle? && IsBatch(s.rows, batch) then Some(s.(relay := Sending(batch))) else None
    case Add =>
      if s.relay.Adding? && Head(s.relay.todo, s.rows)
      then Some(Sent(s, s.relay.todo[0]).(relay := Marking(s.relay.todo))) else None
    case AddFails =>
      if s.relay.Adding? then Some(s.(relay := Idle)) else None
    case AddUnacknowledged =>
      if s.relay.Adding? && Head(s.relay.todo, s.rows)
      then Some(Sent(s, s.relay.todo[0]).(relay := Idle, lost := s.lost + multiset{s.relay.todo[0]})) else None
    case Mark =>
      if s.relay.Marking? && Head(s.relay.todo, s.rows)
      then Some(s.(rows := Marked(s.rows, s.relay.todo[0]), relay := Sending(s.relay.todo[1..]))) else None
    case MarkFails =>
      if s.relay.Marking? && Head(s.relay.todo, s.rows)
      then Some(s.(relay := Idle, lost := s.lost + multiset{s.relay.todo[0]})) else None
  }

  ghost function Run(s: State, steps: seq<Step>): Option<State>
    decreases |steps|
  {
    if steps == [] then Some(s)
    else match Next(s, steps[0])
      case None => None
      case Some(s') => Run(s', steps[1..])
  }

  const EMPTY := State([], map[], Idle, [], multiset{})

  // ------------------------------------------------------------- invariant

  ghost predicate DistinctIds(rows: seq<Stored>) {
    forall i, j :: 0 <= i < j < |rows| ==> rows[i].row.id != rows[j].row.id
  }

  ghost predicate InBounds(indices: seq<nat>, rows: seq<Stored>) {
    forall k :: 0 <= k < |indices| ==> indices[k] < |rows|
  }

  function Todo(s: State): seq<nat> {
    if s.relay.Idle? then [] else s.relay.todo
  }

  ghost predicate RelayReady(s: State) {
    var todo := Todo(s);
    && (!s.relay.Idle? ==> todo != [])
    && AllUnpublished(s.rows, todo) && Distinct(todo) && ByCreation(s.rows, todo)
  }

  // The row just added and not yet marked.
  function Pending(relay: Relay, i: nat): nat {
    if relay.Marking? && relay.todo != [] && relay.todo[0] == i then 1 else 0
  }

  // How often row i must have been sent.
  function Owed(s: State, i: nat): nat {
    (if i < |s.rows| && s.rows[i].published then 1 else 0) + s.lost[i] + Pending(s.relay, i)
  }

  ghost predicate Counted(s: State) {
    forall i: nat :: multiset(s.sent)[i] == Owed(s, i)
  }

  predicate OnStream(rows: seq<Stored>, key: string, i: nat) {
    i < |rows| && KeyOf(rows[i].row) == key
  }

  function Entries(rows: seq<Stored>, sent: seq<nat>, key: string): seq<Entry> {
    if sent == [] then []
    else
      var last := sent[|sent|-1];
      Entries(rows, sent[..|sent|-1], key) + (if OnStream(rows, key, last) then [EntryOf(rows[last].row)] else [])
  }

  ghost predicate StreamsMatch(s: State) {
    forall key :: StreamAt(s.streams, key) == Entries(s.rows, s.sent, key)
  }

  ghost predicate Inv(s: State) {
    DistinctIds(s.rows) && InBounds(s.sent, s.rows) && RelayReady(s) && Counted(s) && StreamsMatch(s)
  }

  // Rows with the same content, some of them published since.
  ghost predicate SameRows(a: seq<Stored>, b: seq<Stored>) {
    |a| <= |b| && forall i :: 0 <= i < |a| ==> b[i].row == a[i].row
  }

  lemma {:induction false} EntriesKept(rows: seq<Stored>, rows': seq<Stored>, sent: seq<nat>, key: string)
    requires SameRows(rows, rows') && InBounds(sent, rows)
    ensures Entries(rows', sent, key) == Entries(rows, sent, key)
  {
    if sent != [] {
      EntriesKept(rows, rows', sent[..|sent|-1], key);
    }
  }

  lemma StreamsKept(s: State, s': State)
    requires StreamsMatch(s) && SameRows(s.rows, s'.rows) && InBounds(s.sent, s.rows)
    requires s'.streams == s.streams && s'.sent == s.sent
    ensures StreamsMatch(s')
  {
    forall key ensures StreamAt(s'.streams, key) == Entries(s'.rows, s'.sent, key) {
      EntriesKept(s.rows, s'.rows, s.sent, key);
    }
  }

  lemma StreamsGrow(s: State, i: nat)
    requires i < |s.rows| && StreamsMatch(s)
    ensures StreamsMatch(Sent(s, i))
  {
    var s' := Sent(s, i);
    assert s'.sent[..|s'.sent|-1] == s.sent;
    forall key ensures StreamAt(s'.streams, key) == Entries(s'.rows, s'.sent, key) {
      assert StreamAt(s.streams, key) == Entries(s.rows, s.sent, key);
    }
  }

  lemma SentCount(s: State, i: nat)
    requires i < |s.rows|
    ensures multiset(Sent(s, i).sent) == multiset(s.sent) + multiset{i}
    ensures InBounds(s.sent, s.rows) ==> InBounds(Sent(s, i).sent, s.rows)
  {
  }

  // An unpublished row can be marked only while it is the head of a batch, so
  // what is left of the batch is still unpublished.
  lemma MarkedLeavesRest(s: State)
    requires RelayReady(s) && s.relay.Marking?
    ensures Head(s.relay.todo, s.rows)
    ensures var rows := Marked(s.rows, s.relay.todo[0]); var rest := s.relay.todo[1..];
      AllUnpublished(rows, rest) && Distinct(rest) && ByCreation(rows, rest)
  {
    var rows := Marked(s.rows, s.relay.todo[0]);
    assert IsUnpublished(s.rows, s.relay.todo[0]);
    var rest := s.relay.todo[1..];
    assert forall k :: 0 <= k < |rest| ==> rest[k] == s.relay.todo[k+1] && IsUnpublished(s.rows, s.relay.todo[k+1]);
    assert forall i: nat :: CreatedAt(rows, i) == CreatedAt(s.rows, i);
  }

  lemma MarkKeepsInv(s: State)
    requires Inv(s) && Next(s, Mark).Some?
    ensures Inv(Next(s, Mark).value)
  {
    var s' := Next(s, Mark).value;
    MarkedLeavesRest(s);
    StreamsKept(s, s');
    forall i: nat ensures multiset(s'.sent)[i] == Owed(s', i) {
      assert multiset(s.sent)[i] == Owed(s, i);
    }
  }

  lemma AppendKeepsInv(s: State, row: Row)
    requires Inv(s) && Next(s, Append(row)).Some?
    ensures Inv(Next(s, Append(row)).value)
  {
    var s' := Next(s, Append(row)).value;
    StreamsKept(s, s');
    var todo := Todo(s);
    forall k | 0 <= k < |todo| ensures IsUnpublished(s'.rows, todo[k])
    {
      assert IsUnpublished(s.rows, todo[k]);
    }
    forall k | 0 <= k < |todo| ensures CreatedAt(s'.rows, todo[k]) == CreatedAt(s.rows, todo[k])
    {
      assert IsUnpublished(s.rows, todo[k]);
    }
    forall i: nat ensures multiset(s'.sent)[i] == Owed(s', i) {
      assert multiset(s.sent)[i] == Owed(s, i);
    }
  }

  lemma AddKeepsInv(s: State, step: Step)
    requires Inv(s) && (step.Add? || step.AddUnacknowledged?) && Next(s, step).Some?
    ensures Inv(Next(s, step).value)
  {
    var s', h := Next(s, step).value, s.relay.todo[0];
    SentCount(s, h);
    StreamsGrow(s, h);
    StreamsKept(Sent(s, h), s');
    AddCounts(s, step);
  }

  lemma AddCounts(s: State, step: Step)
    requires Counted(s) && (step.Add? || step.AddUnacknowledged?) && Next(s, step).Some?
    ensures Counted(Next(s, step).value)
  {
    var s' := Next(s, step).value;
    SentCount(s, s.relay.todo[0]);
    forall i: nat ensures multiset(s'.sent)[i] == Owed(s', i) {
      assert multiset(s.sent)[i] == Owed(s, i);
    }
  }

  lemma StepKeepsInv(s: State, step: Step)
    requires Inv(s) && Next(s, step).Some?
    ensures Inv(Next(s, step).value)
  {
    var s' := Next(s, step).value;
    match step {
      case Append(row) => AppendKeepsInv(s, row);
      case Add => AddKeepsInv(s, step);
      case AddUnacknowledged => AddKeepsInv(s, step);
      case Mark => MarkKeepsInv(s);
      case _ =>
        forall i: nat ensures multiset(s'.sent)[i] == Owed(s', i) {
          assert multiset(s.sent)[i] == Owed(s, i);
        }
    }
  }

  lemma {:induction false} RunKeepsInv(s: State, steps: seq<Step>)
    requires Inv(s) && Run(s, steps).Some?
    ensures Inv(Run(s, steps).value)
    decreases |steps|
  {
    if steps != [] {
      StepKeepsInv(s, steps[0]);
      RunKeepsInv(Next(s, steps[0]).value, steps[1..]);
    }
  }

  lemma EmptyInv()
    ensures Inv(EMPTY)
  {
    assert multiset(EMPTY.sent) == multiset{};
  }

  lemma {:induction false} RunAppend(s: State, a: seq<Step>, b: seq<Step>)
    requires Run(s, a).Some?
    ensures Run(s, a + b) == Run(Run(s, a).value, b)
    decreases |a|
  {
    if a == [] {
      assert a + b == b;
    } else {
      assert (a + b)[0] == a[0] && (a + b)[1..] == a[1..] + b;
      RunAppend(Next(s, a[0]).value, a[1..], b);
    }
  }

  // ------------------------------------------- copies, however runs interleave

  function CopiesOf(entries: seq<Entry>, id: string): nat {
    if entries == [] then 0
    else CopiesOf(entries[..|entries|-1], id) + (if entries[|entries|-1].eventId == id then 1 else 0)
  }

  lemma CopiesSnoc(entries: seq<Entry>, last: Entry, id: string)
    ensures CopiesOf(entries + [last], id) == CopiesOf(entries, id) + if last.eventId == id then 1 else 0
  {
    assert (entries + [last])[..|entries|] == entries;
  }

  lemma CountSnoc(front: seq<nat>, last: nat, i: nat)
    ensures multiset(front + [last])[i] == multiset(front)[i] + if last == i then 1 else 0
  {
  }

  lemma SameIdSameRow(rows: seq<Stored>, i: nat, j: nat)
    requires i < |rows| && j < |rows| && DistinctIds(rows)
    ensures EntryOf(rows[j].row).eventId == rows[i].row.id <==> i == j
  {
  }

  lemma CopiesGrow(rows: seq<Stored>, front: seq<nat>, last: nat, key: string, i: nat)
    requires i < |rows| && last < |rows| && DistinctIds(rows)
    ensures CopiesOf(Entries(rows, front + [last], key), rows[i].row.id)
      == CopiesOf(Entries(rows, front, key), rows[i].row.id) + if last == i && KeyOf(rows[i].row) == key then 1 else 0
  {
    assert (front + [last])[..|front|] == front;
    SameIdSameRow(rows, i, last);
    if OnStream(rows, key, last) {
      CopiesSnoc(Entries(rows, front, key), EntryOf(rows[last].row), rows[i].row.id);
    } else {
      assert Entries(rows, front, key) + [] == Entries(rows, front, key);
    }
  }

  lemma {:induction false} CopiesAreSendings(rows: seq<Stored>, sent: seq<nat>, key: string, i: nat)
    requires i < |rows| && InBounds(sent, rows) && DistinctIds(rows)
    ensures CopiesOf(Entries(rows, sent, key), rows[i].row.id)
      == if KeyOf(rows[i].row) == key then multiset(sent)[i] else 0
    decreases |sent|
  {
    if sent != [] {
      var front, last := sent[..|sent|-1], sent[|sent|-1];
      assert sent == front + [last];
      CopiesAreSendings(rows, front, key, i);
      CountSnoc(front, last, i);
      CopiesGrow(rows, front, last, key, i);
    }
  }

  // Over every run of commits, batches and failures, a row's own stream holds
  // its entry once if it is published, once more for each time a batch died
  // between adding and marking it, and once if it is just being marked; no
  // other stream holds it. So each published row is on its stream, and no row
  // is duplicated but by such a failure.
  lemma CopiesCounted(steps: seq<Step>, i: nat, key: string)
    requires Run(EMPTY, steps).Some? && i < |Run(EMPTY, steps).value.rows|
    ensures var s := Run(EMPTY, steps).value; var r := s.rows[i].row;
      CopiesOf(StreamAt(s.streams, key), r.id)
      == if KeyOf(r) != key then 0
         else (if s.rows[i].published then 1 else 0) + s.lost[i] + Pending(s.relay, i)
  {
    EmptyInv();
    RunKeepsInv(EMPTY, steps);
    var s := Run(EMPTY, steps).value;
    CopiesAreSendings(s.rows, s.sent, key, i);
    assert multiset(s.sent)[i] == Owed(s, i);
  }

  // The same with the stream written out: a row of workspace w whose topic has
  // the type e before its first dot is added to w's stream of type e, and no
  // other stream ever holds it.
  lemma RowsGoToTheirType(steps: seq<Step>, i: nat, e: string, rest: string, key: string)
    requires Run(EMPTY, steps).Some? && i < |Run(EMPTY, steps).value.rows|
    requires e != "" && '.' !in e && Run(EMPTY, steps).value.rows[i].row.topic == e + "." + rest
    ensures var s := Run(EMPTY, steps).value; var r := s.rows[i].row;
      var copies := CopiesOf(StreamAt(s.streams, key), r.id);
      if key == "margince:events:" + r.workspaceId + ":" + e
      then copies == (if s.rows[i].published then 1 else 0) + s.lost[i] + Pending(s.relay, i)
      else copies == 0
  {
    EntityTypeIs(e, rest);
    CopiesCounted(steps, i, key);
  }

  // Two rows of one workspace whose topics agree before the first dot are on
  // one stream; rows that differ in that, or in the workspace, share none.
  lemma SharedStreamIff(steps: seq<Step>, i: nat, j: nat, e: string, e': string, rest: string, rest': string)
    requires Run(EMPTY, steps).Some?
    requires var rows := Run(EMPTY, steps).value.rows;
      && i < |rows| && j < |rows| && rows[i].published && rows[j].published
      && ':' !in rows[i].row.workspaceId && ':' !in rows[j].row.workspaceId
      && rows[i].row.topic == e + "." + rest && rows[j].row.topic == e' + "." + rest'
    requires e != "" && '.' !in e && e' != "" && '.' !in e'
    ensures var s := Run(EMPTY, steps).value; var r, r' := s.rows[i].row, s.rows[j].row;
      (exists key :: CopiesOf(StreamAt(s.streams, key), r.id) > 0 && CopiesOf(StreamAt(s.streams, key), r'.id) > 0)
      <==> r.workspaceId == r'.workspaceId && e == e'
  {
    var s := Run(EMPTY, steps).value;
    var r, r' := s.rows[i].row, s.rows[j].row;
    EntityTypeIs(e, rest);
    EntityTypeIs(e', rest');
    StreamKeyInjective(r.workspaceId, e, r'.workspaceId, e');
    CopiesCounted(steps, i, KeyOf(r));
    CopiesCounted(steps, j, KeyOf(r));
    if key :| CopiesOf(StreamAt(s.streams, key), r.id) > 0 && CopiesOf(StreamAt(s.streams, key), r'.id) > 0 {
      CopiesCounted(steps, i, key);
      CopiesCounted(steps, j, key);
    }
  }

  function TotalLength(streams: map<string, seq<Entry>>, keys: seq<string>): nat {
    if keys == [] then 0 else |StreamAt(streams, keys[0])| + TotalLength(streams, keys[1..])
  }

  lemma {:induction false} LengthsAdd(rows: seq<Stored>, sent: seq<nat>, streams: map<string, seq<Entry>>,
      keys: seq<string>)
    requires forall key :: StreamAt(streams, key) == Entries(rows, sent, key)
    requires forall i, j :: 0 <= i < j < |keys| ==> keys[i] != keys[j]
    requires forall i :: 0 <= i < |sent| ==> sent[i] < |rows|
    ensures TotalLength(streams, keys) == |Filter<nat>(sent, AnyKey(rows, keys))|
    decreases |keys|
  {
    if keys == [] {
      FilterNone<nat>(sent, AnyKey(rows, keys));
    } else {
      LengthsAdd(rows, sent, streams, keys[1..]);
      EntriesCount(rows, sent, keys[0]);
      FilterSplits(rows, sent, keys);
    }
  }

  function AnyKey(rows: seq<Stored>, keys: seq<string>): nat -> bool {
    (i: nat) => i < |rows| && KeyOf(rows[i].row) in keys
  }

  lemma {:induction false} EntriesCount(rows: seq<Stored>, sent: seq<nat>, key: string)
    ensures |Entries(rows, sent, key)| == |Filter<nat>(sent, OnKey(rows, key))|
    decreases |sent|
  {
    if sent != [] {
      var front, last := sent[..|sent|-1], sent[|sent|-1];
      EntriesCount(rows, front, key);
      assert sent == front + [last];
      KeyedSnoc(rows, front, last, key);
    }
  }

  lemma {:induction false} FilterSplits(rows: seq<Stored>, sent: seq<nat>, keys: seq<string>)
    requires keys != [] && forall i, j :: 0 <= i < j < |keys| ==> keys[i] != keys[j]
    ensures |Filter<nat>(sent, AnyKey(rows, keys))|
      == |Filter<nat>(sent, OnKey(rows, keys[0]))| + |Filter<nat>(sent, AnyKey(rows, keys[1..]))|
    decreases |sent|
  {
    if sent != [] {
      FilterSplits(rows, sent[1..], keys);
      assert keys == [keys[0]] + keys[1..];
      assert forall k :: k in keys <==> k == keys[0] || k in keys[1..];
      assert keys[0] !in keys[1..];
    }
  }

  function PublishedCount(rows: seq<Stored>): (r: nat)
    ensures r <= |rows|
  {
    if rows == [] then 0
    else PublishedCount(rows[..|rows|-1]) + (if rows[|rows|-1].published then 1 else 0)
  }

  lemma {:induction false} MarkedCount(rows: seq<Stored>, i: nat)
    requires IsUnpublished(rows, i)
    ensures PublishedCount(Marked(rows, i)) == PublishedCount(rows) + 1
    decreases |rows|
  {
    var front := rows[..|rows|-1];
    if i < |front| {
      MarkedCount(front, i);
      assert Marked(rows, i)[..|rows|-1] == Marked(front, i);
    } else {
      assert Marked(rows, i)[..|rows|-1] == front;
    }
  }

  lemma {:induction false} SentTotal(s: State, steps: seq<Step>)
    requires Inv(s) && Run(s, steps).Some?
    requires |s.sent| == PublishedCount(s.rows) + |s.lost| + (if s.relay.Marking? then 1 else 0)
    ensures var s' := Run(s, steps).value;
      |s'.sent| == PublishedCount(s'.rows) + |s'.lost| + (if s'.relay.Marking? then 1 else 0)
    decreases |steps|
  {
    if steps != [] {
      var s' := Next(s, steps[0]).value;
      match steps[0] {
        case Append(row) => assert s'.rows[..|s'.rows|-1] == s.rows;
        case Mark => MarkedCount(s.rows, s.relay.todo[0]);
        case _ =>
      }
      StepKeepsInv(s, steps[0]);
      SentTotal(s', steps[1..]);
    }
  }

  // Between batches, all streams together hold one entry per published row
  // plus one per failure after an add.
  lemma CopiesAddUp(steps: seq<Step>, keys: seq<string>)
    requires Run(EMPTY, steps).Some? && Run(EMPTY, steps).value.relay.Idle?
    requires forall i, j :: 0 <= i < j < |keys| ==> keys[i] != keys[j]
    requires forall r :: r in Run(EMPTY, steps).value.rows ==> KeyOf(r.row) in keys
    ensures var s := Run(EMPTY, steps).value;
      TotalLength(s.streams, keys) == PublishedCount(s.rows) + |s.lost|
  {
    EmptyInv();
    RunKeepsInv(EMPTY, steps);
    SentTotal(EMPTY, steps);
    var s := Run(EMPTY, steps).value;
    LengthsAdd(s.rows, s.sent, s.streams, keys);
    forall i: nat | i in s.sent ensures AnyKey(s.rows, keys)(i) {
      assert s.rows[i] in s.rows;
    }
    FilterAll<nat>(s.sent, AnyKey(s.rows, keys));
  }

  // ------------------------------------------------ streams in sending order

  // A sequence with every repetition dropped.
  function Firsts(s: seq<nat>): seq<nat> {
    if s == [] then []
    else
      var last := s[|s|-1];
      Firsts(s[..|s|-1]) + (if last in s[..|s|-1] then [] else [last])
  }

  lemma FirstsSnoc(front: seq<nat>, last: nat)
    ensures Firsts(front + [last]) == Firsts(front) + if last in front then [] else [last]
  {
    assert (front + [last])[..|front|] == front;
  }

  function OnKey(rows: seq<Stored>, key: string): nat -> bool {
    (i: nat) => OnStream(rows, key, i)
  }

  ghost function EntriesInOrder(rows: seq<Stored>, indices: seq<nat>): seq<Entry>
    requires InBounds(indices, rows)
  {
    if indices == [] then [] else [EntryOf(rows[indices[0]].row)] + EntriesInOrder(rows, indices[1..])
  }

  lemma {:induction false} EntriesInOrderSnoc(rows: seq<Stored>, indices: seq<nat>, i: nat)
    requires i < |rows| && InBounds(indices, rows)
    ensures EntriesInOrder(rows, indices + [i]) == EntriesInOrder(rows, indices) + [EntryOf(rows[i].row)]
  {
    if indices != [] {
      assert (indices + [i])[1..] == indices[1..] + [i];
      EntriesInOrderSnoc(rows, indices[1..], i);
    } else {
      assert [i][1..] == [];
    }
  }

  lemma KeyedInBounds(rows: seq<Stored>, sent: seq<nat>, key: string)
    ensures InBounds(Filter<nat>(sent, OnKey(rows, key)), rows)
  {
    var kept := Filter<nat>(sent, OnKey(rows, key));
    forall k | 0 <= k < |kept| ensures kept[k] < |rows| {
      FilterMember<nat>(sent, OnKey(rows, key), kept[k]);
    }
  }

  lemma KeyedSnoc(rows: seq<Stored>, front: seq<nat>, last: nat, key: string)
    ensures Filter<nat>(front + [last], OnKey(rows, key))
      == Filter<nat>(front, OnKey(rows, key)) + (if OnStream(rows, key, last) then [last] else [])
  {
    FilterAppend<nat>(front, [last], OnKey(rows, key));
    assert [last][1..] == [];
  }

  // A stream's entries are its rows' entries in sending order.
  lemma {:induction false} EntriesAreFiltered(rows: seq<Stored>, sent: seq<nat>, key: string)
    ensures InBounds(Filter<nat>(sent, OnKey(rows, key)), rows)
    ensures Entries(rows, sent, key) == EntriesInOrder(rows, Filter<nat>(sent, OnKey(rows, key)))
    decreases |sent|
  {
    KeyedInBounds(rows, sent, key);
    if sent != [] {
      var front, last := sent[..|sent|-1], sent[|sent|-1];
      assert sent == front + [last];
      EntriesAreFiltered(rows, front, key);
      KeyedSnoc(rows, front, last, key);
      var kept := Filter<nat>(front, OnKey(rows, key));
      if OnStream(rows, key, last) {
        EntriesInOrderSnoc(rows, kept, last);
      } else {
        assert kept + [] == kept;
      }
    }
  }

  lemma {:induction false} FirstsFiltered(s: seq<nat>, p: nat -> bool)
    ensures Firsts(Filter<nat>(s, p)) == Filter<nat>(Firsts(s), p)
    decreases |s|
  {
    if s != [] {
      var front, last := s[..|s|-1], s[|s|-1];
      FirstsFiltered(front, p);
      assert s == front + [last];
      FilterAppend<nat>(front, [last], p);
      FilterAppend<nat>(Firsts(front), if last in front then [] else [last], p);
      assert [last][1..] == [];
      FilterMember<nat>(front, p, last);
      if p(last) {
        assert (Filter<nat>(front, p) + [last])[..|Filter<nat>(front, p)|] == Filter<nat>(front, p);
      } else {
        assert Filter<nat>(front, p) + [] == Filter<nat>(front, p);
        assert Firsts(front) + [] == Firsts(front);
      }
    }
  }


  // -------------------------------------------------- order of publication

  // What may be asked of the order in which rows are relayed.
  datatype Order =
    | PublishedFirst  // the published rows are a prefix of the outbox
    | SentFirst       // the rows sent so far are a prefix of the outbox
    | FirstSendings   // rows are sent for the first time in outbox order

  predicate Done(s: State, i: nat, order: Order) {
    if order.PublishedFirst? then i < |s.rows| && s.rows[i].published else i in s.sent
  }

  predicate Chosen(rows: seq<Stored>, p: Row -> bool, i: nat) {
    i < |rows| && p(rows[i].row)
  }

  // Among the chosen rows, those done come before those that are not.
  ghost predicate DoneIsPrefix(s: State, p: Row -> bool, order: Order) {
    forall i: nat, j: nat ::
      Chosen(s.rows, p, i) && Chosen(s.rows, p, j) && Done(s, i, order) && !Done(s, j, order) ==>
        CreatedAt(s.rows, i) <= CreatedAt(s.rows, j)
  }

  ghost predicate InCreationOrder(rows: seq<Stored>, p: Row -> bool, indices: seq<nat>) {
    forall a, b :: 0 <= a < b < |indices| && Chosen(rows, p, indices[a]) && Chosen(rows, p, indices[b]) ==>
      CreatedAt(rows, indices[a]) <= CreatedAt(rows, indices[b])
  }

  ghost predicate Ordered(s: State, p: Row -> bool, order: Order) {
    if order.FirstSendings? then InCreationOrder(s.rows, p, Firsts(s.sent)) else DoneIsPrefix(s, p, order)
  }

  ghost predicate RelayOnly(steps: seq<Step>) {
    forall k :: 0 <= k < |steps| ==> !steps[k].Append?
  }

  // However the relay goes on from here, if nothing more is committed.
  ghost predicate StaysOrdered(s: State, p: Row -> bool, order: Order) {
    forall more :: RelayOnly(more) && Run(s, more).Some? ==> Ordered(Run(s, more).value, p, order)
  }

  // At every moment of the run, and however the relay might go on from there.
  ghost predicate AlwaysOrdered(s: State, steps: seq<Step>, p: Row -> bool, order: Order)
    decreases |steps|
  {
    && StaysOrdered(s, p, order)
    && (steps != [] && Next(s, steps[0]).Some? ==> AlwaysOrdered(Next(s, steps[0]).value, steps[1..], p, order))
  }

  // The row is created before a row that is already done or in the batch being
  // relayed.
  ghost predicate Late(s: State, row: Row, p: Row -> bool, order: Order) {
    p(row) && exists i: nat ::
      Chosen(s.rows, p, i) && (Done(s, i, order) || i in Todo(s)) && row.createdAt < CreatedAt(s.rows, i)
  }

  ghost predicate NoLateCommit(s: State, steps: seq<Step>, p: Row -> bool, order: Order)
    decreases |steps|
  {
    steps != [] ==>
      && (steps[0].Append? ==> !Late(s, steps[0].row, p, order))
      && (Next(s, steps[0]).Some? ==> NoLateCommit(Next(s, steps[0]).value, steps[1..], p, order))
  }

  // Done rows and the batch come before all the others.
  ghost predicate BatchIsNext(s: State, p: Row -> bool, order: Order) {
    forall i: nat, j: nat ::
      && Chosen(s.rows, p, i) && Chosen(s.rows, p, j)
      && i in Todo(s) && j !in Todo(s) && !Done(s, j, order) ==>
        CreatedAt(s.rows, i) <= CreatedAt(s.rows, j)
  }

  ghost predicate OrderInv(s: State, p: Row -> bool, order: Order) {
    && DoneIsPrefix(s, p, order) && BatchIsNext(s, p, order)
    && (order.FirstSendings? ==> InCreationOrder(s.rows, p, Firsts(s.sent)))
  }

  lemma PublishedWasSent(s: State, i: nat, order: Order)
    requires Inv(s) && i < |s.rows| && s.rows[i].published
    ensures i in s.sent && Done(s, i, order)
  {
    assert multiset(s.sent)[i] == Owed(s, i);
  }

  lemma FirstsMember(s: seq<nat>, x: nat)
    ensures x in Firsts(s) <==> x in s
  {
    if s != [] {
      FirstsMember(s[..|s|-1], x);
      assert s == s[..|s|-1] + [s[|s|-1]];
    }
  }

  // Sending row h, when no row not yet sent is older.
  lemma FirstsGrow(s: State, h: nat, p: Row -> bool)
    requires h < |s.rows| && DoneIsPrefix(s, p, FirstSendings) && InCreationOrder(s.rows, p, Firsts(s.sent))
    ensures InCreationOrder(s.rows, p, Firsts(s.sent + [h]))
  {
    FirstsSnoc(s.sent, h);
    var f := Firsts(s.sent);
    if h !in s.sent {
      var g := f + [h];
      forall a, b | 0 <= a < b < |g| && Chosen(s.rows, p, g[a]) && Chosen(s.rows, p, g[b])
        ensures CreatedAt(s.rows, g[a]) <= CreatedAt(s.rows, g[b])
      {
        FirstsMember(s.sent, g[a]);
        if b == |f| {
          assert g[a] in f && Done(s, g[a], FirstSendings) && !Done(s, h, FirstSendings);
        }
      }
    } else {
      assert f + [] == f;
    }
  }

  // The head of a batch is the oldest of what is not done.
  lemma HeadIsOldest(s: State, p: Row -> bool, order: Order, j: nat)
    requires Inv(s) && OrderInv(s, p, order) && !s.relay.Idle?
    requires Chosen(s.rows, p, s.relay.todo[0]) && Chosen(s.rows, p, j) && !Done(s, j, order)
    ensures CreatedAt(s.rows, s.relay.todo[0]) <= CreatedAt(s.rows, j)
  {
    var todo := s.relay.todo;
    assert todo[0] in todo;
    if j in todo {
      var k :| 0 <= k < |todo| && todo[k] == j;
      assert CreatedAt(s.rows, todo[0]) <= CreatedAt(s.rows, todo[k]);
    }
  }

  lemma BeginKeepsOrder(s: State, batch: seq<nat>, p: Row -> bool, order: Order)
    requires Inv(s) && OrderInv(s, p, order) && Next(s, Begin(batch)).Some?
    ensures OrderInv(Next(s, Begin(batch)).value, p, order)
  {
    var s' := Next(s, Begin(batch)).value;
    forall i: nat, j: nat | Chosen(s.rows, p, i) && Chosen(s.rows, p, j) && i in batch && j !in batch
      && !Done(s, j, order)
      ensures CreatedAt(s.rows, i) <= CreatedAt(s.rows, j)
    {
      if s.rows[j].published {
        PublishedWasSent(s, j, order);
      }
      var k :| 0 <= k < |batch| && batch[k] == i;
      assert IsUnpublished(s.rows, j);
    }
    assert Todo(s') == batch;
  }

  lemma AddKeepsOrder(s: State, step: Step, p: Row -> bool, order: Order)
    requires Inv(s) && OrderInv(s, p, order)
    requires (step.Add? || step.AddUnacknowledged?) && Next(s, step).Some?
    ensures OrderInv(Next(s, step).value, p, order)
  {
    var s', h := Next(s, step).value, s.relay.todo[0];
    if order.FirstSendings? {
      FirstsGrow(s, h, p);
    }
    forall j: nat ensures Done(s', j, order) <==> Done(s, j, order) || (!order.PublishedFirst? && j == h) {
    }
    forall i: nat, j: nat | Chosen(s'.rows, p, i) && Chosen(s'.rows, p, j) && Done(s', i, order) && !Done(s', j, order)
      ensures CreatedAt(s'.rows, i) <= CreatedAt(s'.rows, j)
    {
      if !Done(s, i, order) {
        HeadIsOldest(s, p, order, j);
      }
    }
  }

  lemma MarkKeepsOrder(s: State, p: Row -> bool, order: Order)
    requires Inv(s) && OrderInv(s, p, order) && Next(s, Mark).Some?
    ensures OrderInv(Next(s, Mark).value, p, order)
  {
    var s', h, todo := Next(s, Mark).value, s.relay.todo[0], s.relay.todo;
    assert multiset(s.sent)[h] == Owed(s, h);
    assert forall i: nat ::
      CreatedAt(s'.rows, i) == CreatedAt(s.rows, i) && Chosen(s'.rows, p, i) == Chosen(s.rows, p, i);
    assert todo == [h] + todo[1..];
    forall j: nat ensures Done(s', j, order) <==> Done(s, j, order) || j == h {
    }
    forall i: nat, j: nat | Chosen(s'.rows, p, i) && Chosen(s'.rows, p, j) && Done(s', i, order) && !Done(s', j, order)
      ensures CreatedAt(s'.rows, i) <= CreatedAt(s'.rows, j)
    {
      if !Done(s, i, order) {
        HeadIsOldest(s, p, order, j);
      }
    }
    assert Todo(s') == todo[1..];
  }

  lemma AppendKeepsOrder(s: State, row: Row, p: Row -> bool, order: Order)
    requires Inv(s) && OrderInv(s, p, order) && Next(s, Append(row)).Some? && !Late(s, row, p, order)
    ensures OrderInv(Next(s, Append(row)).value, p, order)
  {
    var s', n := Next(s, Append(row)).value, |s.rows|;
    assert forall i: nat :: i < n ==>
      CreatedAt(s'.rows, i) == CreatedAt(s.rows, i) && Chosen(s'.rows, p, i) == Chosen(s.rows, p, i)
      && Done(s', i, order) == Done(s, i, order);
    forall i: nat | Done(s, i, order) || i in Todo(s) ensures i < n {
      if i in Todo(s) {
        var k :| 0 <= k < |Todo(s)| && Todo(s)[k] == i;
        assert IsUnpublished(s.rows, Todo(s)[k]);
      }
    }
    var f := Firsts(s.sent);
    forall a | 0 <= a < |f| ensures f[a] < n {
      FirstsMember(s.sent, f[a]);
    }
  }

  lemma StepKeepsOrder(s: State, step: Step, p: Row -> bool, order: Order)
    requires Inv(s) && OrderInv(s, p, order) && Next(s, step).Some?
    requires step.Append? ==> !Late(s, step.row, p, order)
    ensures OrderInv(Next(s, step).value, p, order)
  {
    match step {
      case Append(row) => AppendKeepsOrder(s, row, p, order);
      case Begin(batch) => BeginKeepsOrder(s, batch, p, order);
      case Add => AddKeepsOrder(s, step, p, order);
      case AddUnacknowledged => AddKeepsOrder(s, step, p, order);
      case Mark => MarkKeepsOrder(s, p, order);
      case _ =>
    }
  }

  lemma {:induction false} RelayKeepsOrder(s: State, more: seq<Step>, p: Row -> bool, order: Order)
    requires Inv(s) && OrderInv(s, p, order) && RelayOnly(more) && Run(s, more).Some?
    ensures OrderInv(Run(s, more).value, p, order)
    decreases |more|
  {
    if more != [] {
      StepKeepsInv(s, more[0]);
      StepKeepsOrder(s, more[0], p, order);
      RelayKeepsOrder(Next(s, more[0]).value, more[1..], p, order);
    }
  }

  lemma {:induction false} NoLateKeepsOrder(s: State, steps: seq<Step>, p: Row -> bool, order: Order)
    requires Inv(s) && OrderInv(s, p, order) && NoLateCommit(s, steps, p, order)
    ensures AlwaysOrdered(s, steps, p, order)
    decreases |steps|
  {
    forall more | RelayOnly(more) && Run(s, more).Some? ensures Ordered(Run(s, more).value, p, order) {
      RelayKeepsOrder(s, more, p, order);
    }
    if steps != [] && Next(s, steps[0]).Some? {
      StepKeepsInv(s, steps[0]);
      StepKeepsOrder(s, steps[0], p, order);
      NoLateKeepsOrder(Next(s, steps[0]).value, steps[1..], p, order);
    }
  }

  // -------------------------------------------------------- reading a batch

  function Unpublished(rows: seq<Stored>, from: nat): seq<nat>
    requires from <= |rows|
    decreases |rows| - from
  {
    if from == |rows| then []
    else (if rows[from].published then [] else [from]) + Unpublished(rows, from + 1)
  }

  function OlderFirst(rows: seq<Stored>): (nat, nat) -> bool {
    (i: nat, j: nat) => CreatedAt(rows, i) <= CreatedAt(rows, j)
  }

  function Cut<T>(s: seq<T>): seq<T> {
    if |s| <= BATCH_LIMIT then s else s[..BATCH_LIMIT]
  }

  lemma {:induction false} UnpublishedAre(rows: seq<Stored>, from: nat)
    requires from <= |rows|
    ensures forall i: nat :: i in Unpublished(rows, from) <==> from <= i && IsUnpublished(rows, i)
    ensures Distinct(Unpublished(rows, from))
    decreases |rows| - from
  {
    if from < |rows| {
      UnpublishedAre(rows, from + 1);
      var rest := Unpublished(rows, from + 1);
      forall k | 0 <= k < |rest| ensures from < rest[k] {
        assert rest[k] in rest;
      }
    }
  }

  lemma DistinctByCount(s: seq<nat>, t: seq<nat>)
    requires Distinct(s) && multiset(t) == multiset(s)
    ensures Distinct(t)
  {
    forall a, b | 0 <= a < b < |t| ensures t[a] != t[b] {
      if t[a] == t[b] {
        TwiceInSequence(t, a, b);
        CountsOnce(s, t[a]);
      }
    }
  }

  lemma {:induction false} CountsOnce(s: seq<nat>, x: nat)
    requires Distinct(s)
    ensures multiset(s)[x] <= 1
  {
    if s != [] {
      CountsOnce(s[1..], x);
      assert s == [s[0]] + s[1..];
      if s[0] == x {
        assert x !in s[1..];
      }
    }
  }

  lemma SortedUnpublished(rows: seq<Stored>) returns (sorted: seq<nat>)
    ensures sorted == StableSort(Unpublished(rows, 0), OlderFirst(rows))
    ensures forall j: nat :: j in sorted <==> IsUnpublished(rows, j)
    ensures Distinct(sorted) && ByCreation(rows, sorted)
  {
    var all, leq := Unpublished(rows, 0), OlderFirst(rows);
    sorted := StableSort(all, leq);
    UnpublishedAre(rows, 0);
    StableSortSorts(all, leq);
    DistinctByCount(all, sorted);
    forall a, b | 0 <= a < b < |sorted| ensures CreatedAt(rows, sorted[a]) <= CreatedAt(rows, sorted[b]) {
      assert leq(sorted[a], sorted[b]);
    }
  }

  lemma CutOldest(rows: seq<Stored>, sorted: seq<nat>, j: nat, k: nat)
    requires ByCreation(rows, sorted) && j in sorted && j !in Cut(sorted) && k < |Cut(sorted)|
    ensures CreatedAt(rows, Cut(sorted)[k]) <= CreatedAt(rows, j)
  {
    var m :| 0 <= m < |sorted| && sorted[m] == j;
    assert forall x :: 0 <= x < |Cut(sorted)| ==> sorted[x] == Cut(sorted)[x] && Cut(sorted)[x] in Cut(sorted);
    assert CreatedAt(rows, sorted[k]) <= CreatedAt(rows, sorted[m]);
  }

  lemma CutIsBatch(rows: seq<Stored>, sorted: seq<nat>)
    requires forall j: nat :: j in sorted <==> IsUnpublished(rows, j)
    requires Distinct(sorted) && ByCreation(rows, sorted)
    ensures IsBatch(rows, Cut(sorted))
  {
    var batch := Cut(sorted);
    forall k | 0 <= k < |batch| ensures IsUnpublished(rows, batch[k]) {
      assert sorted[k] in sorted;
    }
    forall j: nat, k | IsUnpublished(rows, j) && j !in batch && 0 <= k < |batch|
      ensures CreatedAt(rows, batch[k]) <= CreatedAt(rows, j)
    {
      CutOldest(rows, sorted, j, k);
    }
  }

  // Sorting what is unpublished and cutting it gives a batch.
  lemma SortedIsBatch(rows: seq<Stored>)
    ensures IsBatch(rows, Cut(StableSort(Unpublished(rows, 0), OlderFirst(rows))))
  {
    var sorted := SortedUnpublished(rows);
    CutIsBatch(rows, sorted);
  }

  // ------------------------------------------------------- nothing is stuck

  // The rows in `done`, and no other, became published, and no other was sent.
  ghost predicate Relays(s: State, s': State, done: seq<nat>) {
    && PublishedAlso(s.rows, s'.rows, done)
    && s.sent <= s'.sent
    && forall j :: j in s'.sent ==> j in s.sent || j in done
  }

  // Between the two tables exactly the rows in `done` became published.
  ghost predicate PublishedAlso(before: seq<Stored>, after: seq<Stored>, done: seq<nat>) {
    && |after| == |before|
    && forall i: nat :: i < |after| ==>
         after[i] == before[i].(published := before[i].published || i in done)
  }

  lemma PublishedBoth(a: seq<Stored>, b: seq<Stored>, c: seq<Stored>, x: seq<nat>, y: seq<nat>)
    requires PublishedAlso(a, b, x) && PublishedAlso(b, c, y)
    ensures PublishedAlso(a, c, x + y)
  {
  }

  lemma RelaysBoth(a: State, b: State, c: State, x: seq<nat>, y: seq<nat>)
    requires Relays(a, b, x) && Relays(b, c, y)
    ensures Relays(a, c, x + y)
  {
    PublishedBoth(a.rows, b.rows, c.rows, x, y);
  }

  lemma MarkHead(s: State)
    requires Inv(s) && s.relay.Marking?
    ensures Run(s, [Mark]).Some?
    ensures var s' := Run(s, [Mark]).value; var h := s.relay.todo[0];
      && Inv(s') && s'.relay == Sending(s.relay.todo[1..]) && Relays(s, s', [h])
      && PublishedCount(s'.rows) == PublishedCount(s.rows) + 1
  {
    MarkedLeavesRest(s);
    StepKeepsInv(s, Mark);
    assert [Mark][1..] == [];
    MarkedCount(s.rows, s.relay.todo[0]);
  }

  lemma AddHead(s: State)
    requires Inv(s) && s.relay.Adding?
    ensures Next(s, Add).Some?
    ensures var mid := Next(s, Add).value;
      && Inv(mid) && mid.relay == Marking(s.relay.todo) && mid.rows == s.rows
      && mid.sent == s.sent + [s.relay.todo[0]]
  {
    assert IsUnpublished(s.rows, s.relay.todo[0]);
    StepKeepsInv(s, Add);
  }

  lemma RelaysSent(s: State, mid: State, s': State, h: nat)
    requires mid.rows == s.rows && mid.sent == s.sent + [h] && Relays(mid, s', [h])
    ensures Relays(s, s', [h])
  {
    forall j | j in s'.sent ensures j in s.sent || j in [h] {
      assert j in mid.sent || j in [h];
    }
  }

  // One row further through the batch.
  lemma RelayHead(s: State) returns (more: seq<Step>)
    requires Inv(s) && !s.relay.Idle?
    ensures RelayOnly(more) && Run(s, more).Some?
    ensures var s' := Run(s, more).value; var h := s.relay.todo[0];
      && Inv(s') && s'.relay == Sending(s.relay.todo[1..]) && Relays(s, s', [h])
      && PublishedCount(s'.rows) == PublishedCount(s.rows) + 1
  {
    if s.relay.Marking? {
      MarkHead(s);
      more := [Mark];
    } else {
      AddHead(s);
      var mid := Next(s, Add).value;
      MarkHead(mid);
      more := [Add, Mark];
      assert more[1..] == [Mark];
      assert Run(s, more) == Run(mid, [Mark]);
      RelaysSent(s, mid, Run(mid, [Mark]).value, s.relay.todo[0]);
    }
  }

  lemma RelaysOn(s: State, first: seq<Step>, mid: State, rest: seq<Step>, end: State, x: seq<nat>, y: seq<nat>)
    requires RelayOnly(first) && RelayOnly(rest)
    requires Run(s, first) == Some(mid) && Run(mid, rest) == Some(end)
    requires Relays(s, mid, x) && Relays(mid, end, y)
    ensures RelayOnly(first + rest) && Run(s, first + rest) == Some(end) && Relays(s, end, x + y)
  {
    RunAppend(s, first, rest);
    RelaysBoth(s, mid, end, x, y);
  }

  lemma HeadThenRest(todo: seq<nat>, k: nat)
    requires 0 < k < |todo|
    ensures [todo[0]] + todo[1..][..k] == todo[..k+1]
  {
  }

  lemma {:induction false} RelayUpTo(s: State, k: nat) returns (more: seq<Step>)
    requires Inv(s) && k < |Todo(s)|
    ensures RelayOnly(more) && Run(s, more).Some?
    ensures var s' := Run(s, more).value; Inv(s') && Relays(s, s', Todo(s)[..k+1])
    decreases k
  {
    var todo := Todo(s);
    more := RelayHead(s);
    if k == 0 {
      assert todo[..1] == [todo[0]];
    } else {
      var mid := Run(s, more).value;
      var rest := RelayUpTo(mid, k - 1);
      HeadThenRest(todo, k);
      RelaysOn(s, more, mid, rest, Run(mid, rest).value, [todo[0]], todo[1..][..k]);
      more := more + rest;
    }
  }

  ghost predicate AllPublished(rows: seq<Stored>) {
    forall i :: 0 <= i < |rows| ==> rows[i].published
  }

  lemma {:induction false} UnpublishedLeft(rows: seq<Stored>)
    ensures PublishedCount(rows) == |rows| ==> AllPublished(rows)
  {
    if rows != [] {
      UnpublishedLeft(rows[..|rows|-1]);
    }
  }

  lemma BatchStarts(s: State) returns (batch: seq<nat>)
    requires Inv(s) && s.relay.Idle? && !AllPublished(s.rows)
    ensures Next(s, Begin(batch)).Some? && !Next(s, Begin(batch)).value.relay.Idle?
    ensures Inv(Next(s, Begin(batch)).value)
  {
    SortedIsBatch(s.rows);
    batch := Cut(StableSort(Unpublished(s.rows, 0), OlderFirst(s.rows)));
    var j :| 0 <= j < |s.rows| && !s.rows[j].published;
    assert IsUnpublished(s.rows, j);
    StepKeepsInv(s, Begin(batch));
  }

  lemma {:induction false} CanPublishAll(s: State) returns (more: seq<Step>)
    requires Inv(s)
    ensures RelayOnly(more) && Run(s, more).Some?
    ensures var s' := Run(s, more).value;
      && Inv(s') && AllPublished(s'.rows) && SameRows(s.rows, s'.rows) && |s'.rows| == |s.rows| && s.sent <= s'.sent
    decreases |s.rows| - PublishedCount(s.rows), if s.relay.Idle? then 1 else 0
  {
    if !s.relay.Idle? {
      var first := RelayHead(s);
      var mid := Run(s, first).value;
      var rest := CanPublishAll(mid);
      RunAppend(s, first, rest);
      return first + rest;
    }
    UnpublishedLeft(s.rows);
    if AllPublished(s.rows) {
      return [];
    }
    var batch := BatchStarts(s);
    var mid := Next(s, Begin(batch)).value;
    var rest := CanPublishAll(mid);
    assert ([Begin(batch)] + rest)[1..] == rest;
    return [Begin(batch)] + rest;
  }

  // From every state a run can reach, the relay can go on to publish every
  // row: no failure or late commit leaves a row behind for good.
  lemma EveryRowCanBePublished(steps: seq<Step>) returns (more: seq<Step>)
    requires Run(EMPTY, steps).Some?
    ensures RelayOnly(more) && Run(EMPTY, steps + more).Some?
    ensures var s, end := Run(EMPTY, steps).value, Run(EMPTY, steps + more).value;
      AllPublished(end.rows) && SameRows(s.rows, end.rows) && |end.rows| == |s.rows|
  {
    EmptyInv();
    RunKeepsInv(EMPTY, steps);
    more := CanPublishAll(Run(EMPTY, steps).value);
    RunAppend(EMPTY, steps, more);
  }

  // ------------------------------------------------ a late commit shows up

  lemma {:induction false} FirstsOfLonger(s: seq<nat>, t: seq<nat>)
    requires s <= t
    ensures Firsts(s) <= Firsts(t)
    decreases |t|
  {
    if |s| < |t| {
      FirstsOfLonger(s, t[..|t|-1]);
    } else {
      assert s == t;
    }
  }

  // Once i is sent before j, its first sending stays before that of j.
  lemma FirstSendingStays(s: seq<nat>, t: seq<nat>, i: nat, j: nat) returns (a: nat, b: nat)
    requires s <= t && i in s && j !in s && j in t
    ensures a < b < |Firsts(t)| && Firsts(t)[a] == i && Firsts(t)[b] == j
  {
    FirstsOfLonger(s, t);
    FirstsMember(s, i);
    FirstsMember(s, j);
    FirstsMember(t, j);
    a :| 0 <= a < |Firsts(s)| && Firsts(s)[a] == i;
    b :| 0 <= b < |Firsts(t)| && Firsts(t)[b] == j;
    assert forall x :: 0 <= x < |Firsts(s)| ==> Firsts(t)[x] == Firsts(s)[x] && Firsts(s)[x] in Firsts(s);
  }

  // A row already done, or in the batch, can be done before row j is.
  lemma DoneBefore(s: State, i: nat, j: nat, order: Order) returns (more: seq<Step>)
    requires Inv(s) && i < |s.rows| && (Done(s, i, order) || i in Todo(s))
    requires j < |s.rows| && !Done(s, j, order) && j !in s.sent && j !in Todo(s)
    ensures RelayOnly(more) && Run(s, more).Some?
    ensures var s' := Run(s, more).value;
      Inv(s') && SameRows(s.rows, s'.rows) && |s'.rows| == |s.rows| && Done(s', i, order) && !Done(s', j, order)
      && j !in s'.sent
  {
    if Done(s, i, order) {
      return [];
    }
    var todo := Todo(s);
    var k :| 0 <= k < |todo| && todo[k] == i;
    more := RelayUpTo(s, k);
    var s' := Run(s, more).value;
    assert i == todo[..k+1][k] && forall x :: x in todo[..k+1] ==> x in todo;
    PublishedWasSent(s', i, order);
  }

  // i done and j, which is older, not.
  ghost predicate OutOfTurn(s: State, p: Row -> bool, i: nat, j: nat) {
    Chosen(s.rows, p, i) && Chosen(s.rows, p, j) && CreatedAt(s.rows, j) < CreatedAt(s.rows, i)
  }

  lemma OutOfTurnStays(s: State, s': State, p: Row -> bool, i: nat, j: nat)
    requires OutOfTurn(s, p, i, j) && SameRows(s.rows, s'.rows)
    ensures OutOfTurn(s', p, i, j)
  {
  }

  lemma FirstsOutOfOrder(s: State, p: Row -> bool, i: nat, j: nat) returns (more: seq<Step>)
    requires Inv(s) && OutOfTurn(s, p, i, j) && i in s.sent && j !in s.sent
    ensures RelayOnly(more) && Run(s, more).Some? && !Ordered(Run(s, more).value, p, FirstSendings)
  {
    more := CanPublishAll(s);
    var end := Run(s, more).value;
    PublishedWasSent(end, j, FirstSendings);
    OutOfTurnStays(s, end, p, i, j);
    var a, b := FirstSendingStays(s.sent, end.sent, i, j);
  }

  lemma LateIsOutOfTurn(s: State, row: Row, p: Row -> bool, order: Order) returns (i: nat)
    requires Inv(s) && Next(s, Append(row)).Some? && Late(s, row, p, order)
    ensures var s', j := Next(s, Append(row)).value, |s.rows|;
      && Inv(s') && OutOfTurn(s', p, i, j) && (Done(s', i, order) || i in Todo(s'))
      && !Done(s', j, order) && j !in s'.sent && j !in Todo(s')
  {
    StepKeepsInv(s, Append(row));
    i :| Chosen(s.rows, p, i) && (Done(s, i, order) || i in Todo(s)) && row.createdAt < CreatedAt(s.rows, i);
    NotYetThere(s);
  }

  lemma TurnedOutWrong(s: State, more: seq<Step>, p: Row -> bool, order: Order)
    requires RelayOnly(more) && Run(s, more).Some? && !Ordered(Run(s, more).value, p, order)
    ensures !StaysOrdered(s, p, order)
  {
  }

  lemma NotPrefix(s: State, p: Row -> bool, order: Order, i: nat, j: nat)
    requires OutOfTurn(s, p, i, j) && Done(s, i, order) && !Done(s, j, order)
    ensures !DoneIsPrefix(s, p, order)
  {
  }

  lemma LateShows(s: State, row: Row, p: Row -> bool, order: Order)
    requires Inv(s) && Next(s, Append(row)).Some? && Late(s, row, p, order)
    ensures !StaysOrdered(Next(s, Append(row)).value, p, order)
  {
    var i := LateIsOutOfTurn(s, row, p, order);
    DoneOutOfTurn(Next(s, Append(row)).value, p, order, i, |s.rows|);
  }

  lemma DoneOutOfTurn(s: State, p: Row -> bool, order: Order, i: nat, j: nat)
    requires Inv(s) && OutOfTurn(s, p, i, j) && (Done(s, i, order) || i in Todo(s))
    requires !Done(s, j, order) && j !in s.sent && j !in Todo(s)
    ensures !StaysOrdered(s, p, order)
  {
    var more := DoneBefore(s, i, j, order);
    var mid := Run(s, more).value;
    OutOfTurnStays(s, mid, p, i, j);
    if order.FirstSendings? {
      var rest := FirstsOutOfOrder(mid, p, i, j);
      RunAppend(s, more, rest);
      TurnedOutWrong(s, more + rest, p, order);
    } else {
      NotPrefix(mid, p, order, i, j);
      TurnedOutWrong(s, more, p, order);
    }
  }

  lemma NotYetThere(s: State)
    requires Inv(s)
    ensures |s.rows| !in s.sent && |s.rows| !in Todo(s)
  {
    forall k | 0 <= k < |Todo(s)| ensures Todo(s)[k] < |s.rows| {
      assert IsUnpublished(s.rows, Todo(s)[k]);
    }
  }

  lemma {:induction false} OrderMeansNoLate(s: State, steps: seq<Step>, p: Row -> bool, order: Order)
    requires Inv(s) && Run(s, steps).Some? && AlwaysOrdered(s, steps, p, order)
    ensures NoLateCommit(s, steps, p, order)
    decreases |steps|
  {
    if steps != [] {
      var s' := Next(s, steps[0]).value;
      StepKeepsInv(s, steps[0]);
      OrderMeansNoLate(s', steps[1..], p, order);
      assert StaysOrdered(s', p, order);
      if steps[0].Append? && Late(s, steps[0].row, p, order) {
        LateShows(s, steps[0].row, p, order);
      }
    }
  }

  // Whatever rows one looks at and whatever order one asks for, the relay keeps
  // it over a run, and can be relied on to keep it, exactly if no transaction
  // of the run commits a row created before one that is already relayed or in
  // the batch being relayed.
  lemma OutboxOrderIff(steps: seq<Step>, p: Row -> bool, order: Order)
    requires Run(EMPTY, steps).Some?
    ensures AlwaysOrdered(EMPTY, steps, p, order) <==> NoLateCommit(EMPTY, steps, p, order)
  {
    EmptyInv();
    if NoLateCommit(EMPTY, steps, p, order) {
      NoLateKeepsOrder(EMPTY, steps, p, order);
    } else if AlwaysOrdered(EMPTY, steps, p, order) {
      OrderMeansNoLate(EMPTY, steps, p, order);
    }
  }

  function OfKey(key: string): Row -> bool {
    (r: Row) => KeyOf(r) == key
  }

  function AnyRow(): Row -> bool {
    (r: Row) => true
  }

  function KeyedOlder(rows: seq<Stored>, key: string): (nat, nat) -> bool {
    (i: nat, j: nat) => OnStream(rows, key, i) && OnStream(rows, key, j) ==> CreatedAt(rows, i) <= CreatedAt(rows, j)
  }

  // The rows of one stream in the order they were first sent.
  lemma KeyedInOrder(s: State, key: string)
    requires InCreationOrder(s.rows, OfKey(key), Firsts(s.sent))
    ensures ByCreation(s.rows, Filter<nat>(Firsts(s.sent), OnKey(s.rows, key)))
  {
    var f, leq := Firsts(s.sent), KeyedOlder(s.rows, key);
    assert Sorted(f, leq);
    FilterSorted<nat>(f, leq, OnKey(s.rows, key));
    var kept := Filter<nat>(f, OnKey(s.rows, key));
    forall a, b | 0 <= a < b < |kept| ensures CreatedAt(s.rows, kept[a]) <= CreatedAt(s.rows, kept[b]) {
      FilterMember<nat>(f, OnKey(s.rows, key), kept[a]);
      FilterMember<nat>(f, OnKey(s.rows, key), kept[b]);
      assert leq(kept[a], kept[b]);
    }
  }

  // Each stream holds the entries of its own rows only, in the order `indices`
  // they were sent, all its published rows among them; and if none of its rows
  // was committed late, then with repetitions dropped they stand in the order
  // of creation.
  lemma StreamsKeepOutboxOrder(steps: seq<Step>, key: string) returns (indices: seq<nat>)
    requires Run(EMPTY, steps).Some?
    ensures var s := Run(EMPTY, steps).value;
      && InBounds(indices, s.rows)
      && StreamAt(s.streams, key) == EntriesInOrder(s.rows, indices)
      && (forall i: nat :: i in indices ==> OnStream(s.rows, key, i))
      && (forall i: nat :: OnStream(s.rows, key, i) && s.rows[i].published ==> i in indices)
      && (NoLateCommit(EMPTY, steps, OfKey(key), FirstSendings) ==> ByCreation(s.rows, Firsts(indices)))
  {
    EmptyInv();
    RunKeepsInv(EMPTY, steps);
    var s := Run(EMPTY, steps).value;
    indices := Filter<nat>(s.sent, OnKey(s.rows, key));
    EntriesAreFiltered(s.rows, s.sent, key);
    StreamMembers(s, key);
    if NoLateCommit(EMPTY, steps, OfKey(key), FirstSendings) {
      NoLateOrdered(EMPTY, steps, OfKey(key), FirstSendings);
      KeyedInOrder(s, key);
      FirstsFiltered(s.sent, OnKey(s.rows, key));
    }
  }

  lemma StreamMembers(s: State, key: string)
    requires Inv(s)
    ensures var indices := Filter<nat>(s.sent, OnKey(s.rows, key));
      && (forall i: nat :: i in indices ==> OnStream(s.rows, key, i))
      && (forall i: nat :: OnStream(s.rows, key, i) && s.rows[i].published ==> i in indices)
  {
    var indices := Filter<nat>(s.sent, OnKey(s.rows, key));
    forall i: nat ensures i in indices <==> i in s.sent && OnStream(s.rows, key, i) {
      FilterMember<nat>(s.sent, OnKey(s.rows, key), i);
    }
    forall i: nat | OnStream(s.rows, key, i) && s.rows[i].published ensures i in indices {
      PublishedWasSent(s, i, FirstSendings);
    }
  }

  lemma {:induction false} NoLateOrdered(s: State, steps: seq<Step>, p: Row -> bool, order: Order)
    requires Inv(s) && OrderInv(s, p, order) && NoLateCommit(s, steps, p, order) && Run(s, steps).Some?
    ensures Ordered(Run(s, steps).value, p, order)
    decreases |steps|
  {
    if steps != [] {
      StepKeepsInv(s, steps[0]);
      StepKeepsOrder(s, steps[0], p, order);
      NoLateOrdered(Next(s, steps[0]).value, steps[1..], p, order);
    }
  }

  // With no late commit the published rows are a prefix of the outbox in
  // created_at order.
  lemma PublishedIsPrefix(steps: seq<Step>)
    requires Run(EMPTY, steps).Some? && NoLateCommit(EMPTY, steps, AnyRow(), PublishedFirst)
    ensures var s := Run(EMPTY, steps).value;
      forall i, j :: 0 <= i < |s.rows| && 0 <= j < |s.rows| && s.rows[i].published && !s.rows[j].published ==>
        s.rows[i].row.createdAt <= s.rows[j].row.createdAt
  {
    EmptyInv();
    NoLateOrdered(EMPTY, steps, AnyRow(), PublishedFirst);
    var s := Run(EMPTY, steps).value;
    forall i, j | 0 <= i < |s.rows| && 0 <= j < |s.rows| && s.rows[i].published && !s.rows[j].published
      ensures s.rows[i].row.createdAt <= s.rows[j].row.createdAt
    {
      assert Chosen(s.rows, AnyRow(), i) && Chosen(s.rows, AnyRow(), j);
    }
  }

  // A fault-free batch of one row.
  function RelayRowSteps(i: nat): seq<Step> {
    [Begin([i]), Add, Mark]
  }

  lemma RunAppendOne(s: State, row: Row)
    requires FreshId(s.rows, row.id)
    ensures Run(s, [Append(row)]) == Some(s.(rows := s.rows + [Stored(row, false)]))
  {
    assert [Append(row)][1..] == [];
  }

  lemma RunThree(s: State, a: Step, b: Step, c: Step, s1: State, s2: State)
    requires Next(s, a) == Some(s1) && Next(s1, b) == Some(s2) && Next(s2, c).Some?
    ensures Run(s, [a, b, c]) == Next(s2, c)
  {
    assert [a, b, c][1..] == [b, c] && [b, c][1..] == [c] && [c][1..] == [];
    assert Run(s2, [c]) == Next(s2, c);
    assert Run(s1, [b, c]) == Run(s2, [c]);
  }

  lemma AddOne(s: State, i: nat)
    requires s.relay == Adding([i]) && i < |s.rows|
    ensures Next(s, Add) == Some(Sent(s, i).(relay := Marking([i])))
  {
  }

  lemma MarkOne(s: State, i: nat)
    requires s.relay == Marking([i]) && i < |s.rows|
    ensures Next(s, Mark) == Some(s.(rows := Marked(s.rows, i), relay := Idle))
  {
    assert [i][1..] == [];
  }

  lemma RelayOne(s: State, i: nat)
    requires s.relay == Idle && i < |s.rows| && IsBatch(s.rows, [i])
    ensures Run(s, RelayRowSteps(i)) == Some(Sent(s, i).(rows := Marked(s.rows, i)))
  {
    var s1 := s.(relay := Adding([i]));
    AddOne(s1, i);
    var s2 := Next(s1, Add).value;
    MarkOne(s2, i);
    RunThree(s, Begin([i]), Add, Mark, s1, s2);
  }

  lemma OnlyUnpublished(rows: seq<Stored>, i: nat)
    requires IsUnpublished(rows, i) && forall j: nat :: IsUnpublished(rows, j) ==> j == i
    ensures IsBatch(rows, [i])
  {
  }

  // A transaction that began first and commits last: its older row is still
  // unpublished when the newer one is on the stream, and follows it there.
  lemma LateCommitBreaksOrder(newer: Row, older: Row) returns (steps: seq<Step>)
    requires newer.id != older.id && older.createdAt < newer.createdAt
    ensures Run(EMPTY, steps).Some? && !NoLateCommit(EMPTY, steps, AnyRow(), PublishedFirst)
    ensures var s := Run(EMPTY, steps).value;
      && s.rows == [Stored(newer, true), Stored(older, false)]
      && Run(s, RelayRowSteps(1)).Some? && Run(s, RelayRowSteps(1)).value.sent == [0, 1]
  {
    RunAppendOne(EMPTY, newer);
    var s1 := Run(EMPTY, [Append(newer)]).value;
    assert s1.rows == [Stored(newer, false)];
    OnlyUnpublished(s1.rows, 0);
    RelayOne(s1, 0);
    var s2 := Run(s1, RelayRowSteps(0)).value;
    assert s2.rows == [Stored(newer, true)] && s2.sent == [0];
    RunAppendOne(s2, older);
    var s3 := Run(s2, [Append(older)]).value;
    assert s3.rows == [Stored(newer, true), Stored(older, false)];
    steps := [Append(newer)] + (RelayRowSteps(0) + [Append(older)]);
    RunAppend(EMPTY, [Append(newer)], RelayRowSteps(0) + [Append(older)]);
    RunAppend(s1, RelayRowSteps(0), [Append(older)]);
    OnlyUnpublished(s3.rows, 1);
    RelayOne(s3, 1);
    assert s3.rows[0].published && !s3.rows[1].published;
    if NoLateCommit(EMPTY, steps, AnyRow(), PublishedFirst) {
      PublishedIsPrefix(steps);
    }
  }

  // ------------------------------------------------------------- the relay

  // What the environment does to each row of a batch.
  datatype Fault = Fine | FailsBeforeAdd | FailsAfterAdd | FailsToMark

  class Relayer {
    var rows: seq<Stored>
    var streams: map<string, seq<Entry>>
    ghost var sent: seq<nat>
    ghost var lost: multiset<nat>

    constructor ()
      ensures Now() == EMPTY
    {
      rows, streams, sent, lost := [], map[], [], multiset{};
    }

    ghost function Now(): State
      reads this
    {
      State(rows, streams, Idle, sent, lost)
    }

    method XAdd(i: nat)
      requires i < |rows|
      modifies this`streams, this`sent
      ensures Now() == Sent(old(Now()), i)
    {
      var r := rows[i].row;
      var key := StreamKey(r.workspaceId, EntityTypeFromTopic(r.topic));
      streams := streams[key := (if key in streams then streams[key] else []) + [EntryOf(r)]];
      sent := sent + [i];
    }

    // One row of a batch: add it, then mark it.
    method RelayRow(todo: seq<nat>, fault: Fault) returns (ok: bool, ghost steps: seq<Step>)
      requires todo != [] && InBounds(todo, rows)
      modifies this
      ensures ok <==> fault == Fine
      ensures Run(old(Now()).(relay := Adding(todo)), steps)
        == Some(Now().(relay := if ok then Sending(todo[1..]) else Idle))
      ensures PublishedAlso(old(rows), rows, if ok then [todo[0]] else [])
    {
      ghost var before := Now().(relay := Adding(todo));
      if fault == FailsBeforeAdd {
        RunOne(before, [], before, AddFails);
        return false, [] + [AddFails];
      }
      XAdd(todo[0]);
      if fault == FailsAfterAdd {
        lost := lost + multiset{todo[0]};
        RunOne(before, [], before, AddUnacknowledged);
        return false, [] + [AddUnacknowledged];
      }
      ghost var added := Now().(relay := Marking(todo));
      RunOne(before, [], before, Add);
      if fault == FailsToMark {
        lost := lost + multiset{todo[0]};
        RunOne(before, [] + [Add], added, MarkFails);
        return false, [] + [Add] + [MarkFails];
      }
      rows := rows[todo[0] := rows[todo[0]].(published := true)];
      RunOne(before, [] + [Add], added, Mark);
      return true, [] + [Add] + [Mark];
    }

    // The batch query.
    method Query() returns (todo: seq<nat>)
      ensures IsBatch(rows, todo)
      ensures |todo| == 100 || (|todo| < 100 && forall j :: 0 <= j < |rows| ==> rows[j].published || j in todo)
    {
      SortedIsBatch(rows);
      todo := StableSort(Unpublished(rows, 0), OlderFirst(rows));
      if |todo| > BATCH_LIMIT {
        todo := todo[..BATCH_LIMIT];
      }
    }

    // One batch; `trace` is the run of machine steps it amounts to. A batch
    // succeeds exactly when nothing fails, and then every row it read is
    // published and no other.
    method RelayBatch(faults: nat -> Fault) returns (ok: bool, ghost todo: seq<nat>, ghost trace: seq<Step>)
      modifies this
      ensures IsBatch(old(rows), todo)
      ensures Run(old(Now()), trace) == Some(Now())
      ensures ok <==> forall i :: 0 <= i < |todo| ==> faults(i) == Fine
      ensures ok ==> PublishedAlso(old(rows), rows, todo)
    {
      var batch := Query();
      todo := batch;
      trace := [Begin(batch)];
      ghost var start := Now();
      BatchBegins(start, batch);
      for i := 0 to |batch|
        invariant Relayed(start, Now(), trace, batch, i)
        invariant forall j :: 0 <= j < i ==> faults(j) == Fine
      {
        ghost var steps;
        ghost var before := Now();
        RestToDo(start, before, trace, batch, i);
        ok, steps := RelayRow(batch[i..], faults(i));
        if !ok {
          BatchEnds(start, before, Now(), trace, steps, batch, i);
          return false, batch, trace + steps;
        }
        RelayedOneMore(start, before, Now(), trace, steps, batch, i);
        trace := trace + steps;
      }
      BatchDone(start, Now(), trace, batch);
      return true, batch, trace;
    }
  }

  // The batch so far: the first i of its rows are published, the rest to do.
  ghost predicate Relayed(start: State, now: State, trace: seq<Step>, todo: seq<nat>, i: nat) {
    && i <= |todo| && InBounds(todo, now.rows)
    && Run(start, trace) == Some(now.(relay := Sending(todo[i..])))
    && PublishedAlso(start.rows, now.rows, todo[..i])
  }

  lemma BatchBegins(start: State, todo: seq<nat>)
    requires start.relay == Idle && IsBatch(start.rows, todo)
    ensures Relayed(start, start, [Begin(todo)], todo, 0)
  {
    assert [Begin(todo)][1..] == [] && todo[0..] == todo && todo[..0] == [];
    forall k | 0 <= k < |todo| ensures todo[k] < |start.rows| {
      assert IsUnpublished(start.rows, todo[k]);
    }
  }

  lemma RestToDo(start: State, now: State, trace: seq<Step>, todo: seq<nat>, i: nat)
    requires i < |todo| && Relayed(start, now, trace, todo, i)
    ensures todo[i..] != [] && InBounds(todo[i..], now.rows) && Sending(todo[i..]) == Adding(todo[i..])
  {
  }

  lemma BatchDone(start: State, now: State, trace: seq<Step>, todo: seq<nat>)
    requires Relayed(start, now, trace, todo, |todo|) && now.relay == Idle
    ensures Run(start, trace) == Some(now) && PublishedAlso(start.rows, now.rows, todo)
  {
    TakeAll(todo);
    assert todo[|todo|..] == [];
  }

  lemma BatchEnds(start: State, before: State, after: State, trace: seq<Step>, steps: seq<Step>, todo: seq<nat>, i: nat)
    requires i < |todo| && Relayed(start, before, trace, todo, i)
    requires Run(before.(relay := Adding(todo[i..])), steps) == Some(after)
    requires before.(relay := Adding(todo[i..])) == before.(relay := Sending(todo[i..]))
    ensures Run(start, trace + steps) == Some(after)
  {
    RunAppend(start, trace, steps);
  }

  lemma RelayedOneMore(start: State, before: State, after: State, trace: seq<Step>, steps: seq<Step>, todo: seq<nat>,
      i: nat)
    requires i < |todo| && Relayed(start, before, trace, todo, i)
    requires Run(before.(relay := Adding(todo[i..])), steps) == Some(after.(relay := Sending(todo[i..][1..])))
    requires PublishedAlso(before.rows, after.rows, [todo[i..][0]])
    ensures Relayed(start, after, trace + steps, todo, i + 1)
  {
    assert todo[i..][0] == todo[i] && todo[i..][1..] == todo[i+1..];
    TakeStep(todo, i);
    RunAppend(start, trace, steps);
    PublishedBoth(start.rows, before.rows, after.rows, todo[..i], [todo[i]]);
  }

  lemma RunOne(start: State, trace: seq<Step>, mid: State, step: Step)
    requires Run(start, trace) == Some(mid) && Next(mid, step).Some?
    ensures Run(start, trace + [step]) == Next(mid, step)
  {
    RunAppend(start, trace, [step]);
    assert [step][1..] == [];
  }
}
