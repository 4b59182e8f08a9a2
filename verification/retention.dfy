// evaluator.go and erasure.go: the nightly retention sweep of one workspace.
// It first selects every record its policies apply to and then archives,
// anonymizes or erases them one by one.
module Retention {
  import opened Wrappers
  import opened Sequences

  datatype Object = Lead | Person | Deal | Activity | Organization | OtherObject(name: string)

  datatype Category = NoCategory | Unconverted | Transcript | NoConsentNoDeal | LostDeal | OtherCategory(name: string)

  datatype Action = Archive | Anonymize | Erase

  datatype Policy = Policy(entity: Object, category: Category, retainDays: int, action: Action)

  // A selected record and what its policy does to it.
  datatype Item = Item(entity: Object, action: Action, id: nat)

  // The personal columns of each table.
  datatype LeadPii = LeadPii(
    fullName: Option<string>, email: Option<string>, title: Option<string>,
    companyName: Option<string>, candidateOrgKey: Option<string>, raw: Option<string>)

  // A person's name, or what replaces it.
  datatype FullName = Named(text: string) | AnonymizedMark | ErasedMark

  // No social links is the empty JSON object.
  datatype PersonPii = PersonPii(
    firstName: Option<string>, lastName: Option<string>, fullName: FullName, title: Option<string>,
    social: Option<string>, address: Option<string>, raw: Option<string>)

  datatype ActivityPii = ActivityPii(subject: Option<string>, body: Option<string>, raw: Option<string>)

  datatype LeadRow = LeadRow(pii: LeadPii, promoted: bool, hold: bool, archived: bool, updatedAt: int)

  datatype PersonRow = PersonRow(pii: PersonPii, leadId: Option<nat>, consented: bool, hold: bool, archived: bool,
      updatedAt: int)

  datatype ActivityRow = ActivityRow(pii: ActivityPii, transcript: bool, archived: bool, updatedAt: int)

  datatype DealRow = DealRow(raw: Option<string>, lost: bool, hold: bool, archived: bool, updatedAt: int)

  datatype AuditRow = AuditRow(action: Action, entity: Object, id: nat)

  // One workspace. links pairs activities with persons and dealLinks
  // activities with deals.
  datatype Db = Db(
    rows: Rows, emails: map<nat, set<string>>, links: set<(nat, nat)>, dealLinks: set<(nat, nat)>,
    embeddings: set<(Object, nat)>, suppressed: set<string>, audit: seq<AuditRow>)

  datatype Rows = Rows(
    leads: map<nat, LeadRow>, persons: map<nat, PersonRow>, activities: map<nat, ActivityRow>,
    deals: map<nat, DealRow>, organizations: map<nat, bool>)

  datatype SweepError = UnsupportedAction(item: Item)

  const BLANK_LEAD := LeadPii(None, None, None, None, None, None)
  const BLANK_ACTIVITY := ActivityPii(None, None, None)

  function BlankPerson(mark: FullName): PersonPii {
    PersonPii(None, None, mark, None, None, None, None)
  }

  // Nothing left but one of the two markers.
  predicate IsBlankPerson(p: PersonPii) {
    p == BlankPerson(AnonymizedMark) || p == BlankPerson(ErasedMark)
  }

  function Emails(db: Db, person: nat): set<string> {
    if person in db.emails then db.emails[person] else {}
  }

  // ------------------------------------------------------------- selection

  const DAY := 24 * 3600

  predicate LinkedToDeal(db: Db, person: nat) {
    exists l, d :: l in db.links && d in db.dealLinks && l.1 == person && l.0 == d.0
  }

  // The record is over age under the policy and in its category.
  predicate Selects(db: Db, p: Policy, now: int, k: nat) {
    var cutoff := now - p.retainDays * DAY;
    match (p.entity, p.category)
    case (Lead, Unconverted) =>
      k in db.rows.leads && !db.rows.leads[k].promoted && !db.rows.leads[k].hold && !db.rows.leads[k].archived
        && db.rows.leads[k].updatedAt < cutoff
    case (Activity, NoCategory) =>
      k in db.rows.activities && !db.rows.activities[k].archived && db.rows.activities[k].updatedAt < cutoff
    case (Activity, Transcript) =>
      k in db.rows.activities && db.rows.activities[k].transcript && !db.rows.activities[k].archived
        && db.rows.activities[k].updatedAt < cutoff
    case (Person, NoConsentNoDeal) =>
      k in db.rows.persons && !db.rows.persons[k].hold && !db.rows.persons[k].archived
        && db.rows.persons[k].updatedAt < cutoff
      && !db.rows.persons[k].consented && !LinkedToDeal(db, k)
    case (Deal, LostDeal) =>
      k in db.rows.deals && db.rows.deals[k].lost && !db.rows.deals[k].hold && !db.rows.deals[k].archived
        && db.rows.deals[k].updatedAt < cutoff
    case _ => false
  }

  // --------------------------------------------------------------- actions

  function PersonErase(it: Item): bool {
    it.entity == Person && it.action == Erase
  }

  predicate Supported(it: Item) {
    match it.action
    case Archive => !it.entity.OtherObject?
    case Anonymize => it.entity in {Lead, Person}
    case Erase => it.entity in {Person, Activity}
  }

  predicate LinkedDeal(db: Db, person: nat, deal: nat) {
    exists l :: l in db.links && l.1 == person && (l.0, deal) in db.dealLinks
  }

  function LeadOf(db: Db, person: nat): Option<nat> {
    if person in db.rows.persons then db.rows.persons[person].leadId else None
  }

  // The subject's own embedding and those of records reached from it.
  predicate SubjectEmbedding(db: Db, person: nat, e: (Object, nat)) {
    || e == (Person, person)
    || (e.0 == Lead && LeadOf(db, person) == Some(e.1))
    || (e.0 == Activity && (e.1, person) in db.links)
    || (e.0 == Deal && LinkedDeal(db, person, e.1))
  }

  // UPDATE ... WHERE id: no row, no effect.
  function BlankLead(leads: map<nat, LeadRow>, id: nat): map<nat, LeadRow> {
    if id in leads then leads[id := leads[id].(pii := BLANK_LEAD)] else leads
  }

  function BlankPersonRow(persons: map<nat, PersonRow>, id: nat, mark: FullName): map<nat, PersonRow> {
    if id in persons then persons[id := persons[id].(pii := BlankPerson(mark))] else persons
  }

  function BlankActivities(activities: map<nat, ActivityRow>, ids: set<nat>): (r: map<nat, ActivityRow>)
    ensures r.Keys == activities.Keys
    ensures forall k :: k in activities ==>
      r[k] == if k in ids then activities[k].(pii := BLANK_ACTIVITY) else activities[k]
  {
    map k | k in activities :: if k in ids then activities[k].(pii := BLANK_ACTIVITY) else activities[k]
  }

  function BlankDeals(deals: map<nat, DealRow>, ids: set<nat>): (r: map<nat, DealRow>)
    ensures r.Keys == deals.Keys
    ensures forall k :: k in deals ==> r[k] == if k in ids then deals[k].(raw := None) else deals[k]
  {
    map k | k in deals :: if k in ids then deals[k].(raw := None) else deals[k]
  }

  function ActivitiesOf(db: Db, person: nat): (r: set<nat>)
    ensures forall k :: k in r <==> (k, person) in db.links
  {
    set l | l in db.links && l.1 == person :: l.0
  }

  function DealsOf(db: Db, person: nat): (r: set<nat>)
    ensures forall k :: k in r <==> LinkedDeal(db, person, k)
  {
    set d | d in db.dealLinks && (d.0, person) in db.links :: d.1
  }

  // Erase: emails are read before their rows go, to be suppressed after.
  function ErasePerson(db: Db, p: nat): Db {
    db.(rows := EraseRows(db.rows, p, LeadOf(db, p), ActivitiesOf(db, p), DealsOf(db, p)),
        emails := db.emails - {p},
        embeddings := (set e | e in db.embeddings && !SubjectEmbedding(db, p, e)),
        suppressed := db.suppressed + Emails(db, p))
  }

  function EraseRows(rows: Rows, p: nat, lead: Option<nat>, activities: set<nat>, deals: set<nat>): Rows {
    rows.(persons := BlankPersonRow(rows.persons, p, ErasedMark),
          leads := if lead.Some? then BlankLead(rows.leads, lead.value) else rows.leads,
          activities := BlankActivities(rows.activities, activities),
          deals := BlankDeals(rows.deals, deals))
  }

  function ArchiveRow(rows: Rows, o: Object, id: nat): Rows {
    match o
    case Lead => if id in rows.leads then rows.(leads := rows.leads[id := rows.leads[id].(archived := true)]) else rows
    case Deal => if id in rows.deals then rows.(deals := rows.deals[id := rows.deals[id].(archived := true)]) else rows
    case Person =>
      if id in rows.persons then rows.(persons := rows.persons[id := rows.persons[id].(archived := true)]) else rows
    case Organization =>
      if id in rows.organizations then rows.(organizations := rows.organizations[id := true]) else rows
    case Activity =>
      if id in rows.activities
      then rows.(activities := rows.activities[id := rows.activities[id].(archived := true)]) else rows
    case OtherObject(_) => rows
  }

  function AnonymizeRow(rows: Rows, o: Object, id: nat): Rows {
    match o
    case Lead => rows.(leads := BlankLead(rows.leads, id))
    case Person => rows.(persons := BlankPersonRow(rows.persons, id, AnonymizedMark))
    case _ => rows
  }

  function EraseActivity(rows: Rows, id: nat): Rows {
    if id in rows.activities
    then rows.(activities := rows.activities[id := rows.activities[id].(pii := BLANK_ACTIVITY, archived := true)])
    else rows
  }

  // One record changed in place, by every action but a person's erasure.
  function ChangeRow(rows: Rows, it: Item): Rows {
    match it.action
    case Archive => ArchiveRow(rows, it.entity, it.id)
    case Anonymize => AnonymizeRow(rows, it.entity, it.id)
    case Erase => EraseActivity(rows, it.id)
  }

  // The change itself, before its audit row.
  function Change(db: Db, it: Item): Db {
    if PersonErase(it) then ErasePerson(db, it.id) else db.(rows := ChangeRow(db.rows, it))
  }

  // One action in its own transaction, with its audit row.
  function Act(db: Db, it: Item): Db {
    Change(db, it).(audit := db.audit + [AuditRow(it.action, it.entity, it.id)])
  }

  // All actions in order. The first unsupported one ends the sweep; what came
  // before it stays.
  function Sweep(db: Db, items: seq<Item>): (Db, Option<SweepError>) {
    if items == [] then (db, None)
    else
      var (before, failed) := Sweep(db, items[..|items| - 1]);
      var it := items[|items| - 1];
      if failed.Some? then (before, failed)
      else if !Supported(it) then (before, Some(UnsupportedAction(it)))
      else (Act(before, it), None)
  }

  // -------------------------------------------------- what a sweep amounts to

  function BlanksLead(db: Db, k: nat): Item -> bool {
    (it: Item) => it == Item(Lead, Anonymize, k) || (PersonErase(it) && LeadOf(db, it.id) == Some(k))
  }

  function BlanksPerson(k: nat): Item -> bool {
    (it: Item) => it.entity == Person && it.id == k && it.action != Archive
  }

  function BlanksActivity(db: Db, k: nat): Item -> bool {
    (it: Item) => it == Item(Activity, Erase, k) || (PersonErase(it) && (k, it.id) in db.links)
  }

  function BlanksDeal(db: Db, k: nat): Item -> bool {
    (it: Item) => PersonErase(it) && LinkedDeal(db, it.id, k)
  }

  function Archives(o: Object, k: nat): Item -> bool {
    (it: Item) => it == Item(o, Archive, k) || (o == Activity && it == Item(Activity, Erase, k))
  }

  function ErasesPerson(k: nat): Item -> bool {
    (it: Item) => PersonErase(it) && it.id == k
  }

  function RemovesEmbedding(db: Db, e: (Object, nat)): Item -> bool {
    (it: Item) => PersonErase(it) && SubjectEmbedding(db, it.id, e)
  }

  function Suppresses(db: Db, m: string): Item -> bool {
    (it: Item) => PersonErase(it) && m in Emails(db, it.id)
  }

  ghost predicate Any(items: seq<Item>, p: Item -> bool) {
    exists it :: it in items && p(it)
  }

  lemma AnySnoc(items: seq<Item>, it: Item, p: Item -> bool)
    ensures Any(items + [it], p) <==> Any(items, p) || p(it)
  {
    assert it in items + [it];
    if Any(items, p) {
      var x :| x in items && p(x);
      assert x in items + [it];
    }
  }

  ghost predicate LeadSwept(db: Db, items: seq<Item>, r: Db, k: nat) {
    k in db.rows.leads && k in r.rows.leads && r.rows.leads[k] == db.rows.leads[k].(
      pii := if Any(items, BlanksLead(db, k)) then BLANK_LEAD else db.rows.leads[k].pii,
      archived := db.rows.leads[k].archived || Any(items, Archives(Lead, k)))
  }

  ghost predicate PersonSwept(db: Db, items: seq<Item>, r: Db, k: nat) {
    && k in db.rows.persons && k in r.rows.persons
    && r.rows.persons[k] == db.rows.persons[k].(
         pii := r.rows.persons[k].pii, archived := db.rows.persons[k].archived || Any(items, Archives(Person, k)))
    && (if Any(items, BlanksPerson(k)) then IsBlankPerson(r.rows.persons[k].pii)
        else r.rows.persons[k].pii == db.rows.persons[k].pii)
  }

  ghost predicate ActivitySwept(db: Db, items: seq<Item>, r: Db, k: nat) {
    k in db.rows.activities && k in r.rows.activities && r.rows.activities[k] == db.rows.activities[k].(
      pii := if Any(items, BlanksActivity(db, k)) then BLANK_ACTIVITY else db.rows.activities[k].pii,
      archived := db.rows.activities[k].archived || Any(items, Archives(Activity, k)))
  }

  ghost predicate DealSwept(db: Db, items: seq<Item>, r: Db, k: nat) {
    k in db.rows.deals && k in r.rows.deals && r.rows.deals[k] == db.rows.deals[k].(
      raw := if Any(items, BlanksDeal(db, k)) then None else db.rows.deals[k].raw,
      archived := db.rows.deals[k].archived || Any(items, Archives(Deal, k)))
  }

  ghost predicate OrganizationSwept(db: Db, items: seq<Item>, r: Db, k: nat) {
    k in db.rows.organizations && k in r.rows.organizations
    && r.rows.organizations[k] == (db.rows.organizations[k] || Any(items, Archives(Organization, k)))
  }

  ghost predicate TablesSwept(db: Db, items: seq<Item>, r: Db) {
    && r.rows.leads.Keys == db.rows.leads.Keys && (forall k :: k in db.rows.leads ==> LeadSwept(db, items, r, k))
    && r.rows.persons.Keys == db.rows.persons.Keys
    && (forall k :: k in db.rows.persons ==> PersonSwept(db, items, r, k))
    && r.rows.activities.Keys == db.rows.activities.Keys
    && (forall k :: k in db.rows.activities ==> ActivitySwept(db, items, r, k))
    && r.rows.deals.Keys == db.rows.deals.Keys && (forall k :: k in db.rows.deals ==> DealSwept(db, items, r, k))
    && r.rows.organizations.Keys == db.rows.organizations.Keys
    && (forall k :: k in db.rows.organizations ==> OrganizationSwept(db, items, r, k))
  }

  ghost predicate SubjectsSwept(db: Db, items: seq<Item>, r: Db) {
    && (forall k: nat :: Emails(r, k) == if Any(items, ErasesPerson(k)) then {} else Emails(db, k))
    && (forall e :: e in r.embeddings <==> e in db.embeddings && !Any(items, RemovesEmbedding(db, e)))
    && (forall m :: m in r.suppressed <==> m in db.suppressed || Any(items, Suppresses(db, m)))
  }

  function AuditOf(items: seq<Item>): seq<AuditRow> {
    if items == [] then []
    else
      var it := items[|items| - 1];
      AuditOf(items[..|items| - 1]) + [AuditRow(it.action, it.entity, it.id)]
  }

  // Which items there were decides every row but the mark a person carries;
  // their order decides only the order of the audit rows.
  ghost predicate Swept(db: Db, items: seq<Item>, r: Db) {
    && r.links == db.links && r.dealLinks == db.dealLinks && r.audit == db.audit + AuditOf(items)
    && TablesSwept(db, items, r) && SubjectsSwept(db, items, r)
  }

  // ------------------------------------------------- one action, row by row

  ghost predicate ActedOnLeads(r: Db, it: Item, r': Rows) {
    r'.leads.Keys == r.rows.leads.Keys && forall k :: k in r.rows.leads ==> r'.leads[k] == r.rows.leads[k].(
      pii := if BlanksLead(r, k)(it) then BLANK_LEAD else r.rows.leads[k].pii,
      archived := r.rows.leads[k].archived || Archives(Lead, k)(it))
  }

  ghost predicate ActedOnPersons(r: Db, it: Item, r': Rows) {
    r'.persons.Keys == r.rows.persons.Keys && forall k :: k in r.rows.persons ==> r'.persons[k] == r.rows.persons[k].(
      pii := if !BlanksPerson(k)(it) then r.rows.persons[k].pii
             else BlankPerson(if it.action == Erase then ErasedMark else AnonymizedMark),
      archived := r.rows.persons[k].archived || Archives(Person, k)(it))
  }

  ghost predicate ActedOnActivities(r: Db, it: Item, r': Rows) {
    r'.activities.Keys == r.rows.activities.Keys && forall k :: k in r.rows.activities ==>
      r'.activities[k] == r.rows.activities[k].(
      pii := if BlanksActivity(r, k)(it) then BLANK_ACTIVITY else r.rows.activities[k].pii,
      archived := r.rows.activities[k].archived || Archives(Activity, k)(it))
  }

  ghost predicate ActedOnDeals(r: Db, it: Item, r': Rows) {
    r'.deals.Keys == r.rows.deals.Keys && forall k :: k in r.rows.deals ==> r'.deals[k] == r.rows.deals[k].(
      raw := if BlanksDeal(r, k)(it) then None else r.rows.deals[k].raw,
      archived := r.rows.deals[k].archived || Archives(Deal, k)(it))
  }

  ghost predicate ActedOnOrganizations(r: Db, it: Item, r': Rows) {
    r'.organizations.Keys == r.rows.organizations.Keys && forall k :: k in r.rows.organizations ==>
      r'.organizations[k] == (r.rows.organizations[k] || Archives(Organization, k)(it))
  }

  ghost predicate ActedOnSubjects(r: Db, it: Item, r': Db) {
    && (forall k: nat :: Emails(r', k) == if ErasesPerson(k)(it) then {} else Emails(r, k))
    && (forall e :: e in r'.embeddings <==> e in r.embeddings && !RemovesEmbedding(r, e)(it))
    && (forall m :: m in r'.suppressed <==> m in r.suppressed || Suppresses(r, m)(it))
    && r'.links == r.links && r'.dealLinks == r.dealLinks
  }

  // What one action does to every row of every table.
  ghost predicate Acted(r: Db, it: Item, r': Db) {
    && ActedOnLeads(r, it, r'.rows) && ActedOnPersons(r, it, r'.rows) && ActedOnActivities(r, it, r'.rows)
    && ActedOnDeals(r, it, r'.rows) && ActedOnOrganizations(r, it, r'.rows) && ActedOnSubjects(r, it, r')
  }

  lemma ChangeLeads(r: Db, it: Item)
    requires !PersonErase(it) && Supported(it)
    ensures ActedOnLeads(r, it, ChangeRow(r.rows, it))
  {
  }

  lemma ChangePersons(r: Db, it: Item)
    requires !PersonErase(it) && Supported(it)
    ensures ActedOnPersons(r, it, ChangeRow(r.rows, it))
  {
  }

  lemma ChangeActivities(r: Db, it: Item)
    requires !PersonErase(it) && Supported(it)
    ensures ActedOnActivities(r, it, ChangeRow(r.rows, it))
  {
  }

  lemma ChangeDeals(r: Db, it: Item)
    requires !PersonErase(it) && Supported(it)
    ensures ActedOnDeals(r, it, ChangeRow(r.rows, it))
  {
  }

  lemma ChangeOrganizations(r: Db, it: Item)
    requires !PersonErase(it) && Supported(it)
    ensures ActedOnOrganizations(r, it, ChangeRow(r.rows, it))
  {
  }

  lemma EraseActsOnRows(r: Db, p: nat)
    ensures var it := Item(Person, Erase, p);
      var after := EraseRows(r.rows, p, LeadOf(r, p), ActivitiesOf(r, p), DealsOf(r, p));
      ActedOnLeads(r, it, after) && ActedOnPersons(r, it, after) && ActedOnOrganizations(r, it, after)
  {
  }

  lemma EraseActsOnLinked(r: Db, p: nat)
    ensures var it := Item(Person, Erase, p);
      var after := EraseRows(r.rows, p, LeadOf(r, p), ActivitiesOf(r, p), DealsOf(r, p));
      ActedOnActivities(r, it, after) && ActedOnDeals(r, it, after)
  {
  }

  lemma EraseActsOnSubjects(r: Db, p: nat)
    ensures ActedOnSubjects(r, Item(Person, Erase, p), ErasePerson(r, p))
  {
  }

  lemma ChangeActs(r: Db, it: Item)
    requires Supported(it)
    ensures Acted(r, it, Change(r, it))
  {
    if PersonErase(it) {
      EraseActsOnRows(r, it.id);
      EraseActsOnLinked(r, it.id);
      EraseActsOnSubjects(r, it.id);
    } else {
      ChangeLeads(r, it);
      ChangePersons(r, it);
      ChangeActivities(r, it);
      ChangeDeals(r, it);
      ChangeOrganizations(r, it);
    }
  }

  // ------------------------------------------------------------ whole sweeps

  // The links an erasure follows are never changed by a sweep.
  lemma SameLead(db: Db, items: seq<Item>, r: Db, p: nat)
    requires r.rows.persons.Keys == db.rows.persons.Keys && forall k :: k in db.rows.persons ==>
      PersonSwept(db, items, r, k)
    ensures LeadOf(r, p) == LeadOf(db, p)
  {
    assert p in db.rows.persons ==> PersonSwept(db, items, r, p);
  }

  lemma SameDeals(db: Db, r: Db, p: nat, k: nat)
    requires r.links == db.links && r.dealLinks == db.dealLinks
    ensures LinkedDeal(r, p, k) == LinkedDeal(db, p, k)
  {
  }

  lemma ThenLead(db: Db, items: seq<Item>, r: Db, it: Item, r': Db, k: nat)
    requires LeadSwept(db, items, r, k) && ActedOnLeads(r, it, r'.rows) && LeadOf(r, it.id) == LeadOf(db, it.id)
    ensures LeadSwept(db, items + [it], r', k)
  {
    AnySnoc(items, it, BlanksLead(db, k));
    AnySnoc(items, it, Archives(Lead, k));
  }

  lemma ThenPerson(db: Db, items: seq<Item>, r: Db, it: Item, r': Db, k: nat)
    requires PersonSwept(db, items, r, k) && ActedOnPersons(r, it, r'.rows)
    ensures PersonSwept(db, items + [it], r', k)
  {
    AnySnoc(items, it, BlanksPerson(k));
    AnySnoc(items, it, Archives(Person, k));
  }

  lemma ThenActivity(db: Db, items: seq<Item>, r: Db, it: Item, r': Db, k: nat)
    requires ActivitySwept(db, items, r, k) && ActedOnActivities(r, it, r'.rows) && r.links == db.links
    ensures ActivitySwept(db, items + [it], r', k)
  {
    AnySnoc(items, it, BlanksActivity(db, k));
    AnySnoc(items, it, Archives(Activity, k));
  }

  lemma ThenDeal(db: Db, items: seq<Item>, r: Db, it: Item, r': Db, k: nat)
    requires DealSwept(db, items, r, k) && ActedOnDeals(r, it, r'.rows) && r.links == db.links
      && r.dealLinks == db.dealLinks
    ensures DealSwept(db, items + [it], r', k)
  {
    AnySnoc(items, it, BlanksDeal(db, k));
    AnySnoc(items, it, Archives(Deal, k));
    SameDeals(db, r, it.id, k);
  }

  lemma ThenOrganization(db: Db, items: seq<Item>, r: Db, it: Item, r': Db, k: nat)
    requires OrganizationSwept(db, items, r, k) && ActedOnOrganizations(r, it, r'.rows)
    ensures OrganizationSwept(db, items + [it], r', k)
  {
    AnySnoc(items, it, Archives(Organization, k));
  }

  lemma ThenSubject(db: Db, items: seq<Item>, r: Db, it: Item, r': Db, k: nat, e: (Object, nat), m: string)
    requires SubjectsSwept(db, items, r) && ActedOnSubjects(r, it, r')
    requires r.links == db.links && r.dealLinks == db.dealLinks && LeadOf(r, it.id) == LeadOf(db, it.id)
    ensures Emails(r', k) == if Any(items + [it], ErasesPerson(k)) then {} else Emails(db, k)
    ensures e in r'.embeddings <==> e in db.embeddings && !Any(items + [it], RemovesEmbedding(db, e))
    ensures m in r'.suppressed <==> m in db.suppressed || Any(items + [it], Suppresses(db, m))
  {
    AnySnoc(items, it, ErasesPerson(k));
    AnySnoc(items, it, RemovesEmbedding(db, e));
    AnySnoc(items, it, Suppresses(db, m));
    SameEmbedding(db, r, it.id, e);
    SameSuppression(db, items, r, it, m);
  }

  lemma SameEmbedding(db: Db, r: Db, p: nat, e: (Object, nat))
    requires r.links == db.links && r.dealLinks == db.dealLinks && LeadOf(r, p) == LeadOf(db, p)
    ensures SubjectEmbedding(r, p, e) == SubjectEmbedding(db, p, e)
  {
    SameDeals(db, r, p, e.1);
  }

  // An address already gone from the rows is already suppressed.
  lemma SameSuppression(db: Db, items: seq<Item>, r: Db, it: Item, m: string)
    requires SubjectsSwept(db, items, r)
    ensures Any(items, Suppresses(db, m)) || Suppresses(r, m)(it) <==>
      Any(items, Suppresses(db, m)) || Suppresses(db, m)(it)
  {
    if PersonErase(it) && m in Emails(db, it.id) && m !in Emails(r, it.id) {
      assert Any(items, ErasesPerson(it.id));
      var x :| x in items && ErasesPerson(it.id)(x);
      assert Suppresses(db, m)(x);
    }
  }

  lemma ActExtendsTables(db: Db, items: seq<Item>, r: Db, it: Item, r': Db)
    requires Swept(db, items, r) && Acted(r, it, r')
    ensures TablesSwept(db, items + [it], r')
  {
    SameLead(db, items, r, it.id);
    forall k | k in db.rows.leads ensures LeadSwept(db, items + [it], r', k) { ThenLead(db, items, r, it, r', k); }
    forall k | k in db.rows.persons ensures PersonSwept(db, items + [it], r', k) {
      ThenPerson(db, items, r, it, r', k);
    }
    forall k | k in db.rows.activities ensures ActivitySwept(db, items + [it], r', k) {
      ThenActivity(db, items, r, it, r', k);
    }
    forall k | k in db.rows.deals ensures DealSwept(db, items + [it], r', k) { ThenDeal(db, items, r, it, r', k); }
    forall k | k in db.rows.organizations ensures OrganizationSwept(db, items + [it], r', k) {
      ThenOrganization(db, items, r, it, r', k);
    }
  }

  lemma ActExtendsSubjects(db: Db, items: seq<Item>, r: Db, it: Item, r': Db)
    requires Swept(db, items, r) && Acted(r, it, r')
    ensures SubjectsSwept(db, items + [it], r')
  {
    SameLead(db, items, r, it.id);
    forall k: nat ensures Emails(r', k) == if Any(items + [it], ErasesPerson(k)) then {} else Emails(db, k) {
      ThenSubject(db, items, r, it, r', k, (Person, k), "");
    }
    forall e ensures e in r'.embeddings <==> e in db.embeddings && !Any(items + [it], RemovesEmbedding(db, e)) {
      ThenSubject(db, items, r, it, r', 0, e, "");
    }
    forall m ensures m in r'.suppressed <==> m in db.suppressed || Any(items + [it], Suppresses(db, m)) {
      ThenSubject(db, items, r, it, r', 0, (Person, 0), m);
    }
  }

  lemma AuditExtends(audit: seq<AuditRow>, items: seq<Item>, it: Item)
    ensures audit + AuditOf(items + [it]) == audit + AuditOf(items) + [AuditRow(it.action, it.entity, it.id)]
  {
    assert (items + [it])[..|items|] == items;
  }

  lemma ActExtends(db: Db, items: seq<Item>, r: Db, it: Item)
    requires Swept(db, items, r) && Supported(it)
    ensures Swept(db, items + [it], Act(r, it))
  {
    var r', audit := Change(r, it), db.audit + AuditOf(items + [it]);
    ChangeActs(r, it);
    AuditExtends(db.audit, items, it);
    ActExtendsTables(db, items, r, it, r');
    ActExtendsSubjects(db, items, r, it, r');
    AuditApart(db, items + [it], r', audit);
  }

  lemma AuditApart(db: Db, items: seq<Item>, r: Db, audit: seq<AuditRow>)
    requires TablesSwept(db, items, r) && SubjectsSwept(db, items, r)
    ensures TablesSwept(db, items, r.(audit := audit)) && SubjectsSwept(db, items, r.(audit := audit))
  {
    var r' := r.(audit := audit);
    assert forall k :: k in db.rows.leads ==> LeadSwept(db, items, r, k) ==> LeadSwept(db, items, r', k);
    assert forall k :: k in db.rows.persons ==> PersonSwept(db, items, r, k) ==> PersonSwept(db, items, r', k);
    assert forall k :: k in db.rows.activities ==> ActivitySwept(db, items, r, k) ==> ActivitySwept(db, items, r', k);
    assert forall k :: k in db.rows.deals ==> DealSwept(db, items, r, k) ==> DealSwept(db, items, r', k);
    assert forall k :: k in db.rows.organizations ==> OrganizationSwept(db, items, r, k) ==>
      OrganizationSwept(db, items, r', k);
    assert forall k: nat :: Emails(r', k) == Emails(r, k);
  }

  lemma NothingSwept(db: Db)
    ensures Swept(db, [], db)
  {
    assert AuditOf([]) == [];
  }

  // A sweep of supported actions runs to the end, and what it leaves is what
  // its items say.
  lemma {:induction false} SweepIsSwept(db: Db, items: seq<Item>)
    requires forall it :: it in items ==> Supported(it)
    ensures Sweep(db, items).1.None? && Swept(db, items, Sweep(db, items).0)
    decreases |items|
  {
    if items == [] {
      NothingSwept(db);
    } else {
      var n := |items| - 1;
      assert forall it :: it in items[..n] ==> it in items;
      SweepIsSwept(db, items[..n]);
      assert items[n] in items;
      ActExtends(db, items[..n], Sweep(db, items[..n]).0, items[n]);
      assert items == items[..n] + [items[n]];
    }
  }

  // ------------------------------------------------------------ main results

  // The same items in another order leave the same tables, except that a
  // person both anonymized and erased keeps the mark of whichever came last,
  // and the same audit rows in another order.
  lemma OrderIrrelevant(db: Db, a: seq<Item>, b: seq<Item>)
    requires forall it :: it in a ==> Supported(it)
    requires multiset(a) == multiset(b)
    ensures var r, s := Sweep(db, a).0, Sweep(db, b).0;
      && Sweep(db, a).1.None? && Sweep(db, b).1.None?
      && r.rows.leads == s.rows.leads && r.rows.activities == s.rows.activities
      && r.rows.deals == s.rows.deals && r.rows.organizations == s.rows.organizations
      && SamePersons(r.rows.persons, s.rows.persons)
      && (forall k: nat :: Emails(r, k) == Emails(s, k))
      && r.embeddings == s.embeddings && r.suppressed == s.suppressed
      && multiset(r.audit) == multiset(s.audit)
  {
    SameItems(a, b);
    SweepIsSwept(db, a);
    SweepIsSwept(db, b);
    SameTables(db, a, Sweep(db, a).0, b, Sweep(db, b).0);
    SameSubjects(db, a, Sweep(db, a).0, b, Sweep(db, b).0);
    SameAudit(a, b);
  }

  // Equal, or both blank under either mark.
  ghost predicate SamePersons(a: map<nat, PersonRow>, b: map<nat, PersonRow>) {
    a.Keys == b.Keys && forall k :: k in a ==>
      a[k] == b[k].(pii := a[k].pii) && (a[k].pii == b[k].pii || (IsBlankPerson(a[k].pii) && IsBlankPerson(b[k].pii)))
  }

  lemma SameItems(a: seq<Item>, b: seq<Item>)
    requires multiset(a) == multiset(b)
    ensures forall it :: it in a <==> it in b
    ensures forall p :: Any(a, p) <==> Any(b, p)
  {
    forall it ensures it in a <==> it in b {
      assert it in a <==> it in multiset(a);
      assert it in b <==> it in multiset(b);
    }
  }

  lemma SameTables(db: Db, a: seq<Item>, r: Db, b: seq<Item>, s: Db)
    requires TablesSwept(db, a, r) && TablesSwept(db, b, s)
    requires forall p :: Any(a, p) <==> Any(b, p)
    ensures r.rows.leads == s.rows.leads && r.rows.activities == s.rows.activities
    ensures r.rows.deals == s.rows.deals && r.rows.organizations == s.rows.organizations
    ensures SamePersons(r.rows.persons, s.rows.persons)
  {
    forall k | k in db.rows.leads ensures r.rows.leads[k] == s.rows.leads[k] {
      assert LeadSwept(db, a, r, k) && LeadSwept(db, b, s, k);
    }
    forall k | k in db.rows.activities ensures r.rows.activities[k] == s.rows.activities[k] {
      assert ActivitySwept(db, a, r, k) && ActivitySwept(db, b, s, k);
    }
    forall k | k in db.rows.deals ensures r.rows.deals[k] == s.rows.deals[k] {
      assert DealSwept(db, a, r, k) && DealSwept(db, b, s, k);
    }
    forall k | k in db.rows.organizations ensures r.rows.organizations[k] == s.rows.organizations[k] {
      assert OrganizationSwept(db, a, r, k) && OrganizationSwept(db, b, s, k);
    }
    PersonsAgree(db, a, r, b, s);
  }

  lemma PersonsAgree(db: Db, a: seq<Item>, r: Db, b: seq<Item>, s: Db)
    requires r.rows.persons.Keys == db.rows.persons.Keys == s.rows.persons.Keys
    requires forall k :: k in db.rows.persons ==> PersonSwept(db, a, r, k) && PersonSwept(db, b, s, k)
    requires forall p :: Any(a, p) <==> Any(b, p)
    ensures SamePersons(r.rows.persons, s.rows.persons)
  {
    forall k | k in r.rows.persons
      ensures r.rows.persons[k] == s.rows.persons[k].(pii := r.rows.persons[k].pii)
      ensures r.rows.persons[k].pii == s.rows.persons[k].pii
              || (IsBlankPerson(r.rows.persons[k].pii) && IsBlankPerson(s.rows.persons[k].pii))
    {
      assert PersonSwept(db, a, r, k) && PersonSwept(db, b, s, k);
    }
  }

  lemma SameSubjects(db: Db, a: seq<Item>, r: Db, b: seq<Item>, s: Db)
    requires SubjectsSwept(db, a, r) && SubjectsSwept(db, b, s)
    requires forall p :: Any(a, p) <==> Any(b, p)
    ensures forall k: nat :: Emails(r, k) == Emails(s, k)
    ensures r.embeddings == s.embeddings && r.suppressed == s.suppressed
  {
  }

  function AuditRowOf(it: Item): AuditRow {
    AuditRow(it.action, it.entity, it.id)
  }

  lemma {:induction false} AuditCount(items: seq<Item>, it: Item)
    ensures multiset(AuditOf(items))[AuditRowOf(it)] == multiset(items)[it]
  {
    if items != [] {
      var n := |items| - 1;
      AuditCount(items[..n], it);
      assert items == items[..n] + [items[n]];
    }
  }

  lemma SameAudit(a: seq<Item>, b: seq<Item>)
    requires multiset(a) == multiset(b)
    ensures multiset(AuditOf(a)) == multiset(AuditOf(b))
  {
    forall row ensures multiset(AuditOf(a))[row] == multiset(AuditOf(b))[row] {
      var it := Item(row.entity, row.action, row.id);
      AuditCount(a, it);
      AuditCount(b, it);
    }
  }

  // Wherever its item stands in the sweep: a record to be archived ends
  // archived, a lead or person to be anonymized or erased ends with no
  // personal column filled, an activity to be erased ends blank and archived.
  lemma EachItemTakesEffect(db: Db, items: seq<Item>, it: Item)
    requires (forall x :: x in items ==> Supported(x)) && it in items
    ensures var r, k := Sweep(db, items).0.rows, it.id;
      && (it.action == Archive && it.entity == Lead && k in r.leads ==> r.leads[k].archived)
      && (it.action == Archive && it.entity == Person && k in r.persons ==> r.persons[k].archived)
      && (it.action == Archive && it.entity == Deal && k in r.deals ==> r.deals[k].archived)
      && (it.action == Archive && it.entity == Activity && k in r.activities ==> r.activities[k].archived)
      && (it.action == Archive && it.entity == Organization && k in r.organizations ==> r.organizations[k])
      && (it.action == Anonymize && it.entity == Lead && k in r.leads ==>
            r.leads[k].pii == LeadPii(None, None, None, None, None, None))
      && (it.action != Archive && it.entity == Person && k in r.persons ==>
            || r.persons[k].pii == PersonPii(None, None, AnonymizedMark, None, None, None, None)
            || r.persons[k].pii == PersonPii(None, None, ErasedMark, None, None, None, None))
      && (it.action == Erase && it.entity == Activity && k in r.activities ==>
            r.activities[k].pii == ActivityPii(None, None, None) && r.activities[k].archived)
  {
    SweepIsSwept(db, items);
    var r, k := Sweep(db, items).0, it.id;
    ItemTakesPart(db, items, it);
    match it.entity
    case Lead => assert k in db.rows.leads ==> LeadSwept(db, items, r, k);
    case Person => assert k in db.rows.persons ==> PersonSwept(db, items, r, k);
    case Deal => assert k in db.rows.deals ==> DealSwept(db, items, r, k);
    case Activity => assert k in db.rows.activities ==> ActivitySwept(db, items, r, k);
    case Organization => assert k in db.rows.organizations ==> OrganizationSwept(db, items, r, k);
    case OtherObject(_) =>
  }

  lemma ItemTakesPart(db: Db, items: seq<Item>, it: Item)
    requires it in items
    ensures it.action == Archive ==> Any(items, Archives(it.entity, it.id))
    ensures it == Item(Lead, Anonymize, it.id) ==> Any(items, BlanksLead(db, it.id))
    ensures it.entity == Person && it.action != Archive ==> Any(items, BlanksPerson(it.id))
    ensures it == Item(Activity, Erase, it.id) ==>
      Any(items, BlanksActivity(db, it.id)) && Any(items, Archives(Activity, it.id))
    ensures PersonErase(it) ==> Any(items, ErasesPerson(it.id))
  {
    assert it.action == Archive ==> Archives(it.entity, it.id)(it);
    assert it == Item(Lead, Anonymize, it.id) ==> BlanksLead(db, it.id)(it);
    assert it.entity == Person && it.action != Archive ==> BlanksPerson(it.id)(it);
    assert it == Item(Activity, Erase, it.id) ==> BlanksActivity(db, it.id)(it) && Archives(Activity, it.id)(it);
    assert PersonErase(it) ==> ErasesPerson(it.id)(it);
  }

  // No action undoes an earlier one: what is blank or archived stays so.
  lemma NothingUndone(r: Db, it: Item, k: nat)
    requires Supported(it)
    ensures var before, after := r.rows.leads, Act(r, it).rows.leads;
      k in before ==> (
        k in after && (before[k].archived ==> after[k].archived)
        && (before[k].pii == BLANK_LEAD ==> after[k].pii == BLANK_LEAD))
    ensures var before, after := r.rows.persons, Act(r, it).rows.persons;
      k in before ==> (
        k in after && (before[k].archived ==> after[k].archived)
        && (IsBlankPerson(before[k].pii) ==> IsBlankPerson(after[k].pii)))
    ensures var before, after := r.rows.activities, Act(r, it).rows.activities;
      k in before ==> (
        k in after && (before[k].archived ==> after[k].archived)
        && (before[k].pii == BLANK_ACTIVITY ==> after[k].pii == BLANK_ACTIVITY))
    ensures var before, after := r.rows.deals, Act(r, it).rows.deals;
      k in before ==> (
        k in after && (before[k].archived ==> after[k].archived)
        && (before[k].raw == None ==> after[k].raw == None))
  {
    ChangeActs(r, it);
  }

  // Five kinds of record can be archived, leads and persons anonymized, persons
  // and activities erased.
  lemma SupportedIff(it: Item)
    ensures Supported(it) <==>
      || (it.action == Archive && it.entity in {Lead, Deal, Person, Organization, Activity})
      || (it.action == Anonymize && it.entity in {Lead, Person})
      || (it.action == Erase && it.entity in {Person, Activity})
  {
  }

  // What erasing a person does, table by table: the person, the lead converted
  // to it and its activities are blanked, deals reached through an activity lose
  // their payload, its email rows and all embeddings reached from it go, and the
  // addresses are suppressed. Everything else stays.
  lemma ErasureIs(db: Db, p: nat)
    ensures var r, pii := Act(db, Item(Person, Erase, p)), PersonPii(None, None, ErasedMark, None, None, None, None);
      && r.rows.persons == (if p in db.rows.persons
                            then db.rows.persons[p := db.rows.persons[p].(pii := pii)] else db.rows.persons)
      && r.emails == db.emails - {p} && r.rows.organizations == db.rows.organizations
      && r.links == db.links && r.dealLinks == db.dealLinks
      && r.audit == db.audit + [AuditRow(Erase, Person, p)]
    ensures var r := Act(db, Item(Person, Erase, p));
      && r.rows.leads.Keys == db.rows.leads.Keys
      && forall k :: k in db.rows.leads ==>
           r.rows.leads[k] ==
           if p in db.rows.persons && db.rows.persons[p].leadId == Some(k)
           then db.rows.leads[k].(pii := LeadPii(None, None, None, None, None, None)) else db.rows.leads[k]
    ensures var r := Act(db, Item(Person, Erase, p));
      && r.rows.activities.Keys == db.rows.activities.Keys
      && forall k :: k in db.rows.activities ==>
           r.rows.activities[k] ==
           if (k, p) in db.links then db.rows.activities[k].(pii := ActivityPii(None, None, None))
           else db.rows.activities[k]
    ensures var r := Act(db, Item(Person, Erase, p));
      && r.rows.deals.Keys == db.rows.deals.Keys
      && forall k :: k in db.rows.deals ==>
           r.rows.deals[k] ==
           if Reached(db, p, k) then db.rows.deals[k].(raw := None) else db.rows.deals[k]
    ensures var r := Act(db, Item(Person, Erase, p));
      && (forall e :: e in r.embeddings <==>
            && e in db.embeddings && e != (Person, p)
            && !(e.0 == Lead && p in db.rows.persons && db.rows.persons[p].leadId == Some(e.1))
            && !(e.0 == Activity && (e.1, p) in db.links)
            && !(e.0 == Deal && Reached(db, p, e.1)))
      && (forall m :: m in r.suppressed <==> m in db.suppressed || (p in db.emails && m in db.emails[p]))
  {
    forall k ensures LinkedDeal(db, p, k) <==> Reached(db, p, k) {
      LinkedIffReached(db, p, k);
    }
  }

  // The deal has an activity in common with the person.
  predicate Reached(db: Db, person: nat, deal: nat) {
    exists d :: d in db.dealLinks && d.1 == deal && (d.0, person) in db.links
  }

  lemma LinkedIffReached(db: Db, person: nat, deal: nat)
    ensures LinkedDeal(db, person, deal) <==> Reached(db, person, deal)
  {
    if l :| l in db.links && l.1 == person && (l.0, deal) in db.dealLinks {
      assert (l.0, deal) in db.dealLinks && ((l.0, deal).0, person) == l;
    }
    if d :| d in db.dealLinks && d.1 == deal && (d.0, person) in db.links {
      assert ((d.0, person).0, deal) == d;
    }
  }

  // A person anonymized or erased is free of personal data, email rows
  // included, exactly if an erasure was among the items or it had no emails.
  lemma PersonDataGoneIff(db: Db, items: seq<Item>, k: nat)
    requires (forall it :: it in items ==> Supported(it)) && k in db.rows.persons
    requires Item(Person, Anonymize, k) in items || Item(Person, Erase, k) in items
    ensures var r := Sweep(db, items).0;
      && k in r.rows.persons && IsBlankPerson(r.rows.persons[k].pii)
      && (Emails(r, k) == {} <==> Item(Person, Erase, k) in items || Emails(db, k) == {})
      && (Item(Person, Erase, k) in items ==> Emails(db, k) <= r.suppressed)
  {
    SweepIsSwept(db, items);
    var erase, anonymize := Item(Person, Erase, k), Item(Person, Anonymize, k);
    EachItemTakesEffect(db, items, if erase in items then erase else anonymize);
    assert PersonSwept(db, items, Sweep(db, items).0, k);
    if erase in items {
      ItemTakesPart(db, items, erase);
      forall m | m in Emails(db, k) ensures m in Sweep(db, items).0.suppressed {
        assert Suppresses(db, m)(erase);
      }
    } else {
      assert forall it :: it in items && ErasesPerson(k)(it) ==> it == erase;
    }
  }

  lemma AnonymizedKeepsEmail()
    ensures var pii := PersonPii(Some("Ada"), None, Named("Ada"), None, None, None, None);
      var rows := Rows(map[], map[1 := PersonRow(pii, None, false, false, false, 0)], map[], map[], map[]);
      var db := Db(rows, map[1 := {"ada@example.com"}], {}, {}, {}, {}, []);
      "ada@example.com" in Emails(Sweep(db, [Item(Person, Anonymize, 1)]).0, 1)
  {
    var items := [Item(Person, Anonymize, 1)];
    assert items[..0] == [];
  }

  // The first unsupported action ends the sweep; everything before it has
  // been done and nothing after it is.
  lemma SweepStopsAtFirstUnsupported(db: Db, items: seq<Item>, i: nat)
    requires i < |items| && !Supported(items[i]) && forall j :: 0 <= j < i ==> Supported(items[j])
    ensures Sweep(db, items) == (Sweep(db, items[..i]).0, Some(UnsupportedAction(items[i])))
    ensures Swept(db, items[..i], Sweep(db, items).0)
  {
    SweepIsSwept(db, items[..i]);
    SweepStays(db, items, i);
  }

  // --------------------------------------------------- from policies to items

  function ItemOf(p: Policy, k: nat): Item {
    Item(p.entity, p.action, k)
  }

  // The policies under which an item is selected.
  function SelectedUnder(db: Db, now: int, it: Item): Policy -> bool {
    (p: Policy) => p.entity == it.entity && p.action == it.action && Selects(db, p, now, it.id)
  }

  // Every selected record once for each policy that selects it, in any order.
  ghost predicate IsCollection(db: Db, policies: seq<Policy>, now: int, items: seq<Item>) {
    forall it :: multiset(items)[it] == |Filter(policies, SelectedUnder(db, now, it))|
  }

  // Selection is over before the first action, so neither the order of the
  // policies nor the order a query returns its rows in matters.
  lemma PolicyOrderIrrelevant(db: Db, a: seq<Policy>, b: seq<Policy>, now: int, x: seq<Item>, y: seq<Item>)
    requires multiset(a) == multiset(b)
    requires IsCollection(db, a, now, x) && IsCollection(db, b, now, y)
    ensures multiset(x) == multiset(y)
  {
    forall it ensures multiset(x)[it] == multiset(y)[it] {
      FilterMultiset(a, b, SelectedUnder(db, now, it));
      var fa, fb := Filter(a, SelectedUnder(db, now, it)), Filter(b, SelectedUnder(db, now, it));
      assert |fa| == |multiset(fa)| && |fb| == |multiset(fb)|;
    }
  }

  lemma CollectedIff(db: Db, policies: seq<Policy>, now: int, items: seq<Item>, it: Item)
    requires IsCollection(db, policies, now, items)
    ensures it in items <==> exists p :: p in policies && SelectedUnder(db, now, it)(p)
  {
    var found := Filter(policies, SelectedUnder(db, now, it));
    assert it in items <==> multiset(items)[it] > 0;
    if found != [] {
      HeadIsIn(found);
      FilterMember(policies, SelectedUnder(db, now, it), found[0]);
    }
    if p :| p in policies && SelectedUnder(db, now, it)(p) {
      FilterMember(policies, SelectedUnder(db, now, it), p);
      assert found != [];
    }
  }

  // The record is live, not on hold, last touched more than the policy's days
  // ago, and of the policy's kind: an unconverted lead, an activity or only a
  // transcript, a person with no consent and no activity in common with a deal,
  // a lost deal.
  predicate Due(db: Db, p: Policy, now: int, k: nat) {
    var oldest := now - p.retainDays * 86_400;
    match p.entity
    case Lead =>
      p.category == Unconverted && k in db.rows.leads
      && var lead := db.rows.leads[k];
         !(lead.promoted || lead.hold || lead.archived) && oldest > lead.updatedAt
    case Person =>
      p.category == NoConsentNoDeal && k in db.rows.persons
      && var person := db.rows.persons[k];
         !(person.hold || person.archived || person.consented) && oldest > person.updatedAt
         && forall l, d :: l in db.links && d in db.dealLinks && l.1 == k ==> l.0 != d.0
    case Activity =>
      p.category in {NoCategory, Transcript} && k in db.rows.activities
      && var activity := db.rows.activities[k];
         (p.category == Transcript ==> activity.transcript) && !activity.archived && oldest > activity.updatedAt
    case Deal =>
      p.category == LostDeal && k in db.rows.deals
      && var deal := db.rows.deals[k];
         deal.lost && !(deal.hold || deal.archived) && oldest > deal.updatedAt
    case _ => false
  }

  // What a nightly run works on: each record that is due under some policy with
  // that action, and no other.
  lemma WorkItemIff(db: Db, policies: seq<Policy>, now: int, items: seq<Item>, it: Item)
    requires IsCollection(db, policies, now, items)
    ensures it in items <==>
      exists p :: p in policies && p.entity == it.entity && p.action == it.action && Due(db, p, now, it.id)
  {
    CollectedIff(db, policies, now, items, it);
    forall p: Policy ensures Selects(db, p, now, it.id) <==> Due(db, p, now, it.id) {
      SelectsIffDue(db, p, now, it.id);
    }
    if p :| p in policies && p.entity == it.entity && p.action == it.action && Due(db, p, now, it.id) {
      assert SelectedUnder(db, now, it)(p);
    }
    if p :| p in policies && SelectedUnder(db, now, it)(p) {
      assert Due(db, p, now, it.id);
    }
  }

  lemma SelectsIffDue(db: Db, p: Policy, now: int, k: nat)
    ensures Selects(db, p, now, k) <==> Due(db, p, now, k)
  {
  }

  ghost predicate AllSelected(db: Db, policies: seq<Policy>, now: int, items: seq<Item>) {
    forall it :: it in items ==> Supported(it) && exists p :: p in policies && SelectedUnder(db, now, it)(p)
  }

  lemma CollectedAreSelected(db: Db, policies: seq<Policy>, now: int, items: seq<Item>)
    requires IsCollection(db, policies, now, items) && forall it :: it in items ==> Supported(it)
    ensures AllSelected(db, policies, now, items)
  {
    forall it | it in items ensures exists p :: p in policies && SelectedUnder(db, now, it)(p) {
      CollectedIff(db, policies, now, items, it);
    }
  }

  // A person on legal hold is left as it is.
  lemma HeldPersonUntouched(db: Db, policies: seq<Policy>, now: int, items: seq<Item>, k: nat)
    requires IsCollection(db, policies, now, items) && forall it :: it in items ==> Supported(it)
    requires k in db.rows.persons && db.rows.persons[k].hold
    ensures k in Sweep(db, items).0.rows.persons && Sweep(db, items).0.rows.persons[k] == db.rows.persons[k]
  {
    CollectedAreSelected(db, policies, now, items);
    SweepIsSwept(db, items);
    assert PersonSwept(db, items, Sweep(db, items).0, k);
    assert !Any(items, BlanksPerson(k)) && !Any(items, Archives(Person, k));
  }

  // No deal loses its raw payload, for a person with a deal is never selected
  // for erasure, and a deal on legal hold is left as it is.
  lemma DealsKeepPayload(db: Db, policies: seq<Policy>, now: int, items: seq<Item>, k: nat)
    requires IsCollection(db, policies, now, items) && forall it :: it in items ==> Supported(it)
    requires k in db.rows.deals
    ensures var after := Sweep(db, items).0.rows.deals;
      && k in after && after[k].raw == db.rows.deals[k].raw
      && (db.rows.deals[k].hold ==> after[k] == db.rows.deals[k])
  {
    CollectedAreSelected(db, policies, now, items);
    SweepIsSwept(db, items);
    assert DealSwept(db, items, Sweep(db, items).0, k);
    NoDealBlanked(db, policies, now, items, k);
    assert db.rows.deals[k].hold ==> !Any(items, Archives(Deal, k));
  }

  lemma NoDealBlanked(db: Db, policies: seq<Policy>, now: int, items: seq<Item>, k: nat)
    requires AllSelected(db, policies, now, items)
    ensures !Any(items, BlanksDeal(db, k))
  {
    forall it | it in items && PersonErase(it) ensures !LinkedDeal(db, it.id, k) {
      assert !LinkedToDeal(db, it.id);
    }
  }

  // A lead on legal hold is left as it is unless a person converted from it
  // is erased: the hold is not asked about then.
  lemma HeldLeadUntouchedIff(db: Db, policies: seq<Policy>, now: int, items: seq<Item>, k: nat)
    requires IsCollection(db, policies, now, items) && forall it :: it in items ==> Supported(it)
    requires k in db.rows.leads && db.rows.leads[k].hold
    ensures var after := Sweep(db, items).0.rows.leads;
      k in after && (after[k] == db.rows.leads[k] <==>
        db.rows.leads[k].pii == BLANK_LEAD || !exists p :: Item(Person, Erase, p) in items && LeadOf(db, p) == Some(k))
  {
    CollectedAreSelected(db, policies, now, items);
    SweepIsSwept(db, items);
    assert LeadSwept(db, items, Sweep(db, items).0, k);
    HeldLead(db, policies, now, items, k);
  }

  lemma HeldLead(db: Db, policies: seq<Policy>, now: int, items: seq<Item>, k: nat)
    requires AllSelected(db, policies, now, items)
    requires k in db.rows.leads && db.rows.leads[k].hold
    ensures !Any(items, Archives(Lead, k))
    ensures Any(items, BlanksLead(db, k)) <==> exists p :: Item(Person, Erase, p) in items && LeadOf(db, p) == Some(k)
  {
    if Any(items, BlanksLead(db, k)) {
      var it :| it in items && BlanksLead(db, k)(it);
      assert it == Item(Person, Erase, it.id);
    }
    if p :| Item(Person, Erase, p) in items && LeadOf(db, p) == Some(k) {
      assert BlanksLead(db, k)(Item(Person, Erase, p));
    }
  }

  lemma OneSelected(db: Db, p: Policy, now: int, it: Item)
    requires it == ItemOf(p, it.id) && forall k :: Selects(db, p, now, k) <==> k == it.id
    ensures IsCollection(db, [p], now, [it])
  {
    forall x ensures multiset([it])[x] == |Filter([p], SelectedUnder(db, now, x))| {
      assert [p][1..] == [];
      assert SelectedUnder(db, now, x)(p) <==> x == it;
    }
  }

  // A lead on hold, converted to a person who is not: erasing the person
  // blanks the lead.
  lemma HeldLeadBlanked() returns (db: Db, policy: Policy, now: int)
    ensures 1 in db.rows.leads && db.rows.leads[1].hold && db.rows.leads[1].pii != BLANK_LEAD
    ensures IsCollection(db, [policy], now, [Item(Person, Erase, 2)])
    ensures var leads := Sweep(db, [Item(Person, Erase, 2)]).0.rows.leads; 1 in leads && leads[1].pii == BLANK_LEAD
  {
    var lead := LeadRow(LeadPii(Some("Ada"), None, None, None, None, None), true, true, false, 0);
    var person := PersonRow(BlankPerson(Named("Ada")), Some(1), false, false, false, 0);
    db := Db(Rows(map[1 := lead], map[2 := person], map[], map[], map[]), map[], {}, {}, {}, {}, []);
    policy := Policy(Person, NoConsentNoDeal, 0, Erase);
    now := 1;
    var it := Item(Person, Erase, 2);
    assert !LinkedToDeal(db, 2);
    OneSelected(db, policy, now, it);
    HeldLeadUntouchedIff(db, [policy], now, [it], 1);
    SweepIsSwept(db, [it]);
    assert LeadSwept(db, [it], Sweep(db, [it]).0, 1);
    assert LeadOf(db, 2) == Some(1) && it in [it];
    assert BlanksLead(db, 1)(it);
  }

  // -------------------------------------------------------------- the worker

  class RetentionWorker {
    var db: Db

    constructor (db: Db)
      ensures this.db == db
    {
      this.db := db;
    }

    // The ids a policy's query returns, in some order.
    method SelectOverAge(p: Policy, now: int) returns (ids: seq<nat>)
      ensures forall k: nat :: multiset(ids)[k] == if Selects(db, p, now, k) then 1 else 0
    {
      var known := db.rows.leads.Keys + db.rows.persons.Keys + db.rows.activities.Keys + db.rows.deals.Keys;
      var rest := set k | k in known && Selects(db, p, now, k);
      ids := [];
      while rest != {}
        invariant forall k :: k in rest ==> Selects(db, p, now, k)
        invariant forall k: nat :: multiset(ids)[k] == if Selects(db, p, now, k) && k !in rest then 1 else 0
        decreases |rest|
      {
        var k :| k in rest;
        ids := ids + [k];
        rest := rest - {k};
      }
    }

    method CollectWorkItems(policies: seq<Policy>, now: int) returns (items: seq<Item>)
      ensures IsCollection(db, policies, now, items)
    {
      items := [];
      for i := 0 to |policies|
        invariant IsCollection(db, policies[..i], now, items)
      {
        var ids := SelectOverAge(policies[i], now);
        var found := seq(|ids|, j requires 0 <= j < |ids| => ItemOf(policies[i], ids[j]));
        CollectStep(db, policies, i, now, items, ids, found);
        items := items + found;
      }
      TakeAll(policies);
    }

    // SELECT email FROM person_email: the rows come in some order.
    method CaptureEmails(person: nat) returns (emails: seq<string>)
      ensures forall m :: m in emails <==> m in Emails(db, person)
    {
      var rest := if person in db.emails then db.emails[person] else {};
      emails := [];
      while rest != {}
        invariant forall m :: m in Emails(db, person) <==> m in rest || m in emails
        decreases |rest|
      {
        var m :| m in rest;
        emails := emails + [m];
        rest := rest - {m};
      }
    }

    method SuppressEmails(emails: seq<string>)
      modifies this
      ensures db == old(db).(suppressed := old(db).suppressed + AsSet(emails))
    {
      for i := 0 to |emails|
        invariant db == old(db).(suppressed := old(db).suppressed + AsSet(emails[..i]))
      {
        db := db.(suppressed := db.suppressed + {emails[i]});
        TakeStep(emails, i);
      }
      TakeAll(emails);
    }

    // The five updates of the normalized tables, each on what the one before
    // left; the lead and the links are looked up only when their turn comes.
    method EraseNormalized(person: nat)
      modifies this
      ensures db == old(db).(
        rows := EraseRows(old(db).rows, person, LeadOf(old(db), person), ActivitiesOf(old(db), person),
          DealsOf(old(db), person)),
        emails := old(db).emails - {person})
    {
      if person in db.rows.persons {
        var row := db.rows.persons[person];
        db := db.(rows := db.rows.(persons := db.rows.persons[person := row.(pii := BlankPerson(ErasedMark))]));
      }
      db := db.(emails := db.emails - {person});
      var lead := LeadOf(db, person);
      if lead.Some? && lead.value in db.rows.leads {
        var row := db.rows.leads[lead.value];
        db := db.(rows := db.rows.(leads := db.rows.leads[lead.value := row.(pii := BLANK_LEAD)]));
      }
      var activities := set l | l in db.links && l.1 == person :: l.0;
      assert activities == ActivitiesOf(old(db), person);
      db := db.(rows := db.rows.(activities := BlankActivities(db.rows.activities, activities)));
      var deals := set d | d in db.dealLinks && (d.0, person) in db.links :: d.1;
      assert deals == DealsOf(old(db), person);
      db := db.(rows := db.rows.(deals := BlankDeals(db.rows.deals, deals)));
    }

    method EraseEmbeddings(person: nat)
      modifies this
      ensures db == old(db).(embeddings := set e | e in old(db).embeddings && !SubjectEmbedding(old(db), person, e))
    {
      db := db.(embeddings := set e | e in db.embeddings && !SubjectEmbedding(db, person, e));
    }

    // Erase: emails are captured before their rows go and suppressed after, and
    // what hangs on the person is reached through a row already blanked. It
    // comes to the same as reading everything first.
    method ErasePersonData(person: nat)
      modifies this
      ensures db == Act(old(db), Item(Person, Erase, person))
    {
      var emails := CaptureEmails(person);
      EraseNormalized(person);
      StillReached(old(db), db, person);
      EraseEmbeddings(person);
      SuppressEmails(emails);
      assert AsSet(emails) == Emails(old(db), person);
      db := db.(audit := db.audit + [AuditRow(Erase, Person, person)]);
    }

    // One record archived, anonymized or, for an activity, erased; false when
    // the table is not one the action knows.
    method RunRetentionAction(it: Item) returns (ok: bool)
      requires !PersonErase(it)
      modifies this
      ensures ok <==> Supported(it)
      ensures db == if ok then Change(old(db), it) else old(db)
    {
      match it.action
      case Archive =>
        ok := ApplyArchive(it.entity, it.id);
      case Anonymize =>
        ok := ApplyAnonymize(it.entity, it.id);
      case Erase =>
        ok := it.entity == Activity;
        if ok {
          ApplyActivityErase(it.id);
        }
    }

    method ApplyArchive(o: Object, id: nat) returns (ok: bool)
      modifies this
      ensures ok <==> !o.OtherObject?
      ensures db == old(db).(rows := ArchiveRow(old(db).rows, o, id))
    {
      var rows := db.rows;
      ok := true;
      match o {
      case Lead =>
        if id in rows.leads { rows := rows.(leads := rows.leads[id := rows.leads[id].(archived := true)]); }
      case Deal =>
        if id in rows.deals { rows := rows.(deals := rows.deals[id := rows.deals[id].(archived := true)]); }
      case Person =>
        if id in rows.persons { rows := rows.(persons := rows.persons[id := rows.persons[id].(archived := true)]); }
      case Organization =>
        if id in rows.organizations { rows := rows.(organizations := rows.organizations[id := true]); }
      case Activity =>
        if id in rows.activities {
          rows := rows.(activities := rows.activities[id := rows.activities[id].(archived := true)]);
        }
      case OtherObject(_) =>
        ok := false;
      }
      db := db.(rows := rows);
    }

    method ApplyAnonymize(o: Object, id: nat) returns (ok: bool)
      modifies this
      ensures ok <==> o in {Lead, Person}
      ensures db == old(db).(rows := AnonymizeRow(old(db).rows, o, id))
    {
      var rows := db.rows;
      ok := true;
      match o {
      case Lead =>
        if id in rows.leads { rows := rows.(leads := rows.leads[id := rows.leads[id].(pii := BLANK_LEAD)]); }
      case Person =>
        if id in rows.persons {
          rows := rows.(persons := rows.persons[id := rows.persons[id].(pii := BlankPerson(AnonymizedMark))]);
        }
      case _ =>
        ok := false;
      }
      db := db.(rows := rows);
    }

    method ApplyActivityErase(id: nat)
      modifies this
      ensures db == old(db).(rows := EraseActivity(old(db).rows, id))
    {
      var activities := db.rows.activities;
      if id in activities {
        var row := activities[id].(pii := BLANK_ACTIVITY, archived := true);
        db := db.(rows := db.rows.(activities := activities[id := row]));
      }
    }

    // One action in its own transaction: the change and its audit row, or
    // neither.
    method ApplyAction(it: Item) returns (err: Option<SweepError>)
      modifies this
      ensures err == if Supported(it) then None else Some(UnsupportedAction(it))
      ensures db == if Supported(it) then Act(old(db), it) else old(db)
    {
      if it.action == Erase && it.entity == Person {
        ErasePersonData(it.id);
        return None;
      }
      var ok := RunRetentionAction(it);
      if !ok {
        return Some(UnsupportedAction(it));
      }
      db := db.(audit := db.audit + [AuditRow(it.action, it.entity, it.id)]);
      return None;
    }

    // Both phases: everything is selected from the tables as they were, and
    // the actions run one after another until one fails.
    method ProcessWorkspace(policies: seq<Policy>, now: int) returns (err: Option<SweepError>)
      modifies this
      ensures exists items :: IsCollection(old(db), policies, now, items) && (db, err) == Sweep(old(db), items)
    {
      var items := CollectWorkItems(policies, now);
      err := None;
      for i := 0 to |items|
        invariant err == None && (db, None) == Sweep(old(db), items[..i])
      {
        ghost var before := db;
        assert Sweep(old(db), items[..i]) == (before, None);
        err := ApplyAction(items[i]);
        assert items[..i + 1][..i] == items[..i];
        if err.Some? {
          SweepStays(old(db), items, i);
          return;
        }
      }
      TakeAll(items);
    }
  }

  function AsSet(s: seq<string>): set<string> {
    set m | m in s
  }

  // Blanking the subject's rows cuts none of the paths from the subject.
  lemma StillReached(before: Db, after: Db, person: nat)
    requires after.links == before.links && after.dealLinks == before.dealLinks
    requires LeadOf(after, person) == LeadOf(before, person)
    ensures (set e | e in before.embeddings && !SubjectEmbedding(after, person, e))
      == (set e | e in before.embeddings && !SubjectEmbedding(before, person, e))
  {
    forall e ensures SubjectEmbedding(after, person, e) == SubjectEmbedding(before, person, e) {
    }
  }

  lemma {:induction false} SweepStays(db: Db, items: seq<Item>, i: nat)
    requires i < |items| && Sweep(db, items[..i]).1.None? && !Supported(items[i])
    ensures Sweep(db, items) == (Sweep(db, items[..i]).0, Some(UnsupportedAction(items[i])))
    decreases |items|
  {
    var n := |items| - 1;
    if i < n {
      assert items[..n][..i] == items[..i];
      SweepStays(db, items[..n], i);
    }
  }

  lemma CollectStep(db: Db, policies: seq<Policy>, i: nat, now: int, items: seq<Item>, ids: seq<nat>, found: seq<Item>)
    requires i < |policies| && IsCollection(db, policies[..i], now, items)
    requires forall k: nat :: multiset(ids)[k] == if Selects(db, policies[i], now, k) then 1 else 0
    requires |found| == |ids| && forall j :: 0 <= j < |ids| ==> found[j] == ItemOf(policies[i], ids[j])
    ensures IsCollection(db, policies[..i + 1], now, items + found)
  {
    forall it ensures multiset(items + found)[it] == |Filter(policies[..i + 1], SelectedUnder(db, now, it))| {
      TakeStep(policies, i);
      FilterAppend(policies[..i], [policies[i]], SelectedUnder(db, now, it));
      CountItems(policies[i], ids, found, it);
    }
  }

  lemma {:induction false} CountItems(p: Policy, ids: seq<nat>, found: seq<Item>, it: Item)
    requires |found| == |ids| && forall j :: 0 <= j < |ids| ==> found[j] == ItemOf(p, ids[j])
    ensures multiset(found)[it] == if p.entity == it.entity && p.action == it.action then multiset(ids)[it.id] else 0
    decreases |ids|
  {
    if ids != [] {
      CountItems(p, ids[1..], found[1..], it);
      assert ids == [ids[0]] + ids[1..] && found == [found[0]] + found[1..];
    }
  }
}
