// store.go (ListPage): the approvals inbox, read page by page by id.
module ApprovalsInbox {
  import opened Wrappers
  import opened KeysetPaging
  import Approvals

  datatype Row = Row(id: nat, item: Approvals.Item)

  // How an id is printed and read; a uuid is its 128-bit value here.
  datatype IdText = IdText(format: nat -> string, parse: string -> Option<nat>)

  datatype ListError = BadCursor

  const DEFAULT_LIST_PAGE_LIMIT := 50

  ghost predicate IdTextLawful(c: IdText) {
    forall n: nat :: c.format(n) != "" && c.parse(c.format(n)) == Some(n)
  }

  function Shown(workspaceId: string, status: Approvals.Status, kind: string): Row -> bool {
    (r: Row) => r.item.workspaceId == workspaceId && r.item.status == status
      && (kind == "" || r.item.actionType == kind)
  }

  function InboxPaging(c: IdText): Paging<Row, nat> {
    Paging((r: Row) => r.id, (a: nat, b: nat) => a <= b, c.format, s => if s == "" then None else c.parse(s))
  }

  function PageLimit(limit: int): (r: nat)
    ensures r == if limit > 0 then limit else 50
  {
    if limit <= 0 then DEFAULT_LIST_PAGE_LIMIT else limit
  }

  method ListPage(table: seq<Row>, c: IdText, workspaceId: string, status: Approvals.Status, kind: string,
      afterId: string, limit: int)
    returns (r: Result<(seq<Row>, string), ListError>)
    requires KeysDistinct(InboxPaging(c), table)
    ensures r.Err? <==> afterId != "" && c.parse(afterId).None?
    ensures r.Ok? ==> var p := InboxPaging(c);
      r.value == Page(p, Listing(p, table, Shown(workspaceId, status, kind)), PageLimit(limit), afterId)
  {
    var size := PageLimit(limit);
    var after := None;
    if afterId != "" {
      after := c.parse(afterId);
      if after == None {
        return Err(BadCursor);
      }
    }
    var p := InboxPaging(c);
    var found := Selected(p, table, Shown(workspaceId, status, kind), after);
    IdsOrdered(c);
    SelectedIsAfter(p, table, Shown(workspaceId, status, kind), p.decode(afterId));
    var out, next := CutPage(c, found, size);
    return Ok((out, next));
  }

  method CutPage(c: IdText, found: seq<Row>, size: nat) returns (out: seq<Row>, next: string)
    requires size > 0
    ensures (out, next) == if |found| > size then (found[..size], c.format(found[size - 1].id)) else (found, "")
  {
    out, next := if |found| > size + 1 then found[..size + 1] else found, "";
    if |out| > size {
      assert out[size - 1] == found[size - 1] && out[..size] == found[..size];
      next := c.format(out[size - 1].id);
      out := out[..size];
    }
  }

  lemma IdsOrdered(c: IdText)
    ensures TotalOrder(InboxPaging(c).leq)
  {
  }

  // Following the cursors of the inbox gives exactly the items of the status
  // and kind asked for, in id order.
  lemma InboxWalkIsComplete(table: seq<Row>, c: IdText, workspaceId: string, status: Approvals.Status, kind: string,
      limit: int)
    requires IdTextLawful(c)
    requires forall i, j :: 0 <= i < j < |table| ==> table[i].id != table[j].id
    ensures var p, shown := InboxPaging(c), Shown(workspaceId, status, kind);
      && KeysDistinct(p, table)
      && Lawful(p, Listing(p, table, shown))
      && Concat(Walk(p, Listing(p, table, shown), PageLimit(limit), "", 0)) == Listing(p, table, shown)
      && (forall r :: r in Listing(p, table, shown) <==>
            && r in table && r.item.workspaceId == workspaceId && r.item.status == status
            && kind in {"", r.item.actionType})
      && (forall i, j :: 0 <= i < j < |Listing(p, table, shown)| ==>
            Listing(p, table, shown)[i].id < Listing(p, table, shown)[j].id)
  {
    var p := InboxPaging(c);
    IdsOrdered(c);
    ListingWalkIsComplete(p, table, Shown(workspaceId, status, kind), PageLimit(limit));
    ListingIsStrict(p, table, Shown(workspaceId, status, kind));
  }
}
