// Keyset paging: each page holds the rows after the cursor, in order, up to a
// limit, and its next cursor names the last of them when more are left.
module KeysetPaging {
  import opened Wrappers
  import opened Sequences

  // How a listing orders its rows and writes its cursors.
  datatype Paging<!T, !K> = Paging(
    key: T -> K, leq: (K, K) -> bool, encode: K -> string, decode: string -> Option<K>)

  predicate IsAfter<T, K(==)>(p: Paging<T, K>, cursor: Option<K>, x: T) {
    cursor.None? || (p.leq(cursor.value, p.key(x)) && p.key(x) != cursor.value)
  }

  // The rows after the cursor, given all rows in order.
  function After<T(!new), K(==)>(p: Paging<T, K>, rows: seq<T>, cursor: Option<K>): seq<T> {
    Filter(rows, x => IsAfter(p, cursor, x))
  }

  function Page<T(!new), K(==)>(p: Paging<T, K>, rows: seq<T>, limit: nat, cursor: string): (r: (seq<T>, string))
    requires limit > 0
  {
    var rest := After(p, rows, p.decode(cursor));
    if |rest| > limit then (rest[..limit], p.encode(p.key(rest[limit - 1]))) else (rest, "")
  }

  // Rows in strict order, and cursors that read back.
  ghost predicate Lawful<T(!new), K(!new)>(p: Paging<T, K>, rows: seq<T>) {
    && (forall a, b :: p.leq(a, b) && p.leq(b, a) ==> a == b)
    && (forall a, b, c :: p.leq(a, b) && p.leq(b, c) ==> p.leq(a, c))
    && (forall i, j :: 0 <= i < j < |rows| ==>
         p.leq(p.key(rows[i]), p.key(rows[j])) && p.key(rows[i]) != p.key(rows[j]))
    && p.decode("") == None
    && (forall i :: 0 <= i < |rows| ==>
          p.encode(p.key(rows[i])) != "" && p.decode(p.encode(p.key(rows[i]))) == Some(p.key(rows[i])))
  }

  // The cursor stands before row n.
  ghost predicate Before<T(!new), K(!new)>(p: Paging<T, K>, rows: seq<T>, cursor: Option<K>, n: nat) {
    n <= |rows| && if n == 0 then cursor == None else cursor == Some(p.key(rows[n - 1]))
  }

  lemma AfterIsRest<T(!new), K(!new)>(p: Paging<T, K>, rows: seq<T>, cursor: Option<K>, n: nat)
    requires Lawful(p, rows) && Before(p, rows, cursor, n)
    ensures After(p, rows, cursor) == rows[n..]
  {
    var after := (x: T) => IsAfter(p, cursor, x);
    assert rows == rows[..n] + rows[n..];
    FilterAppend(rows[..n], rows[n..], after);
    if n > 0 {
      forall x | x in rows[..n] ensures !after(x) {
        var i :| 0 <= i < n && rows[i] == x;
        assert i < n - 1 ==> p.leq(p.key(rows[i]), p.key(rows[n - 1])) && p.key(rows[i]) != p.key(rows[n - 1]);
      }
      FilterNone(rows[..n], after);
    } else {
      assert rows[..0] == [];
    }
    forall x | x in rows[n..] ensures after(x) {
      var i :| n <= i < |rows| && rows[i] == x;
    }
    FilterAll(rows[n..], after);
  }

  lemma PageIsSlice<T(!new), K(!new)>(p: Paging<T, K>, rows: seq<T>, limit: nat, cursor: string, n: nat)
    requires limit > 0 && Lawful(p, rows) && Before(p, rows, p.decode(cursor), n)
    ensures var (items, next) := Page(p, rows, limit, cursor);
      if |rows| - n > limit
      then items == rows[n..n + limit] && next != "" && Before(p, rows, p.decode(next), n + limit)
      else items == rows[n..] && next == ""
  {
    AfterIsRest(p, rows, p.decode(cursor), n);
    if |rows| - n > limit {
      assert rows[n..][..limit] == rows[n..n + limit];
      assert rows[n..][limit - 1] == rows[n + limit - 1];
    }
  }

  // Following next-cursors from `cursor` until there is none.
  ghost function Walk<T(!new), K(!new)>(p: Paging<T, K>, rows: seq<T>, limit: nat, cursor: string, n: nat): seq<seq<T>>
    requires limit > 0 && Lawful(p, rows) && Before(p, rows, p.decode(cursor), n)
    decreases |rows| - n
  {
    PageIsSlice(p, rows, limit, cursor, n);
    var (items, next) := Page(p, rows, limit, cursor);
    if next == "" then [items] else [items] + Walk(p, rows, limit, next, n + limit)
  }

  function Concat<T>(pages: seq<seq<T>>): seq<T> {
    if pages == [] then [] else pages[0] + Concat(pages[1..])
  }

  // The walk ends, and its pages put together are exactly the rows from the
  // cursor on: none lost, none twice. Every page but the last is full.
  lemma {:induction false} WalkIsComplete<T(!new), K(!new)>(p: Paging<T, K>, rows: seq<T>, limit: nat,
      cursor: string, n: nat)
    requires limit > 0 && Lawful(p, rows) && Before(p, rows, p.decode(cursor), n)
    ensures var pages := Walk(p, rows, limit, cursor, n);
      && Concat(pages) == rows[n..]
      && pages != [] && |pages[|pages| - 1]| <= limit
      && (forall i :: 0 <= i < |pages| - 1 ==> |pages[i]| == limit)
    decreases |rows| - n
  {
    PageIsSlice(p, rows, limit, cursor, n);
    var (items, next) := Page(p, rows, limit, cursor);
    var pages := Walk(p, rows, limit, cursor, n);
    if next == "" {
      assert pages[1..] == [];
    } else {
      WalkIsComplete(p, rows, limit, next, n + limit);
      assert pages[1..] == Walk(p, rows, limit, next, n + limit);
      assert rows[n..] == rows[n..n + limit] + rows[n + limit..];
    }
  }

  // ------------------------------------------------------ the page's query

  function ByKey<T, K>(p: Paging<T, K>): (T, T) -> bool {
    (x, y) => p.leq(p.key(x), p.key(y))
  }

  ghost predicate KeysDistinct<T, K>(p: Paging<T, K>, table: seq<T>) {
    forall i, j :: 0 <= i < j < |table| ==> p.key(table[i]) != p.key(table[j])
  }

  // The order the query sorts by never ties.
  ghost predicate TotalOrder<K(!new)>(leq: (K, K) -> bool) {
    TotalPreorder(leq) && forall a, b :: leq(a, b) && leq(b, a) ==> a == b
  }

  // All the rows a listing shows, in its order.
  function Listing<T(!new), K>(p: Paging<T, K>, table: seq<T>, shown: T -> bool): seq<T> {
    StableSort(Filter(table, shown), ByKey(p))
  }

  function Cut<T(!new), K(==)>(p: Paging<T, K>, shown: T -> bool, cursor: Option<K>): T -> bool {
    x => shown(x) && IsAfter(p, cursor, x)
  }

  // WHERE shown AND after the cursor, ORDER BY key.
  function Selected<T(!new), K(==)>(p: Paging<T, K>, table: seq<T>, shown: T -> bool, cursor: Option<K>): seq<T> {
    StableSort(Filter(table, Cut(p, shown, cursor)), ByKey(p))
  }

  lemma ByKeyOrders<T(!new), K(!new)>(p: Paging<T, K>)
    requires TotalOrder(p.leq)
    ensures TotalPreorder(ByKey(p))
  {
  }

  // Cutting off at the cursor before sorting is cutting off after sorting.
  lemma SelectedIsAfter<T(!new), K(!new)>(p: Paging<T, K>, table: seq<T>, shown: T -> bool, cursor: Option<K>)
    requires TotalOrder(p.leq) && KeysDistinct(p, table)
    ensures Selected(p, table, shown, cursor) == After(p, Listing(p, table, shown), cursor)
  {
    var order, after := ByKey(p), (x: T) => IsAfter(p, cursor, x);
    var kept := Filter(table, shown);
    var cut := Filter(table, Cut(p, shown, cursor));
    ByKeyOrders(p);
    StableSortSorts(cut, order);
    StableSortSorts(kept, order);
    FilterSorted(Listing(p, table, shown), order, after);
    FilterFilter(table, shown, after);
    FilterSame(table, x => shown(x) && after(x), Cut(p, shown, cursor));
    assert cut == Filter(kept, after);
    FilterMultiset(Listing(p, table, shown), kept, after);
    forall x, y | x in Selected(p, table, shown, cursor) && y in Selected(p, table, shown, cursor) && order(x, y)
      && order(y, x)
      ensures x == y
    {
      FilterMember(table, Cut(p, shown, cursor), x);
      FilterMember(table, Cut(p, shown, cursor), y);
      KeyNamesRow(p, table, x, y);
    }
    SortedUnique(Selected(p, table, shown, cursor), After(p, Listing(p, table, shown), cursor), order);
  }

  lemma KeyNamesRow<T, K>(p: Paging<T, K>, table: seq<T>, x: T, y: T)
    requires KeysDistinct(p, table) && x in table && y in table && p.key(x) == p.key(y)
    ensures x == y
  {
    var i :| 0 <= i < |table| && table[i] == x;
    var j :| 0 <= j < |table| && table[j] == y;
  }

  // A listing of rows with distinct keys is in strict order.
  lemma ListingIsStrict<T(!new), K(!new)>(p: Paging<T, K>, table: seq<T>, shown: T -> bool)
    requires TotalOrder(p.leq) && KeysDistinct(p, table)
    ensures var rows := Listing(p, table, shown);
      forall i, j :: 0 <= i < j < |rows| ==> p.leq(p.key(rows[i]), p.key(rows[j])) && p.key(rows[i]) != p.key(rows[j])
    ensures forall x :: x in Listing(p, table, shown) <==> x in table && shown(x)
  {
    var order, kept := ByKey(p), Filter(table, shown);
    var rows := Listing(p, table, shown);
    ByKeyOrders(p);
    StableSortSorts(kept, order);
    forall x ensures x in rows <==> x in table && shown(x) {
      FilterMember(table, shown, x);
    }
    forall i, j | 0 <= i < j < |rows|
      ensures p.leq(p.key(rows[i]), p.key(rows[j])) && p.key(rows[i]) != p.key(rows[j])
    {
      assert order(rows[i], rows[j]);
      assert rows[i] in rows && rows[j] in rows;
      if p.key(rows[i]) == p.key(rows[j]) {
        KeyNamesRow(p, table, rows[i], rows[j]);
        TwiceInSequence(rows, i, j);
        FilterCount(table, shown, rows[i]);
        OnceInTable(p, table, rows[i]);
      }
    }
  }

  lemma {:induction false} OnceInTable<T, K>(p: Paging<T, K>, table: seq<T>, x: T)
    requires KeysDistinct(p, table)
    ensures multiset(table)[x] <= 1
    decreases |table|
  {
    if table != [] {
      OnceInTable(p, table[1..], x);
      assert table == [table[0]] + table[1..];
    }
  }

  // Walking any listing over a table with distinct keys, whose cursors read
  // back, from the start.
  lemma ListingWalkIsComplete<T(!new), K(!new)>(p: Paging<T, K>, table: seq<T>, shown: T -> bool, limit: nat)
    requires limit > 0 && TotalOrder(p.leq) && KeysDistinct(p, table) && p.decode("") == None
    requires forall x :: x in table ==> p.encode(p.key(x)) != "" && p.decode(p.encode(p.key(x))) == Some(p.key(x))
    ensures Lawful(p, Listing(p, table, shown))
    ensures Concat(Walk(p, Listing(p, table, shown), limit, "", 0)) == Listing(p, table, shown)
  {
    var rows := Listing(p, table, shown);
    ListingIsStrict(p, table, shown);
    assert forall i :: 0 <= i < |rows| ==> rows[i] in rows;
    WalkIsComplete(p, rows, limit, "", 0);
    assert rows[0..] == rows;
  }
}
