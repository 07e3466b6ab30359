/** Keyset paging over the ledger and the reservations (src/capacity/application/audit-read.service.ts). */
module Paging {
  import opened Wrappers
  import opened Domain
  import opened Tables
  import opened Ledger
  import opened Runs
  import opened Book
  import opened Evolution

  // ---------- Keys ----------

  /** A page is ordered by a pair: (created_at, id), or (sequence, 0) where the sequence alone decides. */
  datatype Key = Key(major: int, minor: int)

  predicate Less(a: Key, b: Key) {
    a.major < b.major || (a.major == b.major && a.minor < b.minor)
  }

  /** A row of one of the two tables, under its key. */
  datatype Item = LedgerItem(key: Key, entry: LedgerRow) | ReservationItem(key: Key, reservation: ReservationRow)

  predicate DistinctKeys(rows: seq<Item>) {
    forall i, j :: 0 <= i < j < |rows| ==> rows[i].key != rows[j].key
  }

  predicate Descending(rows: seq<Item>) {
    forall i, j :: 0 <= i < j < |rows| ==> Less(rows[j].key, rows[i].key)
  }

  // ---------- WHERE ... ORDER BY ... DESC ----------

  predicate Below(k: Key, cursor: Option<Key>) {
    cursor.Some? ==> Less(k, cursor.value)
  }

  function Select(rows: seq<Item>, keep: Item -> bool, cursor: Option<Key>): seq<Item> {
    if rows == [] then [] else
      var last := rows[|rows| - 1];
      Select(rows[..|rows| - 1], keep, cursor) + if keep(last) && Below(last.key, cursor) then [last] else []
  }

  function Insert(x: Item, rows: seq<Item>): seq<Item> {
    if rows == [] || Less(rows[0].key, x.key) then [x] + rows else [rows[0]] + Insert(x, rows[1..])
  }

  function Sorted(rows: seq<Item>): seq<Item> {
    if rows == [] then [] else Insert(rows[|rows| - 1], Sorted(rows[..|rows| - 1]))
  }

  /** What one query without a limit returns. */
  function Listing(rows: seq<Item>, keep: Item -> bool, cursor: Option<Key>): seq<Item> {
    Sorted(Select(rows, keep, cursor))
  }

  // ---------- Pages ----------

  datatype Page = Page(items: seq<Item>, nextCursor: Option<Key>)

  /** LIMIT limit + 1: the extra row only says whether there is more. */
  function PageOf(found: seq<Item>, limit: nat): Page {
    var hasMore := |found| > limit;
    var items := if hasMore then found[..limit] else found;
    Page(items, if hasMore && items != [] then Some(items[|items| - 1].key) else None)
  }

  function Take(rows: seq<Item>, n: nat): seq<Item> {
    if |rows| <= n then rows else rows[..n]
  }

  function ListPage(rows: seq<Item>, keep: Item -> bool, cursor: Option<Key>, limit: nat): Page {
    PageOf(Take(Listing(rows, keep, cursor), limit + 1), limit)
  }

  // ---------- Sorting is right ----------

  lemma {:induction false} InsertSorts(x: Item, rows: seq<Item>)
    requires Descending(rows) && forall k :: 0 <= k < |rows| ==> rows[k].key != x.key
    ensures Descending(Insert(x, rows)) && |Insert(x, rows)| == |rows| + 1
    ensures forall y :: y in Insert(x, rows) <==> y == x || y in rows
  {
    if rows != [] && !Less(rows[0].key, x.key) {
      InsertSorts(x, rows[1..]);
      var rest := Insert(x, rows[1..]);
      assert forall y :: y in rows <==> y == rows[0] || y in rows[1..];
      assert forall y :: y in rest ==> Less(y.key, rows[0].key);
      assert forall k :: 0 <= k < |rest| ==> rest[k] in rest;
    }
  }

  lemma {:induction false} SortedSorts(rows: seq<Item>)
    requires DistinctKeys(rows)
    ensures Descending(Sorted(rows)) && |Sorted(rows)| == |rows|
    ensures forall y :: y in Sorted(rows) <==> y in rows
  {
    if rows != [] {
      var n := |rows| - 1;
      SortedSorts(rows[..n]);
      assert rows == rows[..n] + [rows[n]];
      forall k | 0 <= k < n ensures Sorted(rows[..n])[k].key != rows[n].key {
        assert Sorted(rows[..n])[k] in rows[..n];
      }
      InsertSorts(rows[n], Sorted(rows[..n]));
    }
  }

  lemma {:induction false} SelectSelects(rows: seq<Item>, keep: Item -> bool, cursor: Option<Key>)
    ensures forall y :: y in Select(rows, keep, cursor) <==> y in rows && keep(y) && Below(y.key, cursor)
    ensures DistinctKeys(rows) ==> DistinctKeys(Select(rows, keep, cursor))
  {
    if rows != [] {
      var n := |rows| - 1;
      SelectSelects(rows[..n], keep, cursor);
      assert rows == rows[..n] + [rows[n]];
      var front := Select(rows[..n], keep, cursor);
      assert forall k :: 0 <= k < |front| ==> front[k] in rows[..n];
    }
  }

  /** The listing holds exactly the rows that satisfy the filter, newest first. */
  lemma ListingIs(rows: seq<Item>, keep: Item -> bool, cursor: Option<Key>)
    requires DistinctKeys(rows)
    ensures Descending(Listing(rows, keep, cursor)) && |Listing(rows, keep, cursor)| == |Select(rows, keep, cursor)|
    ensures forall y :: y in Listing(rows, keep, cursor) <==> y in rows && keep(y) && Below(y.key, cursor)
  {
    SelectSelects(rows, keep, cursor);
    SortedSorts(Select(rows, keep, cursor));
  }

  lemma HeadIsMember(rows: seq<Item>)
    ensures rows != [] ==> rows[0] in rows
  {
  }

  lemma HeadIsGreatest(rows: seq<Item>, y: Item)
    requires Descending(rows) && y in rows && y != rows[0]
    ensures Less(y.key, rows[0].key)
  {
  }

  lemma TailMembers(rows: seq<Item>, y: Item)
    requires Descending(rows) && rows != []
    ensures y in rows[1..] <==> y in rows && y != rows[0]
  {
  }

  /** There is only one way to list the same rows in descending order. */
  lemma {:induction false} DescendingIsUnique(a: seq<Item>, b: seq<Item>)
    requires Descending(a) && Descending(b) && forall y :: y in a <==> y in b
    ensures a == b
  {
    if a == [] {
      HeadIsMember(b);
    } else {
      assert a[0] in a && a[0] in b && b[0] in a;
      if a[0] != b[0] {
        HeadIsGreatest(a, b[0]);
        HeadIsGreatest(b, a[0]);
      }
      forall y ensures y in a[1..] <==> y in b[1..] {
        TailMembers(a, y);
        TailMembers(b, y);
      }
      DescendingIsUnique(a[1..], b[1..]);
      assert a == [a[0]] + a[1..] && b == [b[0]] + b[1..];
    }
  }

  lemma SuffixMembers(rows: seq<Item>, i: nat, y: Item)
    requires Descending(rows) && i < |rows|
    ensures y in rows[i + 1..] <==> y in rows && Less(y.key, rows[i].key)
  {
  }

  /** Continuing below the i-th row of a listing gives what follows it there. */
  lemma ContinuesBelow(rows: seq<Item>, keep: Item -> bool, cursor: Option<Key>, i: nat)
    requires DistinctKeys(rows) && i < |Listing(rows, keep, cursor)|
    ensures Listing(rows, keep, Some(Listing(rows, keep, cursor)[i].key)) == Listing(rows, keep, cursor)[i + 1..]
  {
    var all := Listing(rows, keep, cursor);
    var rest := Listing(rows, keep, Some(all[i].key));
    ListingIs(rows, keep, cursor);
    ListingIs(rows, keep, Some(all[i].key));
    forall y ensures y in rest <==> y in all[i + 1..] {
      SuffixMembers(all, i, y);
      assert all[i] in all;
    }
    DescendingIsUnique(rest, all[i + 1..]);
  }

  // ---------- Following the cursor ----------

  lemma ListingLength(rows: seq<Item>, keep: Item -> bool, cursor: Option<Key>)
    requires DistinctKeys(rows)
    ensures |Listing(rows, keep, cursor)| == |Select(rows, keep, cursor)|
  {
    ListingIs(rows, keep, cursor);
  }

  lemma RestIsShorter(rows: seq<Item>, keep: Item -> bool, cursor: Option<Key>, n: nat)
    requires DistinctKeys(rows) && 1 <= n < |Listing(rows, keep, cursor)|
    ensures var next := Some(Listing(rows, keep, cursor)[n - 1].key);
      && Listing(rows, keep, next) == Listing(rows, keep, cursor)[n..]
      && |Select(rows, keep, next)| < |Select(rows, keep, cursor)|
  {
    ContinuesBelow(rows, keep, cursor, n - 1);
    ListingLength(rows, keep, cursor);
    ListingLength(rows, keep, Some(Listing(rows, keep, cursor)[n - 1].key));
  }

  lemma PageSplits(all: seq<Item>, limit: nat)
    requires limit >= 1
    ensures var page := PageOf(Take(all, limit + 1), limit);
      if |all| <= limit then page == Page(all, None)
      else page == Page(all[..limit], Some(all[limit - 1].key))
  {
  }

  /** The next page starts right after this one, and there is less left. */
  lemma NextPageFollows(rows: seq<Item>, keep: Item -> bool, cursor: Option<Key>, limit: nat)
    requires DistinctKeys(rows) && limit >= 1
    ensures var page := ListPage(rows, keep, cursor, limit);
      if page.nextCursor.None? then page.items == Listing(rows, keep, cursor)
      else
        && Listing(rows, keep, cursor) == page.items + Listing(rows, keep, page.nextCursor)
        && |Select(rows, keep, page.nextCursor)| < |Select(rows, keep, cursor)|
        && page.items != [] && page.nextCursor == Some(page.items[|page.items| - 1].key)
  {
    var all := Listing(rows, keep, cursor);
    PageSplits(all, limit);
    if |all| > limit {
      RestIsShorter(rows, keep, cursor, limit);
      assert ListPage(rows, keep, cursor, limit) == Page(all[..limit], Some(all[limit - 1].key));
      assert all == all[..limit] + all[limit..];
    }
  }

  /** All the pages, one after the other, while the table stays the same. */
  function AllPages(rows: seq<Item>, keep: Item -> bool, cursor: Option<Key>, limit: nat): seq<Item>
    requires DistinctKeys(rows) && limit >= 1
    decreases |Select(rows, keep, cursor)|
  {
    NextPageFollows(rows, keep, cursor, limit);
    var page := ListPage(rows, keep, cursor, limit);
    page.items + if page.nextCursor.None? then [] else AllPages(rows, keep, page.nextCursor, limit)
  }

  /** For any limit the pages together are the whole filtered table, newest first, nothing skipped or repeated. */
  lemma {:induction false} PagesCover(rows: seq<Item>, keep: Item -> bool, cursor: Option<Key>, limit: nat)
    requires DistinctKeys(rows) && limit >= 1
    ensures AllPages(rows, keep, cursor, limit) == Listing(rows, keep, cursor)
    decreases |Select(rows, keep, cursor)|
  {
    NextPageFollows(rows, keep, cursor, limit);
    var page := ListPage(rows, keep, cursor, limit);
    if page.nextCursor.Some? { PagesCover(rows, keep, page.nextCursor, limit); }
  }

  // ---------- A table that grows between pages ----------

  /** `later` adds rows above everything `first` holds. */
  predicate GrowsAbove(first: seq<Item>, later: seq<Item>) {
    && first <= later && DistinctKeys(later)
    && forall i, j :: 0 <= i < |first| <= j < |later| ==> Less(first[i].key, later[j].key)
  }

  /** The cursor is the key of a row that was there at the first page. */
  predicate CursorIn(first: seq<Item>, cursor: Option<Key>) {
    cursor.Some? && exists i :: 0 <= i < |first| && first[i].key == cursor.value
  }

  lemma GrowthIsUnseen(first: seq<Item>, later: seq<Item>, keep: Item -> bool, cursor: Option<Key>)
    requires GrowsAbove(first, later) && CursorIn(first, cursor)
    ensures Select(later, keep, cursor) == Select(first, keep, cursor)
    decreases |later|
  {
    if first == later {
    } else {
      var n := |later| - 1;
      var i :| 0 <= i < |first| && first[i].key == cursor.value;
      assert Less(first[i].key, later[n].key);
      assert first <= later[..n];
      GrowthIsUnseen(first, later[..n], keep, cursor);
    }
  }

  ghost predicate Growing(tables: nat -> seq<Item>) {
    forall j: nat :: GrowsAbove(tables(0), tables(j))
  }

  /** All the pages from the k-th on, each read from the table as it is by then. */
  ghost function PagesOver(tables: nat -> seq<Item>, k: nat, keep: Item -> bool, cursor: Option<Key>, limit: nat): seq<Item>
    requires limit >= 1 && Growing(tables) && (k == 0 || CursorIn(tables(0), cursor))
    decreases |Select(tables(0), keep, cursor)|
  {
    PageOverGrowth(tables, k, keep, cursor, limit);
    var page := ListPage(tables(k), keep, cursor, limit);
    page.items + if page.nextCursor.None? then [] else PagesOver(tables, k + 1, keep, page.nextCursor, limit)
  }

  lemma PageOverGrowth(tables: nat -> seq<Item>, k: nat, keep: Item -> bool, cursor: Option<Key>, limit: nat)
    requires limit >= 1 && Growing(tables) && (k == 0 || CursorIn(tables(0), cursor))
    ensures ListPage(tables(k), keep, cursor, limit) == ListPage(tables(0), keep, cursor, limit)
    ensures var next := ListPage(tables(k), keep, cursor, limit).nextCursor;
      next.Some? ==> CursorIn(tables(0), next) && |Select(tables(0), keep, next)| < |Select(tables(0), keep, cursor)|
  {
    assert GrowsAbove(tables(0), tables(0)) && GrowsAbove(tables(0), tables(k));
    if k > 0 { GrowthIsUnseen(tables(0), tables(k), keep, cursor); }
    NextPageFollows(tables(0), keep, cursor, limit);
    var page := ListPage(tables(0), keep, cursor, limit);
    if page.nextCursor.Some? {
      ListingIs(tables(0), keep, cursor);
      var last := page.items[|page.items| - 1];
      assert last in page.items && last in Listing(tables(0), keep, cursor);
    }
  }

  lemma PagesOverUnrolls(tables: nat -> seq<Item>, k: nat, keep: Item -> bool, cursor: Option<Key>, limit: nat)
    returns (next: Option<Key>)
    requires limit >= 1 && Growing(tables) && (k == 0 || CursorIn(tables(0), cursor)) && DistinctKeys(tables(0))
    ensures next.None? ==> PagesOver(tables, k, keep, cursor, limit) == Listing(tables(0), keep, cursor)
    ensures next.Some? ==>
      && CursorIn(tables(0), next) && |Select(tables(0), keep, next)| < |Select(tables(0), keep, cursor)|
      && exists items: seq<Item> ::
           && PagesOver(tables, k, keep, cursor, limit) == items + PagesOver(tables, k + 1, keep, next, limit)
           && Listing(tables(0), keep, cursor) == items + Listing(tables(0), keep, next)
  {
    hide ListPage, Listing, Select, GrowsAbove, CursorIn, DistinctKeys;
    PageOverGrowth(tables, k, keep, cursor, limit);
    NextPageFollows(tables(0), keep, cursor, limit);
    var page := ListPage(tables(k), keep, cursor, limit);
    next := page.nextCursor;
    if next.None? {
      assert PagesOver(tables, k, keep, cursor, limit) == page.items + [];
    } else {
      assert PagesOver(tables, k, keep, cursor, limit) == page.items + PagesOver(tables, k + 1, keep, next, limit);
    }
  }

  /** Pages read while the table grows still cover exactly what was there at the first page. */
  lemma {:induction false} GrowingPagesCover(tables: nat -> seq<Item>, k: nat, keep: Item -> bool, cursor: Option<Key>, limit: nat)
    requires limit >= 1 && Growing(tables) && (k == 0 || CursorIn(tables(0), cursor))
    ensures PagesOver(tables, k, keep, cursor, limit) == Listing(tables(0), keep, cursor)
    decreases |Select(tables(0), keep, cursor)|
  {
    assert GrowsAbove(tables(0), tables(0));
    var next := PagesOverUnrolls(tables, k, keep, cursor, limit);
    if next.Some? { GrowingPagesCover(tables, k + 1, keep, next, limit); }
  }

  // ---------- The two listings ----------

  const RESERVATION_DEFAULT_LIMIT: nat := 50
  const RESERVATION_MAX_LIMIT: nat := 200
  const LEDGER_DEFAULT_LIMIT: nat := 100
  const LEDGER_MAX_LIMIT: nat := 1000

  datatype ListError = ValidationFailed | ProgramMissing

  /** A cursor as the caller sends it: undecodable, or naming a key. */
  datatype Cursor = Malformed | At(key: Key)

  datatype LedgerQuery = LedgerQuery(from: Option<Time>, to: Option<Time>, cause: Option<Cause>, cursor: Option<Cursor>, limit: Option<int>)

  datatype ReservationsQuery = ReservationsQuery(status: Option<Status>, cursor: Option<Cursor>, limit: Option<int>)

  function BoundLimit(limit: Option<int>, fallback: nat, maximum: nat): Result<nat, ListError> {
    if limit.None? then Success(fallback)
    else if limit.value < 1 || limit.value > maximum then Failure(ValidationFailed)
    else Success(limit.value)
  }

  function LedgerItems(ledger: seq<LedgerRow>): seq<Item> {
    seq(|ledger|, k requires 0 <= k < |ledger| => LedgerItem(Key(ledger[k].sequence, 0), ledger[k]))
  }

  /** Both bounds on the time are inclusive. */
  function LedgerFilter(q: LedgerQuery): Item -> bool {
    (x: Item) => x.LedgerItem?
      && (q.from.Some? ==> q.from.value <= x.entry.occurredAt)
      && (q.to.Some? ==> x.entry.occurredAt <= q.to.value)
      && (q.cause.Some? ==> x.entry.entry.cause == q.cause.value)
  }

  function ReservationFilter(q: ReservationsQuery): Item -> bool {
    (x: Item) => x.ReservationItem? && (q.status.Some? ==> x.reservation.status == q.status.value)
  }

  /** The page a cursor asks for, unless it cannot be read. */
  function PageAt(rows: seq<Item>, keep: Item -> bool, cursor: Option<Cursor>, limit: nat): Result<Page, ListError> {
    if cursor.None? then Success(ListPage(rows, keep, None, limit))
    else if cursor.value.Malformed? then Failure(ValidationFailed)
    else Success(ListPage(rows, keep, Some(cursor.value.key), limit))
  }

  /** A condition pushed onto the WHERE clause. */
  datatype Condition = IsLedger | IsReservation | From(t: Time) | To(t: Time) | CauseIs(cause: Cause) | StatusIs(status: Status) | Under(key: Key)

  predicate Holds(c: Condition, x: Item) {
    match c
    case IsLedger => x.LedgerItem?
    case IsReservation => x.ReservationItem?
    case From(t) => x.LedgerItem? && t <= x.entry.occurredAt
    case To(t) => x.LedgerItem? && x.entry.occurredAt <= t
    case CauseIs(cause) => x.LedgerItem? && x.entry.entry.cause == cause
    case StatusIs(status) => x.ReservationItem? && x.reservation.status == status
    case Under(key) => Less(x.key, key)
  }

  predicate All(conditions: seq<Condition>, x: Item) {
    forall k :: 0 <= k < |conditions| ==> Holds(conditions[k], x)
  }

  lemma AllPushed(conditions: seq<Condition>, c: Condition, x: Item)
    ensures All(conditions + [c], x) <==> All(conditions, x) && Holds(c, x)
  {
    assert (conditions + [c])[|conditions|] == c;
    assert forall k :: 0 <= k < |conditions| ==> (conditions + [c])[k] == conditions[k];
  }

  /** A conjunction of conditions selects what the filter and the cursor do. */
  lemma WhereSelects(rows: seq<Item>, conditions: seq<Condition>, keep: Item -> bool, cursor: Option<Key>)
    requires forall x :: All(conditions, x) <==> keep(x) && Below(x.key, cursor)
    ensures Select(rows, (x: Item) => All(conditions, x), None) == Select(rows, keep, cursor)
  {
  }

  /** SELECT ... WHERE conditions ORDER BY key DESC LIMIT n. */
  function Query(rows: seq<Item>, conditions: seq<Condition>, n: nat): seq<Item> {
    Take(Sorted(Select(rows, (x: Item) => All(conditions, x), None)), n)
  }

  lemma QueryIs(rows: seq<Item>, conditions: seq<Condition>, keep: Item -> bool, cursor: Option<Key>, n: nat)
    requires forall x :: All(conditions, x) <==> keep(x) && Below(x.key, cursor)
    ensures Query(rows, conditions, n) == Take(Listing(rows, keep, cursor), n)
  {
    WhereSelects(rows, conditions, keep, cursor);
  }

  method Push(conditions: seq<Condition>, c: Option<Condition>) returns (r: seq<Condition>)
    ensures forall x :: All(r, x) <==> All(conditions, x) && (c.Some? ==> Holds(c.value, x))
  {
    r := conditions;
    if c.Some? {
      r := r + [c.value];
      forall x ensures All(r, x) <==> All(conditions, x) && Holds(c.value, x) { AllPushed(conditions, c.value, x); }
    }
  }

  method CutPage(found: seq<Item>, limit: nat) returns (page: Page)
    ensures page == PageOf(found, limit)
  {
    var hasMore := |found| > limit;
    var items := if hasMore then found[..limit] else found;
    var nextCursor: Option<Key> := None;
    if hasMore && |items| > 0 {
      nextCursor := Some(items[|items| - 1].key);
    }
    page := Page(items, nextCursor);
  }

  /** The query for one row more than a page, and the cursor of the last row if that one came back. */
  method FetchPage(rows: seq<Item>, conditions: seq<Condition>, cursor: Option<Cursor>, limit: nat, ghost keep: Item -> bool)
    returns (r: Result<Page, ListError>)
    requires forall x :: All(conditions, x) <==> keep(x)
    ensures r == PageAt(rows, keep, cursor, limit)
  {
    var pushed := conditions;
    ghost var below: Option<Key> := None;
    if cursor.Some? {
      if cursor.value.Malformed? {
        return Failure(ValidationFailed);
      }
      below := Some(cursor.value.key);
      pushed := Push(conditions, Some(Under(cursor.value.key)));
    }
    QueryIs(rows, pushed, keep, below, limit + 1);
    var found := Query(rows, pushed, limit + 1);
    var page := CutPage(found, limit);
    r := Success(page);
  }

  /** What listLedger answers: the limit is checked first, then the program, then the cursor. */
  function LedgerPage(accounts: map<string, Account>, programId: string, q: LedgerQuery): Result<Page, ListError> {
    match BoundLimit(q.limit, LEDGER_DEFAULT_LIMIT, LEDGER_MAX_LIMIT)
    case Failure(e) => Failure(e)
    case Success(limit) =>
      if programId !in accounts then Failure(ProgramMissing)
      else PageAt(LedgerItems(accounts[programId].ledger), LedgerFilter(q), q.cursor, limit)
  }

  method ListLedger(accounts: map<string, Account>, programId: string, q: LedgerQuery) returns (r: Result<Page, ListError>)
    ensures r == LedgerPage(accounts, programId, q)
  {
    var limit := BoundLimit(q.limit, LEDGER_DEFAULT_LIMIT, LEDGER_MAX_LIMIT);
    if limit.Failure? {
      return Failure(limit.error);
    }
    if programId !in accounts {
      return Failure(ProgramMissing);
    }
    var conditions := Push([], Some(IsLedger));
    conditions := Push(conditions, if q.from.Some? then Some(From(q.from.value)) else None);
    conditions := Push(conditions, if q.to.Some? then Some(To(q.to.value)) else None);
    conditions := Push(conditions, if q.cause.Some? then Some(CauseIs(q.cause.value)) else None);
    assert forall x :: All(conditions, x) <==> LedgerFilter(q)(x);
    r := FetchPage(LedgerItems(accounts[programId].ledger), conditions, q.cursor, limit.value, LedgerFilter(q));
  }

  function ReservationsPage(rows: seq<Item>, q: ReservationsQuery): Result<Page, ListError> {
    match BoundLimit(q.limit, RESERVATION_DEFAULT_LIMIT, RESERVATION_MAX_LIMIT)
    case Failure(e) => Failure(e)
    case Success(limit) => PageAt(rows, ReservationFilter(q), q.cursor, limit)
  }

  method ListReservations(rows: seq<Item>, q: ReservationsQuery) returns (r: Result<Page, ListError>)
    ensures r == ReservationsPage(rows, q)
  {
    var limit := BoundLimit(q.limit, RESERVATION_DEFAULT_LIMIT, RESERVATION_MAX_LIMIT);
    if limit.Failure? {
      return Failure(limit.error);
    }
    var conditions := Push([], Some(IsReservation));
    conditions := Push(conditions, if q.status.Some? then Some(StatusIs(q.status.value)) else None);
    assert forall x :: All(conditions, x) <==> ReservationFilter(q)(x);
    r := FetchPage(rows, conditions, q.cursor, limit.value, ReservationFilter(q));
  }

  // ---------- Paging the ledger of a live program ----------

  function TableAt(db: Db, programId: string): seq<Item> {
    if programId in db.accounts then LedgerItems(db.accounts[programId].ledger) else []
  }

  lemma GaplessGrowsAbove(a: Account, b: Account)
    requires Gapless(a) && Gapless(b) && a.ledger <= b.ledger
    ensures GrowsAbove(LedgerItems(a.ledger), LedgerItems(b.ledger))
  {
  }

  /**
   * The pages of a ledger read from any reachable database and, page after page, from any later
   * states of it, are together the entries that the first page's database held and the filter
   * admits, newest first, each once.
   */
  lemma LedgerPagesCover(ops: seq<Op>, more: nat -> seq<Op>, programId: string, q: LedgerQuery, limit: nat)
    requires AllWellFormed(ops) && more(0) == [] && (forall k :: AllWellFormed(more(k))) && limit >= 1
    requires programId in Run(EMPTY, ops).accounts
    ensures var tables := (k: nat) => TableAt(Run(EMPTY, ops + more(k)), programId);
      && Growing(tables)
      && PagesOver(tables, 0, LedgerFilter(q), None, limit)
         == Listing(LedgerItems(Run(EMPTY, ops).accounts[programId].ledger), LedgerFilter(q), None)
  {
    var tables := (k: nat) => TableAt(Run(EMPTY, ops + more(k)), programId);
    assert ops + more(0) == ops;
    forall k: nat ensures GrowsAbove(tables(0), tables(k)) { LaterLedgerGrowsAbove(ops, more(k), programId); }
    GrowingPagesCover(tables, 0, LedgerFilter(q), None, limit);
  }

  lemma LaterLedgerGrowsAbove(ops: seq<Op>, more: seq<Op>, programId: string)
    requires AllWellFormed(ops) && AllWellFormed(more) && programId in Run(EMPTY, ops).accounts
    ensures GrowsAbove(TableAt(Run(EMPTY, ops), programId), TableAt(Run(EMPTY, ops + more), programId))
  {
    EveryRunKeepsInv(ops);
    RunEvolves(Run(EMPTY, ops), more);
    RunSplits(EMPTY, ops, more);
    GaplessGrowsAbove(Run(EMPTY, ops).accounts[programId], Run(EMPTY, ops + more).accounts[programId]);
  }

  // ---------- What a page holds ----------

  /** The newest rows under the cursor that pass, and a cursor exactly if there are more of them. */
  ghost predicate IsPage(rows: seq<Item>, keep: Item -> bool, cursor: Option<Key>, limit: nat, page: Page) {
    && |page.items| <= limit && Descending(page.items)
    && (forall y :: y in page.items ==> y in rows && keep(y) && Below(y.key, cursor))
    && (forall y :: y in rows && keep(y) && Below(y.key, cursor) ==>
          y in page.items || (page.nextCursor.Some? && Less(y.key, page.nextCursor.value)))
    && (page.nextCursor.Some? ==>
          && |page.items| == limit > 0 && page.nextCursor.value == page.items[limit - 1].key
          && exists y :: y in rows && keep(y) && Below(y.key, cursor) && Less(y.key, page.nextCursor.value))
  }

  lemma PageIs(rows: seq<Item>, keep: Item -> bool, cursor: Option<Key>, limit: nat)
    requires DistinctKeys(rows) && limit >= 1
    ensures IsPage(rows, keep, cursor, limit, ListPage(rows, keep, cursor, limit))
  {
    hide Listing, Below, IsPage, PageOf, Take, Descending, DistinctKeys;
    ListingIs(rows, keep, cursor);
    PageSplits(Listing(rows, keep, cursor), limit);
    FirstsArePage(rows, keep, cursor, limit, Listing(rows, keep, cursor));
  }

  /** The first rows of a listing are a page of it. */
  lemma FirstsArePage(rows: seq<Item>, keep: Item -> bool, cursor: Option<Key>, limit: nat, all: seq<Item>)
    requires limit >= 1 && Descending(all) && forall y :: y in all <==> y in rows && keep(y) && Below(y.key, cursor)
    ensures IsPage(rows, keep, cursor, limit,
      if |all| <= limit then Page(all, None) else Page(all[..limit], Some(all[limit - 1].key)))
  {
    hide Below;
    if |all| > limit {
      assert all[limit] in all && Less(all[limit].key, all[limit - 1].key);
      FirstsOrBelow(all, limit);
    }
  }

  lemma FirstsOrBelow(all: seq<Item>, limit: nat)
    requires 1 <= limit < |all| && Descending(all)
    ensures forall y :: y in all ==> y in all[..limit] || Less(y.key, all[limit - 1].key)
  {
    forall y | y in all ensures y in all[..limit] || Less(y.key, all[limit - 1].key) {
      var k :| 0 <= k < |all| && all[k] == y;
      if k < limit { assert all[..limit][k] == y; }
    }
  }

  /** A ledger entry the query asks for: in the period, both ends included, of the cause, and below the cursor. */
  predicate Wanted(row: LedgerRow, q: LedgerQuery) {
    && (q.from.Some? ==> q.from.value <= row.occurredAt) && (q.to.Some? ==> row.occurredAt <= q.to.value)
    && (q.cause.Some? ==> row.entry.cause == q.cause.value)
    && (q.cursor.Some? && q.cursor.value.At? ==> row.sequence < q.cursor.value.key.major)
  }

  /** The newest wanted entries, at most `n`, newest first, and the last one's sequence as cursor exactly if there are more. */
  ghost predicate IsLedgerPage(ledger: seq<LedgerRow>, q: LedgerQuery, n: nat, page: Page) {
    && |page.items| <= n
    && (forall k :: 0 <= k < |page.items| ==>
          page.items[k].LedgerItem? && page.items[k].entry in ledger && Wanted(page.items[k].entry, q))
    && (forall j, k :: 0 <= j < k < |page.items| ==>
          page.items[j].LedgerItem? && page.items[k].LedgerItem? && page.items[k].entry.sequence < page.items[j].entry.sequence)
    && (forall row :: row in ledger && Wanted(row, q) ==>
          LedgerItem(Key(row.sequence, 0), row) in page.items
          || (page.nextCursor.Some? && row.sequence < page.nextCursor.value.major))
    && (page.nextCursor.Some? ==>
          && |page.items| == n > 0 && page.items[n - 1].LedgerItem?
          && page.nextCursor.value == Key(page.items[n - 1].entry.sequence, 0)
          && exists row :: row in ledger && Wanted(row, q) && row.sequence < page.nextCursor.value.major)
  }

  lemma ItemOfRow(ledger: seq<LedgerRow>, x: Item)
    ensures x in LedgerItems(ledger) <==> x.LedgerItem? && x.entry in ledger && x.key == Key(x.entry.sequence, 0)
  {
    if x.LedgerItem? && x.entry in ledger && x.key == Key(x.entry.sequence, 0) {
      var k :| 0 <= k < |ledger| && ledger[k] == x.entry;
      assert LedgerItems(ledger)[k] == x;
    }
  }

  lemma LedgerPageIs(ledger: seq<LedgerRow>, q: LedgerQuery, n: nat)
    requires DistinctKeys(LedgerItems(ledger)) && n >= 1
    requires q.cursor.Some? ==> q.cursor.value.At? && q.cursor.value.key.minor == 0
    ensures IsLedgerPage(ledger, q, n,
      ListPage(LedgerItems(ledger), LedgerFilter(q), if q.cursor.Some? then Some(q.cursor.value.key) else None, n))
  {
    hide ListPage, LedgerItems;
    var items, keep := LedgerItems(ledger), LedgerFilter(q);
    var cursor := if q.cursor.Some? then Some(q.cursor.value.key) else None;
    var page := ListPage(items, keep, cursor, n);
    PageIs(items, keep, cursor, n);
    forall x: Item
      ensures x in items <==> x.LedgerItem? && x.entry in ledger && x.key == Key(x.entry.sequence, 0)
      ensures x in items && keep(x) && Below(x.key, cursor)
        <==> x.LedgerItem? && x.entry in ledger && x.key == Key(x.entry.sequence, 0) && Wanted(x.entry, q)
    {
      ItemOfRow(ledger, x);
    }
    forall k | 0 <= k < |page.items| ensures page.items[k] in items && page.items[k].LedgerItem? && Wanted(page.items[k].entry, q) {
      assert page.items[k] in page.items;
    }
    forall row | row in ledger && Wanted(row, q)
      ensures LedgerItem(Key(row.sequence, 0), row) in page.items
        || (page.nextCursor.Some? && row.sequence < page.nextCursor.value.major)
    {
      var x := LedgerItem(Key(row.sequence, 0), row);
      assert x in items && keep(x) && Below(x.key, cursor);
    }
  }

  /**
   * In every run the ledger listing answers: a limit outside 1 to 1000 is invalid, then an unknown program
   * is missing, then a malformed cursor is invalid; otherwise it is the page of the wanted entries, of 100
   * unless the query says how many.
   */
  lemma {:induction false} LedgerAnswered(ops: seq<Op>, programId: string, q: LedgerQuery)
    requires AllWellFormed(ops) && (q.cursor.Some? && q.cursor.value.At? ==> q.cursor.value.key.minor == 0)
    ensures var accounts := Run(EMPTY, ops).accounts;
      var r := LedgerPage(accounts, programId, q);
      if q.limit.Some? && (q.limit.value < 1 || 1000 < q.limit.value) then r == Failure(ValidationFailed)
      else if programId !in accounts then r == Failure(ProgramMissing)
      else if q.cursor == Some(Malformed) then r == Failure(ValidationFailed)
      else r.Success? && IsLedgerPage(accounts[programId].ledger, q, if q.limit.Some? then q.limit.value else 100, r.value)
  {
    hide Run, ListPage, IsLedgerPage, LedgerFilter, LedgerItems;
    var accounts := Run(EMPTY, ops).accounts;
    if programId in accounts && !(q.limit.Some? && (q.limit.value < 1 || 1000 < q.limit.value)) && q.cursor != Some(Malformed) {
      LaterLedgerGrowsAbove(ops, [], programId);
      assert ops + [] == ops;
      LedgerPageIs(accounts[programId].ledger, q, if q.limit.Some? then q.limit.value else 100);
    }
  }

  /** The same for reservations, by status, below the pair of creation time and id, at most 200 and 50 unless the query says. */
  lemma {:induction false} ReservationsAnswered(rows: seq<Item>, q: ReservationsQuery)
    requires DistinctKeys(rows) && forall k :: 0 <= k < |rows| ==> rows[k].ReservationItem?
    ensures var r := ReservationsPage(rows, q);
      if (q.limit.Some? && (q.limit.value < 1 || 200 < q.limit.value)) || q.cursor == Some(Malformed) then r == Failure(ValidationFailed)
      else
        && r.Success?
        && IsPage(rows, ReservationFilter(q), if q.cursor.Some? then Some(q.cursor.value.key) else None,
                  if q.limit.Some? then q.limit.value else 50, r.value)
        && (forall j, k :: 0 <= j < k < |r.value.items| ==>
              var x, y := r.value.items[j].key, r.value.items[k].key;
              y.major < x.major || (y.major == x.major && y.minor < x.minor))
        && forall k :: 0 <= k < |rows| ==>
             (ReservationFilter(q)(rows[k]) <==> (q.status.Some? ==> rows[k].reservation.status == q.status.value))
  {
    hide ListPage;
    if !(q.limit.Some? && (q.limit.value < 1 || 200 < q.limit.value)) && q.cursor != Some(Malformed) {
      PageIs(rows, ReservationFilter(q), if q.cursor.Some? then Some(q.cursor.value.key) else None,
             if q.limit.Some? then q.limit.value else 50);
    }
  }
}
