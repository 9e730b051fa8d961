/** Keyset pagination of users: the query, the service's page, and whole traversals. */
module Paging {
  import opened Schema

  datatype Key = Key(createdAt: Time, id: Uuid)

  function KeyOf(u: User): Key { Key(u.createdAt, u.id) }

  predicate Less(a: Key, b: Key) {
    a.createdAt < b.createdAt || (a.createdAt == b.createdAt && a.id < b.id)
  }

  /** timestamptz has an infinity; created_at never takes it. */
  datatype Instant = At(time: Time) | Infinity

  /** (created_at, id) < (instant, id), compared as rows. */
  predicate RowLess(u: User, at: Instant, id: Uuid) {
    match at
    case Infinity => true
    case At(t) => u.createdAt < t || (u.createdAt == t && u.id < id)
  }

  datatype Params = Params(cursorCreatedAt: Option<Time>, cursorId: Option<Uuid>, maxRows: nat)

  const NIL_UUID: Uuid := 0

  predicate Selected(u: User, p: Params) {
    RowLess(u, if p.cursorCreatedAt.Some? then At(p.cursorCreatedAt.value) else Infinity,
            Coalesce(p.cursorId, NIL_UUID))
  }

  function Where(users: seq<User>, p: Params): (r: seq<User>)
    ensures forall u :: u in r <==> u in users && Selected(u, p)
  {
    if users == [] then []
    else (if Selected(users[0], p) then [users[0]] else []) + Where(users[1..], p)
  }

  function InsertDescending(u: User, sorted: seq<User>): seq<User> {
    if sorted == [] then [u]
    else if Less(KeyOf(sorted[0]), KeyOf(u)) then [u] + sorted
    else [sorted[0]] + InsertDescending(u, sorted[1..])
  }

  /** ORDER BY created_at DESC, id DESC */
  function OrderBy(users: seq<User>): seq<User> {
    if users == [] then [] else InsertDescending(users[0], OrderBy(users[1..]))
  }

  function Limit(users: seq<User>, n: nat): seq<User> {
    if |users| <= n then users else users[..n]
  }

  function ListUsers(users: seq<User>, p: Params): seq<User> {
    Limit(OrderBy(Where(users, p)), p.maxRows)
  }

  function ToParams(cursor: Option<Key>, limit: nat): Params {
    match cursor
    case None => Params(None, None, limit)
    case Some(k) => Params(Some(k.createdAt), Some(k.id), limit)
  }

  const DEFAULT_LIMIT := 20
  const MAX_LIMIT := 100

  function Clamp(limit: int): (r: nat)
    ensures 1 <= r <= MAX_LIMIT
  {
    var l := if limit <= 0 then DEFAULT_LIMIT else limit;
    if l < MAX_LIMIT then l else MAX_LIMIT
  }

  datatype Page = Page(users: seq<User>, next: Option<Key>)

  /** One call of the service. */
  function ListPage(users: seq<User>, limit: int, cursor: Option<Key>): Page {
    var rows := ListUsers(users, ToParams(cursor, Clamp(limit)));
    Page(rows, if |rows| == Clamp(limit) then Some(KeyOf(rows[|rows| - 1])) else None)
  }

  // ---------- the handler's reading of the query string ----------

  /** `parsed` is None when the parameter is absent or not a number. */
  function ParseLimit(parsed: Option<int>): int {
    if parsed.Some? && 0 < parsed.value <= MAX_LIMIT then parsed.value else DEFAULT_LIMIT
  }

  /** Both halves have to be there and parse, or the listing starts over. */
  function ParseCursor(createdAt: Option<Time>, id: Option<Uuid>): Option<Key> {
    if createdAt.Some? && id.Some? then Some(Key(createdAt.value, id.value)) else None
  }

  function HandleList(users: seq<User>, limit: Option<int>, createdAt: Option<Time>, id: Option<Uuid>): Page {
    ListPage(users, ParseLimit(limit), ParseCursor(createdAt, id))
  }

  // ---------- sorting ----------

  predicate Descending(users: seq<User>) {
    forall i, j | 0 <= i < j < |users| :: Less(KeyOf(users[j]), KeyOf(users[i]))
  }

  ghost predicate DistinctKeys(users: seq<User>) {
    forall i, j | 0 <= i < j < |users| :: KeyOf(users[i]) != KeyOf(users[j])
  }

  /** Before the cursor: everything comes before no cursor. */
  predicate Before(k: Key, cursor: Option<Key>) {
    cursor.None? || Less(k, cursor.value)
  }

  lemma SelectedIsBefore(u: User, cursor: Option<Key>, limit: nat)
    ensures Selected(u, ToParams(cursor, limit)) <==> Before(KeyOf(u), cursor)
  {
  }

  lemma {:induction false} InsertKeepsOrder(u: User, sorted: seq<User>)
    requires Descending(sorted) && forall v | v in sorted :: KeyOf(v) != KeyOf(u)
    ensures Descending(InsertDescending(u, sorted))
    ensures |InsertDescending(u, sorted)| == |sorted| + 1
    ensures forall v :: v in InsertDescending(u, sorted) <==> v == u || v in sorted
  {
    if sorted != [] && !Less(KeyOf(sorted[0]), KeyOf(u)) {
      InsertKeepsOrder(u, sorted[1..]);
      var rest := InsertDescending(u, sorted[1..]);
      assert sorted == [sorted[0]] + sorted[1..];
      forall v | v in rest ensures Less(KeyOf(v), KeyOf(sorted[0])) {
      }
    }
  }

  lemma OrderByFirst(u: User, rest: seq<User>)
    ensures OrderBy([u] + rest) == InsertDescending(u, OrderBy(rest))
  {
  }

  lemma {:induction false} OrderBySorts(users: seq<User>)
    requires DistinctKeys(users)
    ensures Descending(OrderBy(users)) && |OrderBy(users)| == |users|
    ensures forall u :: u in OrderBy(users) <==> u in users
  {
    if users != [] {
      OrderBySorts(users[1..]);
      assert users == [users[0]] + users[1..];
      forall v | v in users[1..] ensures KeyOf(v) != KeyOf(users[0]) {
        var i :| 0 <= i < |users[1..]| && users[1..][i] == v;
        assert users[i + 1] == v;
      }
      InsertKeepsOrder(users[0], OrderBy(users[1..]));
    }
  }

  lemma {:induction false} WhereKeepsDistinct(users: seq<User>, p: Params)
    requires DistinctKeys(users)
    ensures DistinctKeys(Where(users, p))
  {
    if users != [] {
      WhereKeepsDistinct(users[1..], p);
      forall v | v in Where(users[1..], p) ensures KeyOf(v) != KeyOf(users[0]) {
        var i :| 0 <= i < |users[1..]| && users[1..][i] == v;
        assert users[i + 1] == v;
      }
    }
  }

  lemma TailOf(a: seq<User>)
    requires Descending(a) && a != []
    ensures forall u :: u in a[1..] <==> u in a && u != a[0]
    ensures Descending(a[1..])
  {
  }

  /** Two descending listings of the same users are the same listing. */
  lemma {:induction false} DescendingIsUnique(a: seq<User>, b: seq<User>)
    requires Descending(a) && Descending(b) && forall u :: u in a <==> u in b
    ensures a == b
  {
    assert b != [] ==> b[0] in b;
    if a != [] {
      assert a[0] in b && b != [];
      assert b[0] in a;
      assert a[0] == b[0];
      TailOf(a);
      TailOf(b);
      DescendingIsUnique(a[1..], b[1..]);
    }
  }

  // ---------- one page ----------

  /** The users that are still ahead. */
  function Ahead(users: seq<User>, cursor: Option<Key>): seq<User> {
    OrderBy(Where(users, ToParams(cursor, 0)))
  }

  lemma AheadFacts(users: seq<User>, cursor: Option<Key>)
    requires DistinctKeys(users)
    ensures Descending(Ahead(users, cursor))
    ensures forall u :: u in Ahead(users, cursor) <==> u in users && Before(KeyOf(u), cursor)
  {
    var p := ToParams(cursor, 0);
    WhereKeepsDistinct(users, p);
    OrderBySorts(Where(users, p));
    forall u ensures Selected(u, p) <==> Before(KeyOf(u), cursor) {
      SelectedIsBefore(u, cursor, 0);
    }
  }

  lemma {:induction false} WhereIgnoresLimit(users: seq<User>, cursor: Option<Key>, n: nat)
    ensures Where(users, ToParams(cursor, n)) == Where(users, ToParams(cursor, 0))
  {
    if users != [] {
      WhereIgnoresLimit(users[1..], cursor, n);
    }
  }

  lemma PageOfAhead(users: seq<User>, limit: int, cursor: Option<Key>)
    ensures ListPage(users, limit, cursor).users == Limit(Ahead(users, cursor), Clamp(limit))
  {
    WhereIgnoresLimit(users, cursor, Clamp(limit));
  }

  lemma PageIsOrdered(users: seq<User>, limit: int, cursor: Option<Key>)
    requires DistinctKeys(users)
    ensures
      var page := ListPage(users, limit, cursor);
      && Descending(page.users)
      && (forall u | u in page.users :: u in users && Before(KeyOf(u), cursor))
  {
    PageOfAhead(users, limit, cursor);
    AheadFacts(users, cursor);
    assert forall u | u in ListPage(users, limit, cursor).users :: u in Ahead(users, cursor);
  }

  lemma PageSkipsNothing(users: seq<User>, limit: int, cursor: Option<Key>, u: User)
    requires DistinctKeys(users) && u in users && Before(KeyOf(u), cursor)
    ensures
      var page := ListPage(users, limit, cursor);
      u in page.users || (page.next.Some? && Less(KeyOf(u), page.next.value))
  {
    var page, all := ListPage(users, limit, cursor), Ahead(users, cursor);
    PageOfAhead(users, limit, cursor);
    AheadFacts(users, cursor);
    var i :| 0 <= i < |all| && all[i] == u;
    if i < |page.users| {
      assert page.users[i] == u;
    }
  }

  /** A page is a descending stretch of the users before the cursor, and nothing before the
      cursor and outside the page lies above its last row; a short page leaves nothing out. */
  lemma PageFacts(users: seq<User>, limit: int, cursor: Option<Key>)
    requires DistinctKeys(users)
    ensures
      var page := ListPage(users, limit, cursor);
      && Descending(page.users) && |page.users| <= Clamp(limit)
      && (forall u | u in page.users :: u in users && Before(KeyOf(u), cursor))
      && (page.next.None? <==> |page.users| < Clamp(limit))
      && (page.next.Some? ==> page.users != [] && page.next.value == KeyOf(page.users[|page.users| - 1]))
      && (forall u | u in users && Before(KeyOf(u), cursor) && u !in page.users ::
            page.next.Some? && Less(KeyOf(u), page.next.value))
  {
    PageIsOrdered(users, limit, cursor);
    var page := ListPage(users, limit, cursor);
    forall u | u in users && Before(KeyOf(u), cursor) && u !in page.users
      ensures page.next.Some? && Less(KeyOf(u), page.next.value)
    {
      PageSkipsNothing(users, limit, cursor, u);
    }
  }

  // ---------- whole traversals ----------

  /** What a request finds: the users at that moment, and the limit it asks for. */
  datatype Round = Round(users: seq<User>, limit: int)

  /** The users seen by following the next cursor, for as many rounds as there are. */
  function Traverse(rounds: seq<Round>, cursor: Option<Key>): seq<User> {
    if rounds == [] then []
    else
      var page := ListPage(rounds[0].users, rounds[0].limit, cursor);
      page.users + (if page.next.None? then [] else Traverse(rounds[1..], page.next))
  }

  /** The number of pages fetched until there is no next cursor, if that happens. */
  function PagesUntilEnd(rounds: seq<Round>, cursor: Option<Key>): Option<nat> {
    if rounds == [] then None
    else
      var page := ListPage(rounds[0].users, rounds[0].limit, cursor);
      if page.next.None? then Some(1)
      else
        var rest := PagesUntilEnd(rounds[1..], page.next);
        if rest.None? then None else Some(1 + rest.value)
  }

  ghost predicate Finished(rounds: seq<Round>, cursor: Option<Key>) {
    PagesUntilEnd(rounds, cursor).Some?
  }

  ghost predicate AllDistinct(rounds: seq<Round>) {
    forall r | r in rounds :: DistinctKeys(r.users)
  }

  ghost predicate HasKey(users: seq<User>, k: Key) {
    exists u :: u in users && KeyOf(u) == k
  }

  lemma DescendingConcat(a: seq<User>, b: seq<User>)
    requires Descending(a) && Descending(b) && a != []
    requires forall u | u in b :: Less(KeyOf(u), KeyOf(a[|a| - 1]))
    ensures Descending(a + b)
    ensures forall u | u in b :: Less(KeyOf(u), KeyOf(a[0]))
  {
  }

  /** However the table changes between pages, keys strictly decrease over the whole traversal. */
  lemma {:induction false} TraverseDescends(rounds: seq<Round>, cursor: Option<Key>)
    requires AllDistinct(rounds)
    ensures Descending(Traverse(rounds, cursor))
    ensures forall u | u in Traverse(rounds, cursor) :: Before(KeyOf(u), cursor)
  {
    if rounds != [] {
      var r := rounds[0];
      assert r in rounds;
      var page := ListPage(r.users, r.limit, cursor);
      PageFacts(r.users, r.limit, cursor);
      if page.next.Some? {
        TraverseDescends(rounds[1..], page.next);
        DescendingConcat(page.users, Traverse(rounds[1..], page.next));
        assert page.users[0] in page.users;
      }
    }
  }

  /** A traversal lists what the tables hold. */
  lemma {:induction false} TraverseListsRows(rounds: seq<Round>, cursor: Option<Key>, u: User) returns (r: Round)
    requires AllDistinct(rounds) && u in Traverse(rounds, cursor)
    ensures r in rounds && u in r.users
  {
    r := rounds[0];
    var page := ListPage(r.users, r.limit, cursor);
    PageFacts(r.users, r.limit, cursor);
    if u !in page.users {
      r := TraverseListsRows(rounds[1..], page.next, u);
    }
  }

  /** A key that every table has turns up, whatever else comes and goes: also when the row the
      cursor points at is deleted. */
  lemma {:induction false} TraverseMeets(rounds: seq<Round>, cursor: Option<Key>, k: Key)
    requires AllDistinct(rounds) && Finished(rounds, cursor) && Before(k, cursor)
    requires forall r | r in rounds :: HasKey(r.users, k)
    ensures HasKey(Traverse(rounds, cursor), k)
  {
    var r := rounds[0];
    var page := ListPage(r.users, r.limit, cursor);
    PageFacts(r.users, r.limit, cursor);
    assert r in rounds;
    var u :| u in r.users && KeyOf(u) == k;
    if u in page.users {
      assert u in Traverse(rounds, cursor);
    } else {
      TraverseMeets(rounds[1..], page.next, k);
      var v :| v in Traverse(rounds[1..], page.next) && KeyOf(v) == k;
      assert v in Traverse(rounds, cursor);
    }
  }

  // ---------- what is still ahead ----------

  /** No next cursor means that nothing is left below the last row. */
  lemma NoCursorNothingLeft(users: seq<User>, limit: int, cursor: Option<Key>)
    requires DistinctKeys(users) && ListPage(users, limit, cursor).next.None?
    ensures forall u | u in users && Before(KeyOf(u), cursor) :: u in ListPage(users, limit, cursor).users
  {
    PageFacts(users, limit, cursor);
  }

  lemma BelowTheCut(all: seq<User>, n: nat)
    requires Descending(all) && 0 < n <= |all|
    ensures Descending(all[n..])
    ensures forall u :: u in all[n..] <==> u in all && Less(KeyOf(u), KeyOf(all[n - 1]))
  {
  }

  /** With the cursor moved to the `n`-th user ahead, the others are ahead. */
  lemma AheadOfNth(users: seq<User>, cursor: Option<Key>, n: nat)
    requires DistinctKeys(users) && 0 < n <= |Ahead(users, cursor)|
    ensures Ahead(users, Some(KeyOf(Ahead(users, cursor)[n - 1]))) == Ahead(users, cursor)[n..]
  {
    var ahead := Ahead(users, cursor);
    var last := ahead[n - 1];
    var rest := Ahead(users, Some(KeyOf(last)));
    AheadFacts(users, cursor);
    AheadFacts(users, Some(KeyOf(last)));
    BelowTheCut(ahead, n);
    assert last in ahead;
    forall u ensures u in rest <==> u in ahead[n..] {
      assert Less(KeyOf(u), KeyOf(last)) ==> Before(KeyOf(u), cursor);
    }
    DescendingIsUnique(rest, ahead[n..]);
  }

  /** After a full page, the rest of what was ahead is what is ahead. */
  lemma AheadShrinks(users: seq<User>, limit: int, cursor: Option<Key>)
    requires DistinctKeys(users) && ListPage(users, limit, cursor).next.Some?
    ensures
      var next := ListPage(users, limit, cursor).next;
      |Ahead(users, cursor)| >= Clamp(limit) && Ahead(users, next) == Ahead(users, cursor)[Clamp(limit)..]
  {
    PageOfAhead(users, limit, cursor);
    AheadOfNth(users, cursor, Clamp(limit));
  }

  lemma FullPageExactly(users: seq<User>, limit: int, cursor: Option<Key>)
    ensures ListPage(users, limit, cursor).next.Some? <==> |Ahead(users, cursor)| >= Clamp(limit)
  {
    PageOfAhead(users, limit, cursor);
  }

  lemma AllAhead(users: seq<User>)
    requires DistinctKeys(users)
    ensures Ahead(users, None) == OrderBy(users) && |Ahead(users, None)| == |users|
  {
    AheadFacts(users, None);
    OrderBySorts(users);
    DescendingIsUnique(Ahead(users, None), OrderBy(users));
  }

  // ---------- a table that stays as it is ----------

  ghost predicate SameTable(rounds: seq<Round>, users: seq<User>) {
    forall k | 0 <= k < |rounds| :: rounds[k].users == users
  }

  /** What the rounds have room for. */
  function Room(rounds: seq<Round>): nat {
    if rounds == [] then 0 else Clamp(rounds[0].limit) + Room(rounds[1..])
  }

  lemma LimitInTwo(all: seq<User>, n: nat, m: nat)
    ensures Limit(all, n + m) == if |all| < n then all else Limit(all, n) + Limit(all[n..], m)
  {
    if n <= |all| {
      assert all == all[..n] + all[n..];
    }
  }

  /** On a fixed table any number of pages with any limits list as many of the users ahead, in
      descending order, as there is room for. */
  lemma {:induction false} TraverseFills(rounds: seq<Round>, users: seq<User>, cursor: Option<Key>)
    requires DistinctKeys(users) && SameTable(rounds, users)
    ensures Traverse(rounds, cursor) == Limit(Ahead(users, cursor), Room(rounds))
  {
    if rounds != [] {
      var limit := rounds[0].limit;
      var next := ListPage(users, limit, cursor).next;
      PageOfAhead(users, limit, cursor);
      LimitInTwo(Ahead(users, cursor), Clamp(limit), Room(rounds[1..]));
      if next.Some? {
        AheadShrinks(users, limit, cursor);
        TraverseFills(rounds[1..], users, next);
      }
    }
  }

  /** `p` is the least number of these pages that has room for more than `n` users. */
  ghost predicate LeastOver(rounds: seq<Round>, n: nat, p: nat) {
    1 <= p <= |rounds| && Room(rounds[..p - 1]) <= n < Room(rounds[..p])
  }

  lemma LeastOverShifts(rounds: seq<Round>, n: nat, p: nat)
    requires rounds != [] && Clamp(rounds[0].limit) <= n
    requires LeastOver(rounds[1..], n - Clamp(rounds[0].limit), p)
    ensures LeastOver(rounds, n, p + 1)
  {
    assert rounds[..p][1..] == rounds[1..][..p - 1];
    assert rounds[..p + 1][1..] == rounds[1..][..p];
  }

  /** The traversal ends if and only if its pages have room for more than the users ahead, with
      the first page that makes it so. */
  lemma {:induction false} EndsExactly(rounds: seq<Round>, users: seq<User>, cursor: Option<Key>)
    requires DistinctKeys(users) && SameTable(rounds, users)
    ensures Finished(rounds, cursor) <==> Room(rounds) > |Ahead(users, cursor)|
    ensures Finished(rounds, cursor) ==> LeastOver(rounds, |Ahead(users, cursor)|, PagesUntilEnd(rounds, cursor).value)
  {
    if rounds != [] {
      var limit := rounds[0].limit;
      var next := ListPage(users, limit, cursor).next;
      FullPageExactly(users, limit, cursor);
      if next.Some? {
        AheadShrinks(users, limit, cursor);
        assert |Ahead(users, next)| == |Ahead(users, cursor)| - Clamp(limit);
        EndsExactly(rounds[1..], users, next);
        if Finished(rounds[1..], next) {
          LeastOverShifts(rounds, |Ahead(users, cursor)|, PagesUntilEnd(rounds[1..], next).value);
        }
      } else {
        assert rounds[..1][1..] == [];
      }
    }
  }

  /** So the pages of a traversal that ends concatenate to the whole table in descending order,
      whatever the limits of the single pages are. */
  lemma FixedTable(rounds: seq<Round>, users: seq<User>)
    requires DistinctKeys(users) && SameTable(rounds, users)
    ensures Finished(rounds, None) <==> Room(rounds) > |users|
    ensures Finished(rounds, None) ==> Traverse(rounds, None) == OrderBy(users)
  {
    TraverseFills(rounds, users, None);
    EndsExactly(rounds, users, None);
    AllAhead(users);
  }

  lemma {:induction false} RoomOfEqual(rounds: seq<Round>, limit: int)
    requires forall k | 0 <= k < |rounds| :: rounds[k].limit == limit
    ensures Room(rounds) == |rounds| * Clamp(limit)
  {
    if rounds != [] {
      RoomOfEqual(rounds[1..], limit);
      assert (1 + |rounds[1..]|) * Clamp(limit) == Clamp(limit) + |rounds[1..]| * Clamp(limit);
    }
  }

  lemma MulStep(p: nat, q: nat, n: nat)
    requires p > q
    ensures p * n >= q * n + n
  {
    assert p * n == (p - q - 1) * n + q * n + n;
  }

  /** The quotient is the only number of pages that is one too few. */
  lemma Quotient(a: nat, n: nat, q: nat)
    requires n > 0
    ensures q * n <= a < q * n + n ==> q == a / n
    ensures q * n <= a <==> q <= a / n
  {
    assert a / n * n <= a < a / n * n + n;
    if q > a / n {
      MulStep(q, a / n, n);
    } else if q < a / n {
      MulStep(a / n, q, n);
    }
  }

  /** With one limit throughout, a fixed table of n users takes exactly floor(n / limit) + 1 pages. */
  lemma PageCount(rounds: seq<Round>, users: seq<User>, limit: int)
    requires DistinctKeys(users) && forall k | 0 <= k < |rounds| :: rounds[k] == Round(users, limit)
    ensures
      var pages := |users| / Clamp(limit) + 1;
      PagesUntilEnd(rounds, None) == if |rounds| >= pages then Some(pages) else None
  {
    var n := Clamp(limit);
    AllAhead(users);
    EndsExactly(rounds, users, None);
    RoomOfEqual(rounds, limit);
    Quotient(|users|, n, |rounds|);
    if Finished(rounds, None) {
      LeastOfEqual(rounds, limit, |users|, PagesUntilEnd(rounds, None).value);
    }
  }

  lemma LeastOfEqual(rounds: seq<Round>, limit: int, a: nat, p: nat)
    requires forall k | 0 <= k < |rounds| :: rounds[k].limit == limit
    requires LeastOver(rounds, a, p)
    ensures p == a / Clamp(limit) + 1
  {
    var n := Clamp(limit);
    RoomOfEqual(rounds[..p - 1], limit);
    RoomOfEqual(rounds[..p], limit);
    assert p * n == (p - 1) * n + n;
    Quotient(a, n, p - 1);
  }

  // ---------- through the handler ----------

  /** What a request finds, with the limit parameter as the client sent it. */
  datatype Query = Query(users: seq<User>, limit: Option<int>)

  /** A client that sends both halves of the cursor it was given, or neither. */
  function Browse(queries: seq<Query>, cursor: Option<Key>): seq<User> {
    if queries == [] then []
    else
      var createdAt := if cursor.None? then None else Some(cursor.value.createdAt);
      var id := if cursor.None? then None else Some(cursor.value.id);
      var page := HandleList(queries[0].users, queries[0].limit, createdAt, id);
      page.users + (if page.next.None? then [] else Browse(queries[1..], page.next))
  }

  function RoundsOf(queries: seq<Query>): seq<Round> {
    if queries == [] then [] else [Round(queries[0].users, ParseLimit(queries[0].limit))] + RoundsOf(queries[1..])
  }

  /** So browsing over HTTP is a traversal, with limits between 1 and 100 that the service's clamp
      leaves alone: a limit above 100 gives pages of 20, not of 100. */
  lemma {:induction false} BrowseIsTraverse(queries: seq<Query>, cursor: Option<Key>)
    ensures Browse(queries, cursor) == Traverse(RoundsOf(queries), cursor)
    ensures forall r | r in RoundsOf(queries) :: 1 <= r.limit <= MAX_LIMIT && Clamp(r.limit) == r.limit
  {
    if queries != [] {
      var q := queries[0];
      var page := ListPage(q.users, ParseLimit(q.limit), cursor);
      BrowseIsTraverse(queries[1..], page.next);
      assert RoundsOf(queries)[1..] == RoundsOf(queries[1..]);
    }
  }

  /** The service's page holds 20 users by default and 100 at most, as far as there are any. */
  lemma PageSize(users: seq<User>, limit: int)
    requires DistinctKeys(users)
    ensures
      var size := if limit <= 0 then 20 else if limit <= 100 then limit else 100;
      |ListPage(users, limit, None).users| == if |users| < size then |users| else size
  {
    PageOfAhead(users, limit, None);
    AllAhead(users);
  }

  /** The first page of a listing over HTTP: 20 users unless the client asks for 1 to 100. */
  lemma FirstPageSize(users: seq<User>, limit: Option<int>)
    requires DistinctKeys(users)
    ensures
      var size := if limit.Some? && 1 <= limit.value <= 100 then limit.value else 20;
      |HandleList(users, limit, None, None).users| == if |users| < size then |users| else size
  {
    PageSize(users, ParseLimit(limit));
  }

  /** A cursor of which one half is missing or does not parse starts the listing over. */
  lemma HalfCursorStartsOver(users: seq<User>, limit: Option<int>, createdAt: Option<Time>, id: Option<Uuid>)
    requires createdAt.None? || id.None?
    ensures HandleList(users, limit, createdAt, id) == HandleList(users, limit, None, None)
  {
  }

  /** In whatever round it was listed, a user comes after all that were created later, and after
      those created at the same instant with a greater id. */
  lemma NewestFirst(rounds: seq<Round>, cursor: Option<Key>, i: nat, j: nat)
    requires AllDistinct(rounds) && i < j < |Traverse(rounds, cursor)|
    ensures
      var u, v := Traverse(rounds, cursor)[i], Traverse(rounds, cursor)[j];
      u.createdAt > v.createdAt || (u.createdAt == v.createdAt && u.id > v.id)
  {
    TraverseDescends(rounds, cursor);
    var u, v := Traverse(rounds, cursor)[i], Traverse(rounds, cursor)[j];
    assert Less(KeyOf(v), KeyOf(u));
  }

  /** So the handler and the service disagree on limits above the maximum, and only there. */
  lemma LimitAboveMaximum(limit: int)
    ensures Clamp(ParseLimit(Some(limit))) == (if limit > MAX_LIMIT then DEFAULT_LIMIT else Clamp(limit))
    ensures Clamp(ParseLimit(Some(limit))) != Clamp(limit) <==> limit > MAX_LIMIT
  {
  }
}
