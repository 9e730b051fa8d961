/** The list operation of the user service, over the repository's query. */
module UserService {
  import opened Schema
  import opened Paging
  import opened Queries

  class Service {
    const q: Database

    constructor (q: Database)
      ensures this.q == q
    {
      this.q := q;
    }

    /** One page, with the cursor of the next one, and what that promises about the table as it
        is: rows before the cursor in descending order, none of them skipped. */
    method List(requested: int, cursor: Option<Key>, readable: bool) returns (a: Answer<Page>)
      ensures a == if readable then Row(ListPage(q.users, requested, cursor)) else Error
      ensures a.Row? && DistinctKeys(q.users) ==>
                && Descending(a.value.users)
                && (forall u | u in a.value.users :: u in q.users && Before(KeyOf(u), cursor))
                && (forall u | u in q.users && Before(KeyOf(u), cursor) && u !in a.value.users ::
                      a.value.next.Some? && Less(KeyOf(u), a.value.next.value))
    {
      var limit := requested;
      if limit <= 0 {
        limit := DEFAULT_LIMIT;
      }
      if limit > MAX_LIMIT {
        limit := MAX_LIMIT;
      }
      var params := Params(None, None, limit);
      if cursor.Some? {
        params := params.(cursorCreatedAt := Some(cursor.value.createdAt), cursorId := Some(cursor.value.id));
      }
      var rows := q.ListUsers(params, readable);
      if rows.Error? {
        return Error;
      }
      var users := rows.value;
      var next: Option<Key> := None;
      if |users| == limit {
        next := Some(KeyOf(users[|users| - 1]));
      }
      if DistinctKeys(q.users) {
        PageFacts(q.users, requested, cursor);
      }
      a := Row(Page(users, next));
    }
  }
}
