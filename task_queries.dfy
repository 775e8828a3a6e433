/**
 * Row-set semantics shared by the handlers: the owner-and-filter predicate of
 * the list query, ordering by creation time, LIMIT/OFFSET windows, the
 * id-and-owner lookup, and the invariant the `tasks` table keeps.
 */
module TaskQueries {
  import opened Schema

  /**
   * The WHERE clause of the list query: the row belongs to `owner` and, for
   * each filter that is truthy, has exactly that status or priority text.
   */
  predicate Matches(t: Task, owner: int, status: Option<string>, priority: Option<string>)
  {
    && t.ownerId == owner
    && (Truthy(status) ==> t.status.Some? && StatusName(t.status.value) == status.value)
    && (Truthy(priority) ==> t.priority.Some? && PriorityName(t.priority.value) == priority.value)
  }

  /** The rows selected by `Matches`, in table order. */
  function Matching(rows: seq<Task>, owner: int, status: Option<string>, priority: Option<string>)
    : (r: seq<Task>)
    ensures |r| <= |rows|
    ensures forall t :: t in r <==> t in rows && Matches(t, owner, status, priority)
  {
    if |rows| == 0 then []
    else
      var rest := Matching(rows[1..], owner, status, priority);
      assert rows == [rows[0]] + rows[1..];
      if Matches(rows[0], owner, status, priority) then [rows[0]] + rest else rest
  }

  /** All rows of one owner, whatever their status or priority. */
  function OwnedBy(rows: seq<Task>, owner: int): seq<Task>
  {
    Matching(rows, owner, None, None)
  }

  /** `SELECT COUNT(*) FROM tasks WHERE user_id = owner`, counted row by row. */
  function CountOwned(rows: seq<Task>, owner: int): (n: nat)
    ensures n == |OwnedBy(rows, owner)|
  {
    if |rows| == 0 then 0
    else (if rows[0].ownerId == owner then 1 else 0) + CountOwned(rows[1..], owner)
  }

  /** Filtering an owner's rows further never selects more of them. */
  lemma {:induction false} MatchingWithinOwned(
    rows: seq<Task>, owner: int, status: Option<string>, priority: Option<string>)
    ensures |Matching(rows, owner, status, priority)| <= |OwnedBy(rows, owner)|
  {
    if |rows| > 0 {
      MatchingWithinOwned(rows[1..], owner, status, priority);
    }
  }

  /** Rows strictly increasing in both id and creation time: insertion order. */
  predicate Chronological(rows: seq<Task>)
  {
    forall i, j :: 0 <= i < j < |rows| ==> rows[i].id < rows[j].id && rows[i].createdAt < rows[j].createdAt
  }

  /**
   * The invariant of the `tasks` table: rows in insertion order, every id
   * issued by the sequence, timestamps no later than the clock, every owner
   * an existing user (the foreign key), every title within its width.
   */
  predicate TableInvariant(rows: seq<Task>, users: map<int, User>, nextId: nat, clock: nat)
  {
    && Chronological(rows)
    && forall t :: t in rows ==>
         && 1 <= t.id < nextId
         && t.createdAt <= t.updatedAt <= clock
         && t.ownerId in users
         && |t.title| <= TitleMaxLength
  }

  /**
   * `ORDER BY created_at DESC`. Rows are kept in insertion order, so this is
   * their reversal; on a chronological table it is strictly newest first.
   */
  function NewestFirst(rows: seq<Task>): (r: seq<Task>)
    ensures |r| == |rows|
    ensures forall i :: 0 <= i < |rows| ==> r[i] == rows[|rows| - 1 - i]
    ensures Chronological(rows) ==>
              forall i, j :: 0 <= i < j < |r| ==> r[i].createdAt > r[j].createdAt
  {
    if |rows| == 0 then [] else [rows[|rows| - 1]] + NewestFirst(rows[..|rows| - 1])
  }

  /** `LIMIT limit OFFSET offset`: skip `offset` rows, then keep at most `limit`. */
  function Window<T>(rows: seq<T>, limit: nat, offset: nat): (r: seq<T>)
    ensures |r| <= limit
    ensures offset <= |rows| ==> |r| == if |rows| - offset < limit then |rows| - offset else limit
    ensures offset >= |rows| ==> r == []
    ensures forall k :: 0 <= k < |r| ==> offset + k < |rows| && r[k] == rows[offset + k]
  {
    var lo := if offset < |rows| then offset else |rows|;
    var hi := if offset + limit < |rows| then offset + limit else |rows|;
    rows[lo..hi]
  }

  /**
   * Pages of size `limit` cover every row exactly where expected: row `k`
   * is entry `k % limit` of page `k / limit + 1`, whose offset is
   * `(page - 1) * limit`.
   */
  lemma PageHoldsRow<T>(rows: seq<T>, limit: nat, k: nat)
    requires 1 <= limit && k < |rows|
    ensures var page := k / limit + 1;
            var w := Window(rows, limit, (page - 1) * limit);
            k % limit < |w| && w[k % limit] == rows[k]
  {
    var page := k / limit + 1;
    var offset := (page - 1) * limit;
    assert offset + k % limit == k;
    var w := Window(rows, limit, offset);
    assert |w| == if |rows| - offset < limit then |rows| - offset else limit;
  }

  /** A row of `rows` with this id and this owner, if any (the first one). */
  function Locate(rows: seq<Task>, id: int, owner: int): (r: Option<nat>)
    ensures r.Some? ==> r.value < |rows| && rows[r.value].id == id && rows[r.value].ownerId == owner
    ensures r.None? ==> forall t :: t in rows ==> !(t.id == id && t.ownerId == owner)
  {
    if |rows| == 0 then None
    else if rows[0].id == id && rows[0].ownerId == owner then Some(0)
    else
      match Locate(rows[1..], id, owner)
      case Some(i) => Some(i + 1)
      case None => assert rows == [rows[0]] + rows[1..]; None
  }

  /** `SELECT * FROM tasks WHERE id = $1 AND user_id = $2`, as at most one row. */
  function Lookup(rows: seq<Task>, id: int, owner: int): (r: Option<Task>)
    ensures r.Some? <==> exists t :: t in rows && t.id == id && t.ownerId == owner
    ensures r.Some? ==> r.value in rows && r.value.id == id && r.value.ownerId == owner
  {
    match Locate(rows, id, owner)
    case Some(i) => Some(rows[i])
    case None => None
  }

  /**
   * Ownership isolation of the lookup: what an owner sees depends only on
   * that owner's own rows, so other owners' rows, present or not, can never
   * change the answer.
   */
  lemma {:induction false} LookupSeesOnlyOwnRows(rows: seq<Task>, id: int, owner: int)
    ensures Lookup(rows, id, owner) == Lookup(OwnedBy(rows, owner), id, owner)
  {
    if |rows| > 0 {
      var rest := rows[1..];
      var owned := OwnedBy(rows, owner);
      LookupSeesOnlyOwnRows(rest, id, owner);
      LookupFirst(rows, id, owner);
      if rows[0].ownerId == owner {
        assert owned == [rows[0]] + OwnedBy(rest, owner);
        assert owned[1..] == OwnedBy(rest, owner);
        LookupFirst(owned, id, owner);
      } else {
        assert owned == OwnedBy(rest, owner);
      }
    }
  }

  /** The lookup scans from the first row. */
  lemma LookupFirst(rows: seq<Task>, id: int, owner: int)
    requires |rows| > 0
    ensures Lookup(rows, id, owner)
         == if rows[0].id == id && rows[0].ownerId == owner then Some(rows[0])
            else Lookup(rows[1..], id, owner)
  {
  }

  /** Ownership isolation of the list query, for every filter. */
  lemma {:induction false} MatchingSeesOnlyOwnRows(
    rows: seq<Task>, owner: int, status: Option<string>, priority: Option<string>)
    ensures Matching(rows, owner, status, priority)
         == Matching(OwnedBy(rows, owner), owner, status, priority)
  {
    if |rows| > 0 {
      MatchingSeesOnlyOwnRows(rows[1..], owner, status, priority);
    }
  }

  /**
   * On a table with unique ids, a row of another owner is invisible to the
   * lookup: asking for its id answers exactly as a missing id does.
   */
  lemma ForeignRowNotFound(rows: seq<Task>, t: Task, requester: int)
    requires Chronological(rows)
    requires t in rows && t.ownerId != requester
    ensures Lookup(rows, t.id, requester) == None
  {
    var k :| 0 <= k < |rows| && rows[k] == t;
  }

  /** The table without row `i` (DELETE of one row). */
  function RemoveAt(rows: seq<Task>, i: nat): (r: seq<Task>)
    requires i < |rows|
    ensures |r| == |rows| - 1
    ensures forall k :: 0 <= k < |r| ==> r[k] == if k < i then rows[k] else rows[k + 1]
  {
    rows[..i] + rows[i + 1..]
  }

  /** Removing a row keeps insertion order. */
  lemma RemoveAtChronological(rows: seq<Task>, i: nat)
    requires Chronological(rows) && i < |rows|
    ensures Chronological(RemoveAt(rows, i))
  {
    var r := RemoveAt(rows, i);
    forall a, b | 0 <= a < b < |r|
      ensures r[a].id < r[b].id && r[a].createdAt < r[b].createdAt
    {
      var a' := if a < i then a else a + 1;
      var b' := if b < i then b else b + 1;
      assert r[a] == rows[a'] && r[b] == rows[b'] && a' < b';
    }
  }

  /**
   * Deleting the row an owner locates removes that row and no other: with
   * unique ids, every other row stays and the lookup now finds nothing.
   */
  lemma RemoveLocated(rows: seq<Task>, id: int, owner: int, i: nat)
    requires Chronological(rows)
    requires Locate(rows, id, owner) == Some(i)
    ensures Chronological(RemoveAt(rows, i))
    ensures forall t :: t in RemoveAt(rows, i) <==> t in rows && !(t.id == id && t.ownerId == owner)
    ensures Locate(RemoveAt(rows, i), id, owner) == None
  {
    RemoveAtChronological(rows, i);
    RemoveAtKeepsOthers(rows, id, owner, i);
    RemoveAtDropsMatch(rows, id, owner, i);
  }

  /**
   * Deleting the located row keeps the table invariant, removes exactly the
   * id-and-owner rows, and leaves nothing for the lookup to find.
   */
  lemma RemoveKeepsInvariant(rows: seq<Task>, users: map<int, User>, nextId: nat, clock: nat,
                             id: int, owner: int, i: nat)
    requires TableInvariant(rows, users, nextId, clock)
    requires Locate(rows, id, owner) == Some(i)
    ensures TableInvariant(RemoveAt(rows, i), users, nextId, clock)
    ensures |RemoveAt(rows, i)| == |rows| - 1
    ensures forall t :: t in RemoveAt(rows, i) <==> t in rows && !(t.id == id && t.ownerId == owner)
    ensures Lookup(RemoveAt(rows, i), id, owner).None?
  {
    RemoveLocated(rows, id, owner, i);
  }

  lemma RemoveAtKeepsOthers(rows: seq<Task>, id: int, owner: int, i: nat)
    requires i < |rows| && rows[i].id == id && rows[i].ownerId == owner
    ensures forall t :: t in rows && !(t.id == id && t.ownerId == owner) ==> t in RemoveAt(rows, i)
  {
    var r := RemoveAt(rows, i);
    forall t | t in rows && !(t.id == id && t.ownerId == owner)
      ensures t in r
    {
      var k :| 0 <= k < |rows| && rows[k] == t;
      if k < i { assert r[k] == t; } else { assert r[k - 1] == t; }
    }
  }

  lemma RemoveAtDropsMatch(rows: seq<Task>, id: int, owner: int, i: nat)
    requires Chronological(rows)
    requires i < |rows| && rows[i].id == id && rows[i].ownerId == owner
    ensures forall t :: t in RemoveAt(rows, i) ==> t in rows && !(t.id == id && t.ownerId == owner)
  {
    var r := RemoveAt(rows, i);
    forall t | t in r
      ensures t in rows && !(t.id == id && t.ownerId == owner)
    {
      var k :| 0 <= k < |r| && r[k] == t;
      var k' := if k < i then k else k + 1;
      assert rows[k'] == t && k' != i;
    }
  }

  /** The rows that survive deleting user `u` (ON DELETE CASCADE). */
  function Disowned(rows: seq<Task>, u: int): (r: seq<Task>)
    ensures forall t :: t in r <==> t in rows && t.ownerId != u
  {
    if |rows| == 0 then []
    else
      var rest := Disowned(rows[1..], u);
      assert rows == [rows[0]] + rows[1..];
      if rows[0].ownerId != u then [rows[0]] + rest else rest
  }

  /** A row older than every row of a chronological table may go in front. */
  lemma PrependChronological(x: Task, rest: seq<Task>)
    requires Chronological(rest)
    requires forall y :: y in rest ==> x.id < y.id && x.createdAt < y.createdAt
    ensures Chronological([x] + rest)
  {
    var r := [x] + rest;
    forall i, j | 0 <= i < j < |r|
      ensures r[i].id < r[j].id && r[i].createdAt < r[j].createdAt
    {
      assert r[j] == rest[j - 1];
      if i > 0 { assert r[i] == rest[i - 1]; }
    }
  }

  /** Selecting rows keeps insertion order. */
  lemma {:induction false} MatchingChronological(
    rows: seq<Task>, owner: int, status: Option<string>, priority: Option<string>)
    requires Chronological(rows)
    ensures Chronological(Matching(rows, owner, status, priority))
  {
    if |rows| > 0 {
      var tail := rows[1..];
      assert Chronological(tail) by {
        forall i, j | 0 <= i < j < |tail|
          ensures tail[i].id < tail[j].id && tail[i].createdAt < tail[j].createdAt
        {
          assert tail[i] == rows[i + 1] && tail[j] == rows[j + 1];
        }
      }
      MatchingChronological(tail, owner, status, priority);
      if Matches(rows[0], owner, status, priority) {
        forall y | y in Matching(tail, owner, status, priority)
          ensures rows[0].id < y.id && rows[0].createdAt < y.createdAt
        {
          var k :| 0 <= k < |tail| && tail[k] == y;
          assert rows[k + 1] == y;
        }
        PrependChronological(rows[0], Matching(tail, owner, status, priority));
      }
    }
  }

  /** The cascade keeps insertion order. */
  lemma {:induction false} DisownedChronological(rows: seq<Task>, u: int)
    requires Chronological(rows)
    ensures Chronological(Disowned(rows, u))
  {
    if |rows| > 0 {
      var tail := rows[1..];
      assert Chronological(tail) by {
        forall i, j | 0 <= i < j < |tail|
          ensures tail[i].id < tail[j].id && tail[i].createdAt < tail[j].createdAt
        {
          assert tail[i] == rows[i + 1] && tail[j] == rows[j + 1];
        }
      }
      DisownedChronological(tail, u);
      if rows[0].ownerId != u {
        forall y | y in Disowned(tail, u)
          ensures rows[0].id < y.id && rows[0].createdAt < y.createdAt
        {
          var k :| 0 <= k < |tail| && tail[k] == y;
          assert rows[k + 1] == y;
        }
        PrependChronological(rows[0], Disowned(tail, u));
      }
    }
  }
}
