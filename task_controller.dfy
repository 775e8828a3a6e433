/**
 * The task controller: one handler per endpoint over the `tasks` table. The
 * table lives in a `TaskTable` object together with the id sequence and a
 * logical clock standing for CURRENT_TIMESTAMP; every handler that writes is
 * a method that changes that object, the read-only ones are functions of it.
 * Each handler's HTTP outcome is an `Outcome`.
 */
module TaskController {
  import opened Schema
  import opened TaskQueries
  import ListQuery

  /** What a handler answers: 200/201 with data, 404, or 500. */
  datatype Outcome<T> = Ok(data: T) | NotFound | InternalError

  /** The body of a successful list response. */
  datatype TaskPage = TaskPage(count: nat, total: nat, page: int, data: seq<Task>)

  /** A row of the admin listing: a task with its owner's username and email. */
  datatype OwnedTask = OwnedTask(task: Task, username: string, email: string)

  /** The body of a successful admin listing. */
  datatype AdminPage = AdminPage(count: nat, data: seq<OwnedTask>)

  /** Defaults of the `page` and `limit` query parameters. */
  const DefaultPage: int := 1
  const DefaultLimit: int := 10

  function PageOf(page: Option<int>): int
  {
    if page.Some? then page.value else DefaultPage
  }

  function LimitOf(limit: Option<int>): int
  {
    if limit.Some? then limit.value else DefaultLimit
  }

  /**
   * Rows skipped before the requested page: `(page - 1) * limit`. The first
   * page skips nothing, and no page of a non-negative limit skips a negative
   * number of rows.
   */
  function OffsetOf(page: Option<int>, limit: Option<int>): (r: int)
    ensures page.None? || page == Some(1) ==> r == 0
    ensures PageOf(page) >= 1 && LimitOf(limit) >= 0 ==> r >= 0
  {
    (PageOf(page) - 1) * LimitOf(limit)
  }

  /**
   * A request without `page` and `limit` asks for the first ten rows; a
   * given value is used as it is.
   */
  lemma QueryDefaults(page: int, limit: int)
    ensures PageOf(None) == 1 && LimitOf(None) == 10 && OffsetOf(None, None) == 0
    ensures PageOf(Some(page)) == page && LimitOf(Some(limit)) == limit
  {
  }

  /** Consecutive pages adjoin: page `p + 1` starts `limit` rows after page `p`. */
  lemma NextPageOffset(p: int, limit: Option<int>)
    ensures OffsetOf(Some(p + 1), limit) == OffsetOf(Some(p), limit) + LimitOf(limit)
  {
  }

  /**
   * `tasks t JOIN users u ON t.user_id = u.id`, keeping the order of `rows`:
   * a row whose owner is missing has no partner and drops out.
   */
  function JoinOwners(rows: seq<Task>, users: map<int, User>): (r: seq<OwnedTask>)
    ensures |r| <= |rows|
    ensures forall x :: x in r ==>
              && x.task in rows && x.task.ownerId in users
              && x.username == users[x.task.ownerId].username
              && x.email == users[x.task.ownerId].email
    ensures (forall t :: t in rows ==> t.ownerId in users) ==>
              |r| == |rows| && forall i :: 0 <= i < |r| ==> r[i].task == rows[i]
  {
    if |rows| == 0 then []
    else
      var rest := JoinOwners(rows[1..], users);
      assert rows == [rows[0]] + rows[1..];
      if rows[0].ownerId in users then
        var owner := users[rows[0].ownerId];
        [OwnedTask(rows[0], owner.username, owner.email)] + rest
      else rest
  }

  /** `users.id` is a SERIAL: every user id is a positive INTEGER. */
  predicate UserIdsFit(users: map<int, User>)
  {
    forall u :: u in users ==> 1 <= u <= IntegerMax
  }

  class TaskTable {
    /** The `users` table, read here only for the admin join and the foreign key. */
    var users: map<int, User>
    /** The rows of `tasks`, in insertion order. */
    var tasks: seq<Task>
    /** The next value of the `tasks.id` sequence. */
    var nextId: nat
    /** The logical CURRENT_TIMESTAMP of the last write. */
    var clock: nat

    ghost predicate Valid()
      reads this
    {
      && 1 <= nextId <= IntegerMax + 1
      && UserIdsFit(users)
      && TableInvariant(tasks, users, nextId, clock)
    }

    constructor (users: map<int, User>)
      requires UserIdsFit(users)
      ensures Valid()
      ensures this.users == users && tasks == [] && nextId == 1 && clock == 0
    {
      this.users := users;
      tasks := [];
      nextId := 1;
      clock := 0;
    }

    /**
     * `getAllTasks`: the requester's tasks narrowed by the truthy filters,
     * newest first, one page of them; `total` counts all the requester's
     * tasks, whatever the filters, page or limit. A negative limit or offset,
     * or a filter text holding U+0000, makes the statement fail: 500.
     */
    method GetAllTasks(requester: int, status: Option<string>, priority: Option<string>,
                       page: Option<int>, limit: Option<int>)
      returns (r: Outcome<TaskPage>)
      requires Valid()
      ensures !r.NotFound?
      ensures r.InternalError? <==>
                || LimitOf(limit) < 0 || OffsetOf(page, limit) < 0
                || !Decodes(status) || !Decodes(priority)
      ensures r.Ok? ==>
                r.data.data == Window(NewestFirst(Matching(tasks, requester, status, priority)),
                                      LimitOf(limit), OffsetOf(page, limit))
      ensures r.Ok? ==> forall t :: t in r.data.data ==> t in tasks && Matches(t, requester, status, priority)
      ensures r.Ok? ==> forall i, j :: 0 <= i < j < |r.data.data| ==>
                          r.data.data[i].createdAt > r.data.data[j].createdAt
      ensures r.Ok? ==> r.data.count == |r.data.data| <= LimitOf(limit)
      ensures r.Ok? ==> r.data.total == |OwnedBy(tasks, requester)| && r.data.count <= r.data.total
      ensures r.Ok? ==> r.data.page == PageOf(page)
    {
      var pg := PageOf(page);
      var lim := LimitOf(limit);
      var offset := OffsetOf(page, limit);

      var rows := ListQuery.ListRows(tasks, requester, status, priority, lim, offset);
      match rows {
        case None =>
          r := InternalError;
        case Some(data) =>
          var total := CountOwned(tasks, requester);
          ListedPage(tasks, requester, status, priority, lim, offset);
          r := Ok(TaskPage(|data|, total, pg, data));
      }
    }

    /**
     * `getTask`: the task with this id if the requester owns it; otherwise
     * NotFound, whether the id is missing or owned by someone else. An id
     * outside INTEGER cannot be compared with the column: 500.
     */
    function GetTask(id: int, requester: int): (r: Outcome<Task>)
      reads this
      ensures r.InternalError? <==> !FitsInteger(id)
      ensures r.Ok? <==> FitsInteger(id) && exists t :: t in tasks && t.id == id && t.ownerId == requester
      ensures r.Ok? ==> r.data in tasks && r.data.id == id && r.data.ownerId == requester
    {
      if !FitsInteger(id) then InternalError
      else
        match Lookup(tasks, id, requester)
        case Some(t) => Ok(t)
        case None => NotFound
    }

    /**
     * `createTask`: inserts one row owned by the requester. Missing or empty
     * description, status and priority fall back to '', 'pending' and
     * 'medium'; a missing or over-long title, a status or priority outside
     * its domain, or a requester with no user row is refused by the table's
     * constraints and answered with 500. The id sequence advances either way,
     * unless it is exhausted, which is a 500 too. A title whose characters past
     * the 200th are spaces is stored cut to 200 characters. A sent text holding
     * U+0000 does not bind: 500 before the statement runs, so the sequence
     * does not advance.
     */
    method CreateTask(requester: int, title: Option<string>, description: Option<string>,
                      status: Option<string>, priority: Option<string>)
      returns (r: Outcome<Task>)
      requires Valid()
      modifies this
      ensures Valid()
      ensures users == old(users)
      ensures nextId ==
                if Decodes(title) && Decodes(description) && Decodes(status) && Decodes(priority)
                   && old(nextId) <= IntegerMax
                then old(nextId) + 1 else old(nextId)
      ensures !r.NotFound?
      ensures r.Ok? <==>
                && Decodes(title) && Decodes(description) && Decodes(status) && Decodes(priority)
                && old(nextId) <= IntegerMax
                && TitleColumn(title).Accepted?
                && IsStatusName(OrElse(status, "pending"))
                && IsPriorityName(OrElse(priority, "medium"))
                && requester in users
      ensures r.InternalError? ==> tasks == old(tasks) && clock == old(clock)
      ensures r.Ok? ==>
                && tasks == old(tasks) + [r.data]
                && clock == old(clock) + 1
                && r.data.createdAt == r.data.updatedAt == clock
      ensures r.Ok? ==>
                && r.data.id == old(nextId)
                && (forall t :: t in old(tasks) ==> t.id != r.data.id)
                && r.data.ownerId == requester
                && r.data.title == TitleColumn(title).value
                && r.data.description == Some(OrElse(description, ""))
                && r.data.status.Some? && StatusName(r.data.status.value) == OrElse(status, "pending")
                && r.data.priority.Some? && PriorityName(r.data.priority.value) == OrElse(priority, "medium")
      ensures r.Ok? && !Truthy(description) ==> r.data.description == Some("")
      ensures r.Ok? && !Truthy(status) ==> r.data.status == Some(Pending)
      ensures r.Ok? && !Truthy(priority) ==> r.data.priority == Some(Medium)
    {
      var descriptionText := OrElse(description, "");
      var statusText := OrElse(status, "pending");
      var priorityText := OrElse(priority, "medium");
      OrElseDecodes(description, "");
      OrElseDecodes(status, "pending");
      OrElseDecodes(priority, "medium");
      if !Decodes(title) || !NulFree(descriptionText) || !NulFree(statusText) || !NulFree(priorityText) {
        return InternalError;
      }
      if nextId > IntegerMax {
        return InternalError;
      }
      var id := nextId;
      nextId := nextId + 1;
      var titleValue := TitleColumn(title);
      var statusValue := StatusColumn(Some(statusText));
      var priorityValue := PriorityColumn(Some(priorityText));
      if titleValue.Violation? || statusValue.Violation? || priorityValue.Violation?
         || requester !in users
      {
        r := InternalError;
      } else {
        clock := clock + 1;
        var t := Task(id, titleValue.value, Some(descriptionText),
                      statusValue.value, priorityValue.value, requester, clock, clock);
        tasks := tasks + [t];
        r := Ok(t);
      }
    }

    /**
     * `updateTask`: if the requester owns a task with this id, replaces its
     * title, description, status and priority with exactly the supplied
     * values (a missing one is written as NULL) and refreshes `updatedAt`;
     * otherwise NotFound and nothing changes. An id outside INTEGER, a missing
     * or over-long title, a status or priority outside its domain, or a
     * supplied text holding U+0000 (which does not bind) is refused with 500.
     */
    method UpdateTask(id: int, requester: int, title: Option<string>, description: Option<string>,
                      status: Option<string>, priority: Option<string>)
      returns (r: Outcome<Task>)
      requires Valid()
      modifies this
      ensures Valid()
      ensures users == old(users) && nextId == old(nextId)
      ensures r.NotFound? <==> FitsInteger(id) && Lookup(old(tasks), id, requester).None?
      ensures r.InternalError? <==>
                || !FitsInteger(id)
                || (&& Lookup(old(tasks), id, requester).Some?
                    && !(&& Decodes(title) && Decodes(description) && Decodes(status) && Decodes(priority)
                         && TitleColumn(title).Accepted?
                         && StatusColumn(status).Accepted?
                         && PriorityColumn(priority).Accepted?))
      ensures !r.Ok? ==> tasks == old(tasks) && clock == old(clock)
      ensures r.Ok? ==>
                var i := Locate(old(tasks), id, requester).value;
                && tasks == old(tasks)[i := r.data]
                && r.data.id == old(tasks)[i].id == id
                && r.data.ownerId == requester
                && r.data.createdAt == old(tasks)[i].createdAt
                && r.data.updatedAt == clock == old(clock) + 1
      ensures r.Ok? ==>
                && r.data.title == TitleColumn(title).value
                && r.data.description == description
                && (status.None? ==> r.data.status.None?)
                && (status.Some? ==> r.data.status.Some? && StatusName(r.data.status.value) == status.value)
                && (priority.None? ==> r.data.priority.None?)
                && (priority.Some? ==> r.data.priority.Some? && PriorityName(r.data.priority.value) == priority.value)
    {
      if !FitsInteger(id) {
        return InternalError;
      }
      match Locate(tasks, id, requester)
      case None =>
        r := NotFound;
      case Some(i) =>
        if !(Decodes(title) && Decodes(description) && Decodes(status) && Decodes(priority)) {
          return InternalError;
        }
        var titleValue := TitleColumn(title);
        var statusValue := StatusColumn(status);
        var priorityValue := PriorityColumn(priority);
        if titleValue.Violation? || statusValue.Violation? || priorityValue.Violation? {
          r := InternalError;
        } else {
          var t := tasks[i].(title := titleValue.value, description := description,
                             status := statusValue.value, priority := priorityValue.value,
                             updatedAt := clock + 1);
          UpdateKeepsInvariant(tasks, users, nextId, clock, i, t);
          clock := clock + 1;
          tasks := tasks[i := t];
          r := Ok(t);
        }
    }

    /**
     * `deleteTask`: removes the requester's task with this id and no other
     * row, or answers NotFound with the table unchanged; an id outside
     * INTEGER is a 500, also with the table unchanged. Afterwards no such
     * task remains, so deleting it again is NotFound.
     */
    method DeleteTask(id: int, requester: int) returns (r: Outcome<()>)
      requires Valid()
      modifies this
      ensures Valid()
      ensures users == old(users) && nextId == old(nextId) && clock == old(clock)
      ensures r.InternalError? <==> !FitsInteger(id)
      ensures r.NotFound? <==> FitsInteger(id) && Lookup(old(tasks), id, requester).None?
      ensures !r.Ok? ==> tasks == old(tasks)
      ensures r.Ok? ==> |tasks| == |old(tasks)| - 1
      ensures forall t :: t in tasks <==> t in old(tasks) && !(t.id == id && t.ownerId == requester)
      ensures Lookup(tasks, id, requester).None?
    {
      if !FitsInteger(id) {
        return InternalError;
      }
      match Locate(tasks, id, requester)
      case None =>
        r := NotFound;
      case Some(i) =>
        RemoveKeepsInvariant(tasks, users, nextId, clock, id, requester, i);
        tasks := RemoveAt(tasks, i);
        r := Ok(());
    }

    /**
     * Deleting a user (outside these handlers): ON DELETE CASCADE removes
     * exactly that user's tasks, so every remaining task still has an owner.
     */
    method DeleteUser(u: int)
      requires Valid()
      modifies this
      ensures Valid()
      ensures users == old(users) - {u}
      ensures forall t :: t in tasks <==> t in old(tasks) && t.ownerId != u
      ensures nextId == old(nextId) && clock == old(clock)
    {
      DisownedChronological(tasks, u);
      tasks := Disowned(tasks, u);
      users := users - {u};
    }

    /**
     * `getAllTasksAdmin`: every task of every owner, newest first, each with
     * its owner's username and email; `count` is the number of rows.
     */
    function GetAllTasksAdmin(): (r: AdminPage)
      reads this
      requires Valid()
      ensures r.data == JoinOwners(NewestFirst(tasks), users)
      ensures r.count == |r.data| == |tasks|
      ensures forall i :: 0 <= i < |r.data| ==>
                && r.data[i].task == tasks[|tasks| - 1 - i]
                && r.data[i].task.ownerId in users
                && r.data[i].username == users[r.data[i].task.ownerId].username
                && r.data[i].email == users[r.data[i].task.ownerId].email
      ensures forall i, j :: 0 <= i < j < |r.data| ==> r.data[i].task.createdAt > r.data[j].task.createdAt
    {
      JoinNewest(tasks, users);
      var rows := JoinOwners(NewestFirst(tasks), users);
      AdminPage(|rows|, rows)
    }
  }

  /**
   * The admin join over the newest-first rows of a table whose owners all
   * exist: every row, newest first, each with its own owner's name and email.
   */
  lemma JoinNewest(rows: seq<Task>, users: map<int, User>)
    requires Chronological(rows) && forall t :: t in rows ==> t.ownerId in users
    ensures var r := JoinOwners(NewestFirst(rows), users);
            && |r| == |rows|
            && (forall i :: 0 <= i < |r| ==>
                  && r[i].task == rows[|rows| - 1 - i]
                  && r[i].task.ownerId in users
                  && r[i].username == users[r[i].task.ownerId].username
                  && r[i].email == users[r[i].task.ownerId].email)
            && (forall i, j :: 0 <= i < j < |r| ==> r[i].task.createdAt > r[j].task.createdAt)
  {
    var newest := NewestFirst(rows);
    assert forall t :: t in newest ==> t in rows;
    var r := JoinOwners(newest, users);
    forall i | 0 <= i < |r|
      ensures r[i].task == rows[|rows| - 1 - i]
      ensures r[i].task.ownerId in users
      ensures r[i].username == users[r[i].task.ownerId].username
      ensures r[i].email == users[r[i].task.ownerId].email
    {
      assert r[i] in r;
    }
  }

  /**
   * A page of the list: only matching rows of the table, strictly newest
   * first, at most `limit` of them and never more than the owner has.
   */
  lemma ListedPage(rows: seq<Task>, owner: int, status: Option<string>, priority: Option<string>,
                   limit: nat, offset: nat)
    requires Chronological(rows)
    ensures var page := Window(NewestFirst(Matching(rows, owner, status, priority)), limit, offset);
            && (forall t :: t in page ==> t in rows && Matches(t, owner, status, priority))
            && (forall i, j :: 0 <= i < j < |page| ==> page[i].createdAt > page[j].createdAt)
            && |page| <= |OwnedBy(rows, owner)|
  {
    var matching := Matching(rows, owner, status, priority);
    MatchingWithinOwned(rows, owner, status, priority);
    MatchingChronological(rows, owner, status, priority);
    NewestWindow(matching, limit, offset);
  }

  /** A window of the newest-first rows holds rows of the table, newest first. */
  lemma NewestWindow(rows: seq<Task>, limit: nat, offset: nat)
    requires Chronological(rows)
    ensures var page := Window(NewestFirst(rows), limit, offset);
            && (forall t :: t in page ==> t in rows)
            && (forall i, j :: 0 <= i < j < |page| ==> page[i].createdAt > page[j].createdAt)
            && |page| <= |rows|
  {
    var newest := NewestFirst(rows);
    var page := Window(newest, limit, offset);
    forall t | t in page ensures t in rows {
      var k :| 0 <= k < |page| && page[k] == t;
      assert newest[offset + k] == t;
      assert rows[|rows| - 1 - (offset + k)] == t;
    }
    forall i, j | 0 <= i < j < |page| ensures page[i].createdAt > page[j].createdAt {
      assert page[i] == newest[offset + i] && page[j] == newest[offset + j];
    }
  }

  /**
   * An UPDATE that keeps the row's id, owner and creation time, stamps it with
   * the next clock value and stores a title that fits keeps the table invariant.
   */
  lemma UpdateKeepsInvariant(rows: seq<Task>, users: map<int, User>, nextId: nat, clock: nat,
                             i: nat, t: Task)
    requires TableInvariant(rows, users, nextId, clock) && i < |rows|
    requires t.id == rows[i].id && t.ownerId == rows[i].ownerId && t.createdAt == rows[i].createdAt
    requires t.updatedAt == clock + 1 && |t.title| <= TitleMaxLength
    ensures TableInvariant(rows[i := t], users, nextId, clock + 1)
  {
    UpdateKeepsChronological(rows, i, t);
    assert rows[i] in rows;
  }

  /** Replacing a row's values but not its id or creation time keeps the table in order. */
  lemma UpdateKeepsChronological(rows: seq<Task>, i: nat, t: Task)
    requires Chronological(rows) && i < |rows|
    requires t.id == rows[i].id && t.createdAt == rows[i].createdAt
    ensures Chronological(rows[i := t])
  {
  }

  /** A table of one row lists that row, on the first page of any positive size. */
  lemma OneRowPage(t: Task, limit: nat)
    requires limit >= 1
    ensures Matching([t], t.ownerId, None, None) == [t]
    ensures NewestFirst([t]) == [t]
    ensures Window([t], limit, 0) == [t]
  {
    assert [t][1..] == [];
    assert [t][..0] == [];
  }

  /** A fresh table in which user 1 has created "Buy milk" with every default. */
  method CreateMilk(users: map<int, User>) returns (table: TaskTable, t: Task)
    requires 1 in users && UserIdsFit(users)
    ensures fresh(table) && table.Valid() && table.users == users
    ensures table.tasks == [t] && t.id == 1 && t.ownerId == 1 && t.title == "Buy milk"
    ensures t.description == Some("") && t.status == Some(Pending) && t.priority == Some(Medium)
  {
    table := new TaskTable(users);
    assert TitleColumn(Some("Buy milk")) == Accepted("Buy milk");
    assert StatusName(Pending) == "pending" && PriorityName(Medium) == "medium";
    var created := table.CreateTask(1, Some("Buy milk"), None, None, None);
    assert created.Ok?;
    t := created.data;
  }

  /** A new task gets the defaults and is the whole of its owner's first page. */
  method CreateThenList()
  {
    var table, t := CreateMilk(map[1 := User("alice", "alice@example.com")]);
    assert t.status == Some(Pending) && t.priority == Some(Medium) && t.description == Some("");

    OneRowPage(t, 10);
    QueryDefaults(1, 10);
    var listed := table.GetAllTasks(1, None, None, None, None);
    assert listed.Ok?;
    assert listed.data.data == [t] && listed.data.count == 1 && listed.data.total == 1;
  }

  /** Another user can neither see nor delete a task: both answer NotFound and nothing changes. */
  method ForeignRequester()
  {
    var table, t := CreateMilk(map[1 := User("alice", "alice@example.com"),
                                   2 := User("bob", "bob@example.com")]);

    assert table.GetTask(t.id, 2).NotFound?;
    var foreign := table.DeleteTask(t.id, 2);
    assert foreign.NotFound? && table.tasks == [t];
  }

  /** The owner's update replaces status and priority with the values sent. */
  method UpdateOwnTask()
  {
    var table, t := CreateMilk(map[1 := User("alice", "alice@example.com")]);

    assert StatusName(Completed) == "completed" && PriorityName(Low) == "low";
    assert StatusColumn(Some("completed")) == Accepted(Some(Completed));
    assert PriorityColumn(Some("low")) == Accepted(Some(Low));
    assert Lookup(table.tasks, t.id, 1) == Some(t);
    var updated := table.UpdateTask(t.id, 1, Some("Buy milk"), Some(""), Some("completed"), Some("low"));
    assert updated.Ok?;
    assert updated.data.status == Some(Completed) && updated.data.priority == Some(Low);
  }

  /** A title holding U+0000 does not bind: 500, and neither the rows nor the sequence move. */
  method NulTitleRefused()
  {
    var table := new TaskTable(map[1 := User("alice", "alice@example.com")]);
    assert "a\0b"[1] == '\0';
    var created := table.CreateTask(1, Some("a\0b"), None, None, None);
    assert created.InternalError? && table.tasks == [] && table.nextId == 1;
  }

  /** The owner deletes a task; it is gone for good, and deleting it again is NotFound. */
  method DeleteTwice()
  {
    var table, t := CreateMilk(map[1 := User("alice", "alice@example.com")]);

    var deleted := table.DeleteTask(t.id, 1);
    assert deleted.Ok? && table.tasks == [];
    assert table.GetTask(t.id, 1).NotFound?;
    var again := table.DeleteTask(t.id, 1);
    assert again.NotFound?;
  }
}
