/**
 * The relational task store as the handlers of app/routers/tasks.py use it:
 * rows keyed by id, the owner-scoped lookups, the ordered and paginated listing
 * query, the row `create_task` builds and the `setattr` loop of `update_task`.
 */
module TaskStore {
  import opened Wrappers
  import opened Models

  /**
   * What the database guarantees of the table: ids come from a sequence that
   * starts at 1 and never hands out `nextId` or more, every row satisfies the
   * column constraints, and creation times (readings of `clock`) grow with ids.
   */
  ghost predicate WellFormed(rows: map<int, Task>, nextId: int, clock: int) {
    && nextId >= 1
    && (forall i :: i in rows ==> 1 <= i < nextId && rows[i].id == i && Storable(rows[i]) && rows[i].createdAt < clock)
    && (forall i, j :: i in rows && j in rows && i < j ==> rows[i].createdAt < rows[j].createdAt)
  }

  /** Inserting a storable row under the next id, created now, keeps the table well formed. */
  lemma InsertKeepsWellFormed(rows: map<int, Task>, nextId: int, clock: int, t: Task)
    requires WellFormed(rows, nextId, clock)
    requires t.id == nextId && Storable(t) && t.createdAt == clock
    ensures WellFormed(rows[nextId := t], nextId + 1, clock + 1)
  {
  }

  /** Replacing a row by a storable one with the same id and creation time keeps the table well formed. */
  lemma ReplaceKeepsWellFormed(rows: map<int, Task>, nextId: int, clock: int, t: Task)
    requires WellFormed(rows, nextId, clock)
    requires t.id in rows && Storable(t) && t.createdAt == rows[t.id].createdAt
    ensures WellFormed(rows[t.id := t], nextId, clock + 1)
  {
  }

  /** Deleting a row keeps the table well formed. */
  lemma RemoveKeepsWellFormed(rows: map<int, Task>, nextId: int, clock: int, id: int)
    requires WellFormed(rows, nextId, clock)
    ensures WellFormed(rows - {id}, nextId, clock)
  {
  }

  /** `filter(Task.id == task_id, Task.owner_id == user).first()`. */
  function FindOwned(rows: map<int, Task>, user: int, id: int): Option<Task> {
    if id in rows && rows[id].ownerId == user then Some(rows[id]) else None
  }

  /** A row is visible to `user` exactly when it is the user's own. */
  lemma FindOwnedIsolates(rows: map<int, Task>, user: int, id: int)
    ensures FindOwned(rows, user, id).Some? <==> id in rows && rows[id].ownerId == user
    ensures FindOwned(rows, user, id).Some? ==> FindOwned(rows, user, id).value == rows[id]
  {
  }

  /** The WHERE clause of `list_tasks`: the owner's rows, with the given status if one is asked for. */
  predicate Selects(t: Task, user: int, status: Option<Status>) {
    t.ownerId == user && (status.Some? ==> t.status == Some(StatusName(status.value)))
  }

  function Pick(rows: map<int, Task>, i: int, user: int, status: Option<Status>): seq<Task> {
    if i in rows && Selects(rows[i], user, status) then [rows[i]] else []
  }

  /** The selected rows with ids `hi`, `hi - 1`, ..., `1`, in that order. */
  function Scan(rows: map<int, Task>, user: int, status: Option<Status>, hi: int): seq<Task>
    decreases hi
  {
    if hi < 1 then [] else Pick(rows, hi, user, status) + Scan(rows, user, status, hi - 1)
  }

  /** `.offset(skip).limit(limit)`. */
  function Page(xs: seq<Task>, skip: nat, limit: nat): (r: seq<Task>)
    ensures |r| <= limit
    ensures |r| == if skip >= |xs| then 0 else if limit < |xs| - skip then limit else |xs| - skip
    ensures forall k :: 0 <= k < |r| ==> r[k] == xs[skip + k]
  {
    var rest := if skip < |xs| then xs[skip..] else [];
    if limit < |rest| then rest[..limit] else rest
  }

  /** The full query of `list_tasks`, ordered by `created_at` descending (see `ScanSorted`). */
  function Listing(rows: map<int, Task>, nextId: int, user: int, skip: nat, limit: nat, status: Option<Status>): seq<Task> {
    Page(Scan(rows, user, status, nextId - 1), skip, limit)
  }

  /** Every row of a scan is a stored, selected row with an id in range. */
  lemma {:induction false} ScanSound(rows: map<int, Task>, user: int, status: Option<Status>, hi: int)
    requires forall i :: i in rows ==> rows[i].id == i
    ensures forall k :: 0 <= k < |Scan(rows, user, status, hi)| ==>
              var t := Scan(rows, user, status, hi)[k];
              1 <= t.id <= hi && t.id in rows && rows[t.id] == t && Selects(t, user, status)
    decreases hi
  {
    if hi >= 1 {
      ScanSound(rows, user, status, hi - 1);
    }
  }

  /** Every selected row with an id in range is in the scan. */
  lemma {:induction false} ScanComplete(rows: map<int, Task>, user: int, status: Option<Status>, hi: int)
    ensures forall i :: 1 <= i <= hi && i in rows && Selects(rows[i], user, status) ==>
              rows[i] in Scan(rows, user, status, hi)
    decreases hi
  {
    if hi >= 1 {
      ScanComplete(rows, user, status, hi - 1);
    }
  }

  /** Strictly decreasing creation times: the order `order_by(Task.created_at.desc())` asks for. */
  ghost predicate NewestFirst(ts: seq<Task>) {
    forall a, b :: 0 <= a < b < |ts| ==> ts[a].createdAt > ts[b].createdAt
  }

  /** In a well-formed table a scan lists the newest row first. */
  lemma {:induction false} ScanSorted(rows: map<int, Task>, nextId: int, clock: int, user: int, status: Option<Status>, hi: int)
    requires WellFormed(rows, nextId, clock)
    ensures NewestFirst(Scan(rows, user, status, hi))
    decreases hi
  {
    if hi >= 1 {
      var rest := Scan(rows, user, status, hi - 1);
      ScanSorted(rows, nextId, clock, user, status, hi - 1);
      ScanSound(rows, user, status, hi - 1);
      var r := Scan(rows, user, status, hi);
      assert r == Pick(rows, hi, user, status) + rest;
      if Pick(rows, hi, user, status) != [] {
        forall b | 0 < b < |r|
          ensures r[0].createdAt > r[b].createdAt
        {
          assert r[b] == rest[b - 1];
          assert rest[b - 1].id < hi;
        }
      }
    }
  }

  /** Two newest-first sequences holding the same rows are the same sequence. */
  lemma {:induction false} NewestFirstUnique(a: seq<Task>, b: seq<Task>)
    requires NewestFirst(a) && NewestFirst(b)
    requires forall t :: t in a <==> t in b
    ensures a == b
    decreases |a|
  {
    assert a != [] ==> a[0] in b;
    assert b != [] ==> b[0] in a;
    if a != [] && b != [] {
      assert a[0] == b[0];
      forall t
        ensures t in a[1..] <==> t in b[1..]
      {
        if t in a[1..] {
          var k :| 0 <= k < |a| - 1 && a[1..][k] == t;
          assert t == a[k + 1] != a[0];
          assert t in a && t in b;
          var m :| 0 <= m < |b| && b[m] == t;
          assert m != 0;
          assert b[1..][m - 1] == t;
        }
        if t in b[1..] {
          var k :| 0 <= k < |b| - 1 && b[1..][k] == t;
          assert t == b[k + 1] != b[0];
          assert t in b && t in a;
          var m :| 0 <= m < |a| && a[m] == t;
          assert m != 0;
          assert a[1..][m - 1] == t;
        }
      }
      NewestFirstUnique(a[1..], b[1..]);
      assert a == [a[0]] + a[1..];
      assert b == [b[0]] + b[1..];
    }
  }

  /**
   * The scan is THE answer of the SQL query before pagination: the owner's
   * selected rows, newest first, and no other sequence is both.
   */
  lemma ScanIsOrderedSelection(rows: map<int, Task>, nextId: int, clock: int, user: int, status: Option<Status>, r: seq<Task>)
    requires WellFormed(rows, nextId, clock)
    requires NewestFirst(r)
    requires forall t :: t in r <==> t in rows.Values && Selects(t, user, status)
    ensures r == Scan(rows, user, status, nextId - 1)
  {
    var s := Scan(rows, user, status, nextId - 1);
    ScanSound(rows, user, status, nextId - 1);
    ScanComplete(rows, user, status, nextId - 1);
    ScanSorted(rows, nextId, clock, user, status, nextId - 1);
    forall t
      ensures t in r <==> t in s
    {
      if t in s {
        var k :| 0 <= k < |s| && s[k] == t;
        assert rows[t.id] == t;
      }
      if t in r {
        assert t in rows.Values;
        var i :| i in rows && rows[i] == t;
      }
    }
    NewestFirstUnique(r, s);
  }

  /** What `list_tasks` returns: the owner's rows, filtered, newest first, paginated. */
  lemma ListingMeetsQuery(rows: map<int, Task>, nextId: int, clock: int, user: int, skip: nat, limit: nat, status: Option<Status>)
    requires WellFormed(rows, nextId, clock)
    ensures |Listing(rows, nextId, user, skip, limit, status)| <= limit
    ensures forall t :: t in Listing(rows, nextId, user, skip, limit, status) ==> t in rows.Values && Selects(t, user, status)
    ensures NewestFirst(Listing(rows, nextId, user, skip, limit, status))
    ensures skip == 0 && limit >= 1 && (exists i :: i in rows && Selects(rows[i], user, status)) ==>
              |Listing(rows, nextId, user, skip, limit, status)| >= 1
  {
    var s := Scan(rows, user, status, nextId - 1);
    var r := Listing(rows, nextId, user, skip, limit, status);
    ScanSound(rows, user, status, nextId - 1);
    ScanComplete(rows, user, status, nextId - 1);
    ScanSorted(rows, nextId, clock, user, status, nextId - 1);
    forall t | t in r
      ensures t in rows.Values && Selects(t, user, status)
    {
      var k :| 0 <= k < |r| && r[k] == t;
      assert t == s[skip + k];
      assert rows[t.id] == t;
    }
    forall a, b | 0 <= a < b < |r|
      ensures r[a].createdAt > r[b].createdAt
    {
      assert r[a] == s[skip + a] && r[b] == s[skip + b];
    }
    if skip == 0 && limit >= 1 && (exists i :: i in rows && Selects(rows[i], user, status)) {
      var i :| i in rows && Selects(rows[i], user, status);
      assert rows[i] in s;
    }
  }

  /** Rows that agree on every id up to `hi`, except where neither is selected, scan alike. */
  lemma {:induction false} ScanFrame(rows: map<int, Task>, rows': map<int, Task>, user: int, status: Option<Status>, hi: int)
    requires forall i :: 1 <= i <= hi ==> Pick(rows, i, user, status) == Pick(rows', i, user, status)
    ensures Scan(rows, user, status, hi) == Scan(rows', user, status, hi)
    decreases hi
  {
    if hi >= 1 {
      ScanFrame(rows, rows', user, status, hi - 1);
    }
  }

  // ---------------------------------------------------------------- create_task

  /** `Task(**payload.model_dump(), owner_id=user)` as the database stores it. */
  function NewRow(p: TaskCreate, user: int, id: int, now: int): Task {
    Task(id, Some(p.title), p.description, Some(p.status.GetOr(DefaultStatus)), p.dueDate, now, now, user)
  }

  /** The new row belongs to the caller, keeps the payload, and has status `todo` unless one was given. */
  lemma NewRowFields(p: TaskCreate, user: int, id: int, now: int)
    ensures NewRow(p, user, id, now).ownerId == user && NewRow(p, user, id, now).id == id
    ensures NewRow(p, user, id, now).title == Some(p.title)
    ensures NewRow(p, user, id, now).description == p.description
    ensures NewRow(p, user, id, now).dueDate == p.dueDate
    ensures p.status.None? ==> NewRow(p, user, id, now).status == Some("todo")
    ensures p.status.Some? ==> NewRow(p, user, id, now).status == p.status
  {
  }

  // ---------------------------------------------------------------- update_task

  /** One `setattr(task, k, v)` of the loop over `update_data`. */
  datatype Assignment =
    | SetTitle(title: Option<string>)
    | SetDescription(description: Option<string>)
    | SetStatus(status: Option<string>)
    | SetDueDate(dueDate: Option<int>)

  /** `payload.model_dump(exclude_unset=True).items()`: the sent fields, in declaration order. */
  function Dump(p: TaskUpdate): seq<Assignment> {
    (if p.title.Sent? then [SetTitle(p.title.value)] else [])
    + (if p.description.Sent? then [SetDescription(p.description.value)] else [])
    + (if p.status.Sent? then [SetStatus(p.status.value)] else [])
    + (if p.dueDate.Sent? then [SetDueDate(p.dueDate.value)] else [])
  }

  function Assign(t: Task, a: Assignment): Task {
    match a
    case SetTitle(v) => t.(title := v)
    case SetDescription(v) => t.(description := v)
    case SetStatus(v) => t.(status := v)
    case SetDueDate(v) => t.(dueDate := v)
  }

  /** The task after the assignments `s`, applied in order. */
  function Replay(t: Task, s: seq<Assignment>): Task
    decreases |s|
  {
    if s == [] then t else Assign(Replay(t, s[..|s| - 1]), s[|s| - 1])
  }

  /** Field by field: a sent field takes the sent value, every other field keeps its value. */
  function Patched(t: Task, p: TaskUpdate): Task {
    t.(title := p.title.Or(t.title),
       description := p.description.Or(t.description),
       status := p.status.Or(t.status),
       dueDate := p.dueDate.Or(t.dueDate))
  }

  lemma {:induction false} ReplayAppend(t: Task, s: seq<Assignment>, s': seq<Assignment>)
    ensures Replay(t, s + s') == Replay(Replay(t, s), s')
    decreases |s'|
  {
    if s' == [] {
      assert s + s' == s;
    } else {
      var last := s'[|s'| - 1];
      assert (s + s')[..|s + s'| - 1] == s + s'[..|s'| - 1];
      ReplayAppend(t, s, s'[..|s'| - 1]);
    }
  }

  lemma ReplayOne(t: Task, s: seq<Assignment>)
    requires |s| <= 1
    ensures s == [] ==> Replay(t, s) == t
    ensures |s| == 1 ==> Replay(t, s) == Assign(t, s[0])
  {
    if |s| == 1 {
      assert s[..0] == [];
    }
  }

  /** The `setattr` loop over the sent fields computes the field-by-field patch. */
  lemma ReplayDump(t: Task, p: TaskUpdate)
    ensures Replay(t, Dump(p)) == Patched(t, p)
  {
    var a := if p.title.Sent? then [SetTitle(p.title.value)] else [];
    var b := if p.description.Sent? then [SetDescription(p.description.value)] else [];
    var c := if p.status.Sent? then [SetStatus(p.status.value)] else [];
    var d := if p.dueDate.Sent? then [SetDueDate(p.dueDate.value)] else [];
    assert Dump(p) == a + b + c + d;
    ReplayAppend(t, a + b + c, d);
    ReplayAppend(t, a + b, c);
    ReplayAppend(t, a, b);
    ReplayOne(t, a);
    ReplayOne(Replay(t, a), b);
    ReplayOne(Replay(t, a + b), c);
    ReplayOne(Replay(t, a + b + c), d);
  }

  /** A patch never touches id, owner or timestamps, and applying it twice is applying it once. */
  lemma PatchedKeeps(t: Task, p: TaskUpdate)
    ensures Patched(t, p).id == t.id && Patched(t, p).ownerId == t.ownerId
    ensures Patched(t, p).createdAt == t.createdAt && Patched(t, p).updatedAt == t.updatedAt
    ensures Patched(Patched(t, p), p) == Patched(t, p)
    ensures Patched(t, TaskUpdate(Unset, Unset, Unset, Unset)) == t
  {
  }

  /** `for k, v in update_data.items(): setattr(task, k, v)`. */
  method SetAttrs(task: Task, p: TaskUpdate) returns (r: Task)
    ensures r == Patched(task, p)
  {
    var updateData := Dump(p);
    r := task;
    var i := 0;
    while i < |updateData|
      invariant 0 <= i <= |updateData|
      invariant r == Replay(task, updateData[..i])
    {
      assert updateData[..i + 1][..i] == updateData[..i];
      r := Assign(r, updateData[i]);
      i := i + 1;
    }
    assert updateData[..i] == updateData;
    ReplayDump(task, p);
  }

  /**
   * The row after the commit: the ORM writes only columns whose value changed,
   * and `updated_at` is refreshed (`onupdate`) only when it writes something.
   */
  function Flushed(before: Task, patched: Task, now: int): Task {
    if patched == before then before else patched.(updatedAt := now)
  }
}
