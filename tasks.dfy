/**
 * The task handlers of app/routers/tasks.py over the task store and the cache:
 * reads go to the cache first and fill it on a miss; writes commit to the store
 * and then delete the affected keys. The central property is coherence: every
 * live cache entry under a task or listing key is what the store answers now.
 */
module Tasks {
  import opened Wrappers
  import opened Models
  import opened TaskKeys
  import opened TaskStore
  import Cache

  /** The `ttl=60` both read handlers pass to `cache_set`. */
  const CacheTtl: int := 60

  type Keyspace = map<string, Cache.Entry<Doc>>

  /** A handler's outcome: a JSON body, 204, 404, a server error, or decoded text the model does not interpret. */
  datatype Reply = Body(doc: Doc) | NoContent | NotFound | ServerError | Undecoded(text: string)

  /** `json.loads(cached)` handed back as the response. */
  function Decoded(t: Cache.Stored<Doc>): Reply {
    match Cache.Loads(t)
    case Some(d) => Body(d)
    case None => Undecoded(t.text)
  }

  /** The answer of `get_task` computed from the store alone. */
  function TaskAnswer(rows: map<int, Task>, user: int, id: int): Reply {
    match FindOwned(rows, user, id)
    case Some(t) => Body(One(t))
    case None => NotFound
  }

  /** Everything a request can observe or change: the task table, the id sequence, the clock, and the cache. */
  datatype State = State(rows: map<int, Task>, nextId: int, clock: int, entries: Keyspace, now: int)

  /** A handler's effect: the state after it and the reply it gives. */
  datatype Outcome = Outcome(state: State, reply: Reply)

  /** A live entry under `task:{user}:{id}` holds the user's row `id` as it is now. */
  ghost predicate TaskEntryFresh(s: State, user: int, id: int) {
    var hit := Cache.Lookup(s.entries, s.now, TaskKey(user, id));
    hit.Some? ==> FindOwned(s.rows, user, id).Some? && hit.value == Cache.Dumped(One(FindOwned(s.rows, user, id).value))
  }

  /** A live entry under a listing key holds the listing the query gives now. */
  ghost predicate ListEntryFresh(s: State, user: int, skip: nat, limit: nat, status: Option<Status>) {
    var hit := Cache.Lookup(s.entries, s.now, ListKey(user, skip, limit, status));
    hit.Some? ==> hit.value == Cache.Dumped(Many(Listing(s.rows, s.nextId, user, skip, limit, status)))
  }

  /** Cache coherence: no live task or listing entry disagrees with the store. */
  ghost predicate Coherent(s: State) {
    && (forall user, id :: TaskEntryFresh(s, user, id))
    && (forall user, skip: nat, limit: nat, status :: ListEntryFresh(s, user, skip, limit, status))
  }

  /** The invariant every handler keeps: a well-formed table and a coherent cache. */
  ghost predicate Invariant(s: State) {
    WellFormed(s.rows, s.nextId, s.clock) && Coherent(s)
  }

  /** Under coherence a cache hit on a task key answers what the store answers. */
  lemma CoherentTaskHit(s: State, user: int, id: int)
    requires Coherent(s)
    requires Cache.Lookup(s.entries, s.now, TaskKey(user, id)).Some?
    ensures Cache.Truthy(Cache.Lookup(s.entries, s.now, TaskKey(user, id)).value)
    ensures Decoded(Cache.Lookup(s.entries, s.now, TaskKey(user, id)).value) == TaskAnswer(s.rows, user, id)
  {
    assert TaskEntryFresh(s, user, id);
  }

  /** Under coherence a cache hit on a listing key answers what the query answers. */
  lemma CoherentListHit(s: State, user: int, skip: nat, limit: nat, status: Option<Status>)
    requires Coherent(s)
    requires Cache.Lookup(s.entries, s.now, ListKey(user, skip, limit, status)).Some?
    ensures Cache.Truthy(Cache.Lookup(s.entries, s.now, ListKey(user, skip, limit, status)).value)
    ensures Decoded(Cache.Lookup(s.entries, s.now, ListKey(user, skip, limit, status)).value)
            == Body(Many(Listing(s.rows, s.nextId, user, skip, limit, status)))
  {
    assert ListEntryFresh(s, user, skip, limit, status);
  }

  /** Filling `task:{user}:{id}` on a miss with the user's row keeps the cache coherent. */
  lemma FillTaskKeepsCoherence(s: State, s': State, user: int, id: int, t: Task, expiresAt: int)
    requires FindOwned(s.rows, user, id) == Some(t)
    requires s'.rows == s.rows && s'.nextId == s.nextId && s'.now == s.now
    requires s'.entries == s.entries[TaskKey(user, id) := Cache.Entry(Cache.Dumped(One(t)), expiresAt)]
    ensures Coherent(s) ==> Coherent(s')
  {
    if Coherent(s) {
      forall u, i
        ensures TaskEntryFresh(s', u, i)
      {
        TaskKeyInjective(user, id, u, i);
        assert TaskEntryFresh(s, u, i);
      }
      forall u, sk: nat, l: nat, st
        ensures ListEntryFresh(s', u, sk, l, st)
      {
        TaskKeyNotListKey(user, id, u, sk, l, st);
        assert ListEntryFresh(s, u, sk, l, st);
      }
    }
  }

  /** Filling a listing key on a miss with the query's result keeps the cache coherent. */
  lemma FillListKeepsCoherence(s: State, s': State, user: int, skip: nat, limit: nat, status: Option<Status>, expiresAt: int)
    requires s'.rows == s.rows && s'.nextId == s.nextId && s'.now == s.now
    requires s'.entries == s.entries[ListKey(user, skip, limit, status)
                                     := Cache.Entry(Cache.Dumped(Many(Listing(s.rows, s.nextId, user, skip, limit, status))), expiresAt)]
    ensures Coherent(s) ==> Coherent(s')
  {
    if Coherent(s) {
      forall u, i
        ensures TaskEntryFresh(s', u, i)
      {
        TaskKeyNotListKey(u, i, user, skip, limit, status);
        assert TaskEntryFresh(s, u, i);
      }
      forall u, sk: nat, l: nat, st
        ensures ListEntryFresh(s', u, sk, l, st)
      {
        ListKeyInjective(user, skip, limit, status, u, sk, l, st);
        assert ListEntryFresh(s, u, sk, l, st);
      }
    }
  }

  /**
   * Inserting the user's new row under a fresh id and then deleting `tasks:{user}:*`
   * keeps the cache coherent: no task key can name the new id, and no other
   * user's listing changes.
   */
  lemma CreateKeepsCoherence(s: State, s': State, user: int, t: Task)
    requires s.nextId !in s.rows && t.id == s.nextId && t.ownerId == user
    requires s'.rows == s.rows[s.nextId := t] && s'.nextId == s.nextId + 1 && s'.now == s.now
    requires s'.entries == Cache.Swept(s.entries, ListPattern(user))
    ensures Coherent(s) ==> Coherent(s')
  {
    if Coherent(s) {
      forall u, i
        ensures TaskEntryFresh(s', u, i)
      {
        ListPatternSparesTaskKeys(user, u, i);
        Cache.LookupSwept(s.entries, s.now, ListPattern(user), TaskKey(u, i));
        assert TaskEntryFresh(s, u, i);
      }
      forall u, sk: nat, l: nat, st
        ensures ListEntryFresh(s', u, sk, l, st)
      {
        Cache.LookupSwept(s.entries, s.now, ListPattern(user), ListKey(u, sk, l, st));
        if u == user {
          ListPatternCoversOwn(u, sk, l, st);
        } else {
          ListPatternIsolates(user, u, sk, l, st);
          assert ListEntryFresh(s, u, sk, l, st);
          ScanFrame(s.rows, s'.rows, u, st, s.nextId - 1);
          assert Scan(s'.rows, u, st, s.nextId) == Scan(s'.rows, u, st, s.nextId - 1);
        }
      }
    }
  }

  /**
   * Replacing or removing the user's row `id` and then deleting `task:{user}:{id}`
   * and `tasks:{user}:*` keeps the cache coherent.
   */
  lemma ChangeKeepsCoherence(s: State, s': State, user: int, id: int)
    requires id in s.rows && s.rows[id].ownerId == user
    requires id in s'.rows ==> s'.rows[id].ownerId == user
    requires forall i :: i != id ==> (i in s'.rows <==> i in s.rows) && (i in s.rows ==> s'.rows[i] == s.rows[i])
    requires s'.nextId == s.nextId && s'.now == s.now
    requires s'.entries == Invalidated(s.entries, user, id)
    ensures Coherent(s) ==> Coherent(s')
  {
    var single := Cache.Swept(s.entries, TaskKey(user, id));
    TaskKeyNoWildcard(user, id);
    Cache.SweptLiteral(s.entries, TaskKey(user, id));
    if Coherent(s) {
      forall u, i
        ensures TaskEntryFresh(s', u, i)
      {
        ListPatternSparesTaskKeys(user, u, i);
        Cache.LookupSwept(single, s.now, ListPattern(user), TaskKey(u, i));
        TaskKeyInjective(user, id, u, i);
        assert TaskEntryFresh(s, u, i);
      }
      forall u, sk: nat, l: nat, st
        ensures ListEntryFresh(s', u, sk, l, st)
      {
        Cache.LookupSwept(single, s.now, ListPattern(user), ListKey(u, sk, l, st));
        if u == user {
          ListPatternCoversOwn(u, sk, l, st);
        } else {
          ListPatternIsolates(user, u, sk, l, st);
          TaskKeyNotListKey(user, id, u, sk, l, st);
          assert ListEntryFresh(s, u, sk, l, st);
          ScanFrame(s.rows, s'.rows, u, st, s.nextId - 1);
        }
      }
    }
  }

  /** Time passing only lets entries expire, so coherence survives it. */
  lemma AdvanceKeepsCoherence(s: State, s': State)
    requires s'.rows == s.rows && s'.nextId == s.nextId && s'.entries == s.entries && s.now <= s'.now
    ensures Coherent(s) ==> Coherent(s')
  {
    if Coherent(s) {
      forall u, i
        ensures TaskEntryFresh(s', u, i)
      {
        assert TaskEntryFresh(s, u, i);
      }
      forall u, sk: nat, l: nat, st
        ensures ListEntryFresh(s', u, sk, l, st)
      {
        assert ListEntryFresh(s, u, sk, l, st);
      }
    }
  }

  /** The keys a write to the user's row `id` deletes: the task key, then the user's listing pattern. */
  function Invalidated(entries: Keyspace, user: int, id: int): Keyspace {
    Cache.Swept(Cache.Swept(entries, TaskKey(user, id)), ListPattern(user))
  }

  /**
   * What a write deletes: `task:{user}:{id}` and every listing key of `user`;
   * every other user's keys, and the user's other task keys, keep their entries.
   */
  lemma WriteInvalidation(entries: Keyspace, user: int, id: int)
    ensures var e := Invalidated(entries, user, id);
      && TaskKey(user, id) !in e
      && (forall s: nat, l: nat, st :: ListKey(user, s, l, st) !in e)
      && (forall u, i :: (u != user || i != id) && TaskKey(u, i) in entries ==>
            TaskKey(u, i) in e && e[TaskKey(u, i)] == entries[TaskKey(u, i)])
      && (forall u, s: nat, l: nat, st :: u != user && ListKey(u, s, l, st) in entries ==>
            ListKey(u, s, l, st) in e && e[ListKey(u, s, l, st)] == entries[ListKey(u, s, l, st)])
  {
    var single := Cache.Swept(entries, TaskKey(user, id));
    TaskKeyNoWildcard(user, id);
    Cache.SweptLiteral(entries, TaskKey(user, id));
    ListPatternSparesTaskKeys(user, user, id);
    forall s: nat, l: nat, st
      ensures ListKey(user, s, l, st) !in Cache.Swept(single, ListPattern(user))
    {
      ListPatternCoversOwn(user, s, l, st);
    }
    forall u, i | (u != user || i != id) && TaskKey(u, i) in entries
      ensures TaskKey(u, i) in Cache.Swept(single, ListPattern(user))
    {
      TaskKeyInjective(user, id, u, i);
      ListPatternSparesTaskKeys(user, u, i);
    }
    forall u, s: nat, l: nat, st | u != user && ListKey(u, s, l, st) in entries
      ensures ListKey(u, s, l, st) in Cache.Swept(single, ListPattern(user))
    {
      TaskKeyNotListKey(user, id, u, s, l, st);
      ListPatternIsolates(user, u, s, l, st);
    }
  }

  /** `get_task`: serve a truthy cached value, else read the row and cache it for 60 seconds. */
  function GetStep(s: State, user: int, id: int): Outcome {
    var hit := Cache.Lookup(s.entries, s.now, TaskKey(user, id));
    if hit.Some? && Cache.Truthy(hit.value) then Outcome(s, Decoded(hit.value))
    else match FindOwned(s.rows, user, id)
      case None => Outcome(s, NotFound)
      case Some(t) =>
        Outcome(s.(entries := s.entries[TaskKey(user, id) := Cache.Entry(Cache.Serialize(Cache.Obj(One(t))), s.now + CacheTtl)]),
                Body(One(t)))
  }

  /** `list_tasks`: serve a truthy cached listing, else run the query and cache it for 60 seconds. */
  function ListStep(s: State, user: int, skip: nat, limit: nat, status: Option<Status>): Outcome {
    var key := ListKey(user, skip, limit, status);
    var hit := Cache.Lookup(s.entries, s.now, key);
    if hit.Some? && Cache.Truthy(hit.value) then Outcome(s, Decoded(hit.value))
    else
      var tasks := Listing(s.rows, s.nextId, user, skip, limit, status);
      Outcome(s.(entries := s.entries[key := Cache.Entry(Cache.Serialize(Cache.Obj(Many(tasks))), s.now + CacheTtl)]),
              Body(Many(tasks)))
  }

  /** `create_task`: insert under the next id and, once committed, drop the user's listings. */
  function CreateStep(s: State, user: int, payload: TaskCreate): Outcome {
    var row := NewRow(payload, user, s.nextId, s.clock);
    if !Storable(row) then Outcome(s, ServerError)
    else
      Outcome(State(s.rows[s.nextId := row], s.nextId + 1, s.clock + 1, Cache.Swept(s.entries, ListPattern(user)), s.now),
              Body(One(row)))
  }

  /** `update_task`: patch the sent fields and, once committed, drop the row's key and the user's listings. */
  function UpdateStep(s: State, user: int, id: int, payload: TaskUpdate): Outcome {
    match FindOwned(s.rows, user, id)
    case None => Outcome(s, NotFound)
    case Some(t) =>
      var patched := Patched(t, payload);
      if !Storable(patched) then Outcome(s, ServerError)
      else
        var row := Flushed(t, patched, s.clock);
        Outcome(s.(rows := s.rows[id := row], clock := s.clock + 1, entries := Invalidated(s.entries, user, id)),
                Body(One(row)))
  }

  /** `delete_task`: remove the row and, once committed, drop its key and the user's listings. */
  function DeleteStep(s: State, user: int, id: int): Outcome {
    if FindOwned(s.rows, user, id).None? then Outcome(s, NotFound)
    else Outcome(s.(rows := s.rows - {id}, entries := Invalidated(s.entries, user, id)), NoContent)
  }

  /** Time passing between requests as the cache's clock sees it. */
  function ElapseStep(s: State, dt: nat): State {
    s.(now := s.now + dt)
  }

  /** Reading a task keeps the invariant, changes no row, and under the invariant answers what the table answers. */
  lemma GetStepCorrect(s: State, user: int, id: int)
    requires Invariant(s)
    ensures GetStep(s, user, id).state.rows == s.rows
    ensures Invariant(GetStep(s, user, id).state)
    ensures GetStep(s, user, id).reply == TaskAnswer(s.rows, user, id)
  {
    var key := TaskKey(user, id);
    var hit := Cache.Lookup(s.entries, s.now, key);
    if hit.Some? {
      CoherentTaskHit(s, user, id);
    } else if FindOwned(s.rows, user, id).Some? {
      var t := FindOwned(s.rows, user, id).value;
      FillTaskKeepsCoherence(s, GetStep(s, user, id).state, user, id, t, s.now + CacheTtl);
    }
  }

  /** Listing keeps the invariant, changes no row, and under the invariant answers what the query answers. */
  lemma ListStepCorrect(s: State, user: int, skip: nat, limit: nat, status: Option<Status>)
    requires Invariant(s)
    ensures ListStep(s, user, skip, limit, status).state.rows == s.rows
    ensures Invariant(ListStep(s, user, skip, limit, status).state)
    ensures ListStep(s, user, skip, limit, status).reply == Body(Many(Listing(s.rows, s.nextId, user, skip, limit, status)))
  {
    var key := ListKey(user, skip, limit, status);
    var hit := Cache.Lookup(s.entries, s.now, key);
    if hit.Some? {
      CoherentListHit(s, user, skip, limit, status);
    } else {
      FillListKeepsCoherence(s, ListStep(s, user, skip, limit, status).state, user, skip, limit, status, s.now + CacheTtl);
    }
  }

  /** Creating keeps the invariant. */
  lemma CreateStepCorrect(s: State, user: int, payload: TaskCreate)
    requires Invariant(s)
    ensures Invariant(CreateStep(s, user, payload).state)
  {
    var row := NewRow(payload, user, s.nextId, s.clock);
    if Storable(row) {
      InsertKeepsWellFormed(s.rows, s.nextId, s.clock, row);
      CreateKeepsCoherence(s, CreateStep(s, user, payload).state, user, row);
    }
  }

  /** A created row carries a fresh id, the caller as owner, and "todo" unless a status was sent; a row too wide for its columns is refused. */
  lemma CreateStepRow(s: State, user: int, payload: TaskCreate)
    requires WellFormed(s.rows, s.nextId, s.clock)
    ensures var o := CreateStep(s, user, payload);
      && (o.reply.Body? || o.reply == ServerError)
      && (o.reply == ServerError <==> |payload.title| > TitleWidth
                                      || |payload.status.GetOr(DefaultStatus)| > StatusWidth)
      && (o.reply == ServerError ==> o.state == s)
      && (o.reply.Body? && payload.status.None? ==> o.reply.doc.One? && o.reply.doc.task.status == Some("todo"))
      && (o.reply.Body? ==>
            && o.reply.doc.One? && o.reply.doc.task.id == s.nextId && s.nextId !in s.rows
            && o.reply.doc.task.ownerId == user
            && o.reply.doc.task.title == Some(payload.title)
            && o.reply.doc.task.status == Some(payload.status.GetOr(DefaultStatus))
            && o.state.rows == s.rows[s.nextId := o.reply.doc.task])
  {
  }

  /**
   * Read-through on `get_task`: a miss on a row the user owns fills the cache, so a
   * second read within the 60 seconds is answered from the cache with the same reply
   * and changes nothing; a NotFound is not cached; rows are never touched.
   */
  lemma GetStepReadThrough(s: State, user: int, id: int, dt: nat)
    requires dt <= CacheTtl
    ensures var o := GetStep(s, user, id);
      && o.state.rows == s.rows && o.state.nextId == s.nextId && o.state.clock == s.clock && o.state.now == s.now
      && (o.reply == NotFound ==> o.state == s && FindOwned(s.rows, user, id).None?)
      && (Cache.Lookup(s.entries, s.now, TaskKey(user, id)).None? && FindOwned(s.rows, user, id).Some? ==>
            && o.reply == Body(One(FindOwned(s.rows, user, id).value))
            && GetStep(ElapseStep(o.state, dt), user, id) == Outcome(ElapseStep(o.state, dt), o.reply))
  {
  }

  /** Read-through on `list_tasks`: after a miss, a second identical query within 60 seconds is a cache hit with the same reply. */
  lemma ListStepReadThrough(s: State, user: int, skip: nat, limit: nat, status: Option<Status>, dt: nat)
    requires dt <= CacheTtl
    ensures var o := ListStep(s, user, skip, limit, status);
      && o.state.rows == s.rows && o.state.nextId == s.nextId && o.state.clock == s.clock && o.state.now == s.now
      && (Cache.Lookup(s.entries, s.now, ListKey(user, skip, limit, status)).None? ==>
            && o.reply == Body(Many(Listing(s.rows, s.nextId, user, skip, limit, status)))
            && ListStep(ElapseStep(o.state, dt), user, skip, limit, status) == Outcome(ElapseStep(o.state, dt), o.reply))
  {
  }

  /**
   * `create_task` deletes every listing key of the caller and nothing else: task keys
   * and other users' listing keys keep their entries.
   */
  lemma CreateInvalidation(entries: Keyspace, user: int)
    ensures var e := Cache.Swept(entries, ListPattern(user));
      && (forall s: nat, l: nat, st :: ListKey(user, s, l, st) !in e)
      && (forall u, i :: TaskKey(u, i) in entries ==> TaskKey(u, i) in e && e[TaskKey(u, i)] == entries[TaskKey(u, i)])
      && (forall u, s: nat, l: nat, st :: u != user && ListKey(u, s, l, st) in entries ==>
            ListKey(u, s, l, st) in e && e[ListKey(u, s, l, st)] == entries[ListKey(u, s, l, st)])
  {
    forall s: nat, l: nat, st
      ensures ListKey(user, s, l, st) !in Cache.Swept(entries, ListPattern(user))
    {
      ListPatternCoversOwn(user, s, l, st);
    }
    forall u, i | TaskKey(u, i) in entries
      ensures TaskKey(u, i) in Cache.Swept(entries, ListPattern(user))
    {
      ListPatternSparesTaskKeys(user, u, i);
    }
    forall u, s: nat, l: nat, st | u != user && ListKey(u, s, l, st) in entries
      ensures ListKey(u, s, l, st) in Cache.Swept(entries, ListPattern(user))
    {
      ListPatternIsolates(user, u, s, l, st);
    }
  }

  /**
   * What `update_task` does to the row: NotFound exactly for a row the caller does not
   * own; a refused patch changes nothing; otherwise each sent field takes the sent value,
   * every other field keeps its value, and `updated_at` moves only when something changed.
   */
  lemma UpdateStepRow(s: State, user: int, id: int, payload: TaskUpdate)
    ensures var o := UpdateStep(s, user, id, payload);
      && (o.reply == NotFound <==> !(id in s.rows && s.rows[id].ownerId == user))
      && (o.reply.NotFound? || o.reply == ServerError ==> o.state == s)
      && (o.reply.Body? ==>
            var was := s.rows[id];
            var now := o.reply.doc.task;
            && id in s.rows && was.ownerId == user && o.reply.doc.One?
            && now.title == payload.title.Or(was.title)
            && now.description == payload.description.Or(was.description)
            && now.status == payload.status.Or(was.status)
            && now.dueDate == payload.dueDate.Or(was.dueDate)
            && now.updatedAt == (if Patched(was, payload) == was then was.updatedAt else s.clock))
  {
  }

  /** What `delete_task` does: NotFound exactly for a row the caller does not own, in which case nothing changes; otherwise exactly row `id` goes. */
  lemma DeleteStepRow(s: State, user: int, id: int)
    ensures var o := DeleteStep(s, user, id);
      && (o.reply == NotFound <==> !(id in s.rows && s.rows[id].ownerId == user))
      && (o.reply == NotFound ==> o.state == s)
      && (o.reply == NoContent ==> id in s.rows && o.state.rows == s.rows - {id} && o.state.nextId == s.nextId)
  {
  }

  /** Updating keeps the invariant; a successful update changes only row `id`, keeping its id, owner and creation time. */
  lemma UpdateStepCorrect(s: State, user: int, id: int, payload: TaskUpdate)
    requires Invariant(s)
    ensures Invariant(UpdateStep(s, user, id, payload).state)
    ensures var o := UpdateStep(s, user, id, payload);
      o.reply.Body? ==>
        && id in s.rows && o.reply.doc.One?
        && o.state.rows == s.rows[id := o.reply.doc.task]
        && o.reply.doc.task.id == id && o.reply.doc.task.ownerId == user
        && o.reply.doc.task.createdAt == s.rows[id].createdAt
  {
    var found := FindOwned(s.rows, user, id);
    if found.Some? && Storable(Patched(found.value, payload)) {
      var t := found.value;
      var row := Flushed(t, Patched(t, payload), s.clock);
      PatchedKeeps(t, payload);
      ReplaceKeepsWellFormed(s.rows, s.nextId, s.clock, row);
      ChangeKeepsCoherence(s, UpdateStep(s, user, id, payload).state, user, id);
    }
  }

  /** Deleting keeps the invariant, and afterwards reading the row answers NotFound for everyone. */
  lemma DeleteStepCorrect(s: State, user: int, id: int, anyone: int)
    requires Invariant(s)
    ensures Invariant(DeleteStep(s, user, id).state)
    ensures DeleteStep(s, user, id).reply == NoContent ==>
              TaskAnswer(DeleteStep(s, user, id).state.rows, anyone, id) == NotFound
  {
    if FindOwned(s.rows, user, id).Some? {
      RemoveKeepsWellFormed(s.rows, s.nextId, s.clock, id);
      ChangeKeepsCoherence(s, DeleteStep(s, user, id).state, user, id);
    }
  }

  /** Time passing keeps the invariant. */
  lemma ElapseStepCorrect(s: State, dt: nat)
    requires Invariant(s)
    ensures Invariant(ElapseStep(s, dt))
  {
    AdvanceKeepsCoherence(s, ElapseStep(s, dt));
  }

  /** The router with its two collaborators: the task table and the injected cache client. */
  class Service {
    var rows: map<int, Task>
    var nextId: int
    var clock: int
    const cache: Cache.Client<Doc>

    /** The state the handlers act on. */
    function Snapshot(): State
      reads this, cache
    {
      State(rows, nextId, clock, cache.entries, cache.now)
    }

    ghost predicate Valid()
      reads this, cache
    {
      Invariant(Snapshot())
    }

    /** An empty table and an empty cache whose clock reads `start`. */
    constructor(start: int)
      ensures Valid() && fresh(cache)
      ensures Snapshot() == State(map[], 1, start, map[], start)
    {
      rows := map[];
      nextId := 1;
      clock := start;
      cache := new Cache.Client(start);
    }

    /** `get_task` for the authenticated `user`. */
    method GetTask(user: int, id: int) returns (reply: Reply)
      modifies cache
      ensures Outcome(Snapshot(), reply) == GetStep(old(Snapshot()), user, id)
      ensures old(Valid()) ==> Valid() && reply == TaskAnswer(rows, user, id)
    {
      ghost var s := Snapshot();
      var key := TaskKey(user, id);
      var cached := cache.Get(key);
      if cached.Some? && Cache.Truthy(cached.value) {
        reply := Decoded(cached.value);
      } else {
        var found := FindOwned(rows, user, id);
        if found.None? {
          reply := NotFound;
        } else {
          cache.Set(key, Cache.Obj(One(found.value)), CacheTtl);
          reply := Body(One(found.value));
        }
      }
      assert Outcome(Snapshot(), reply) == GetStep(s, user, id);
      if Invariant(s) {
        GetStepCorrect(s, user, id);
      }
    }

    /** `list_tasks` for the authenticated `user`, with the query defaults `skip=0`, `limit=20` and no filter; the query bounds `1 <= limit <= 100` are checked before the handler runs. */
    method ListTasks(user: int, skip: nat := 0, limit: nat := 20, status: Option<Status> := None) returns (reply: Reply)
      requires 1 <= limit <= 100
      modifies cache
      ensures Outcome(Snapshot(), reply) == ListStep(old(Snapshot()), user, skip, limit, status)
      ensures old(Valid()) ==> Valid() && reply == Body(Many(Listing(rows, nextId, user, skip, limit, status)))
    {
      ghost var s := Snapshot();
      var key := ListKey(user, skip, limit, status);
      var cached := cache.Get(key);
      if cached.Some? && Cache.Truthy(cached.value) {
        reply := Decoded(cached.value);
      } else {
        var tasks := Listing(rows, nextId, user, skip, limit, status);
        cache.Set(key, Cache.Obj(Many(tasks)), CacheTtl);
        reply := Body(Many(tasks));
        assert Snapshot() == s.(entries := s.entries[key := Cache.Entry(Cache.Serialize(Cache.Obj(Many(tasks))), s.now + CacheTtl)]);
      }
      assert Outcome(Snapshot(), reply) == ListStep(s, user, skip, limit, status);
      if Invariant(s) {
        ListStepCorrect(s, user, skip, limit, status);
      }
    }

    /** `create_task` for the authenticated `user`. */
    method CreateTask(user: int, payload: TaskCreate) returns (reply: Reply)
      modifies this, cache
      ensures Outcome(Snapshot(), reply) == CreateStep(old(Snapshot()), user, payload)
      ensures old(Valid()) ==> Valid()
    {
      ghost var s := Snapshot();
      var row := NewRow(payload, user, nextId, clock);
      if !Storable(row) {
        // the commit fails on a column constraint; nothing is invalidated
        reply := ServerError;
      } else {
        rows, nextId, clock := rows[nextId := row], nextId + 1, clock + 1;
        cache.DeletePattern(ListPattern(user));
        reply := Body(One(row));
      }
      if Invariant(s) {
        CreateStepCorrect(s, user, payload);
      }
    }

    /** `update_task` for the authenticated `user`. */
    method UpdateTask(user: int, id: int, payload: TaskUpdate) returns (reply: Reply)
      modifies this, cache
      ensures Outcome(Snapshot(), reply) == UpdateStep(old(Snapshot()), user, id, payload)
      ensures old(Valid()) ==> Valid()
    {
      ghost var s := Snapshot();
      var found := FindOwned(rows, user, id);
      if found.None? {
        reply := NotFound;
      } else {
        var patched := SetAttrs(found.value, payload);
        if !Storable(patched) {
          // the commit fails on a column constraint; nothing is invalidated
          reply := ServerError;
        } else {
          var row := Flushed(found.value, patched, clock);
          rows, clock := rows[id := row], clock + 1;
          cache.DeletePattern(TaskKey(user, id));
          cache.DeletePattern(ListPattern(user));
          reply := Body(One(row));
        }
      }
      if Invariant(s) {
        UpdateStepCorrect(s, user, id, payload);
      }
    }

    /** `delete_task` for the authenticated `user`. */
    method DeleteTask(user: int, id: int) returns (reply: Reply)
      modifies this, cache
      ensures Outcome(Snapshot(), reply) == DeleteStep(old(Snapshot()), user, id)
      ensures old(Valid()) ==> Valid()
    {
      ghost var s := Snapshot();
      var found := FindOwned(rows, user, id);
      if found.None? {
        reply := NotFound;
      } else {
        rows := rows - {id};
        cache.DeletePattern(TaskKey(user, id));
        cache.DeletePattern(ListPattern(user));
        reply := NoContent;
      }
      if Invariant(s) {
        DeleteStepCorrect(s, user, id, user);
      }
    }

    /** Time passing between requests. */
    method Elapse(dt: nat)
      modifies cache
      ensures Snapshot() == ElapseStep(old(Snapshot()), dt)
      ensures old(Valid()) ==> Valid()
    {
      ghost var s := Snapshot();
      cache.Advance(dt);
      if Invariant(s) {
        ElapseStepCorrect(s, dt);
      }
    }
  }

  /** The first half of the scenario below: create a task on an empty service, read it back, list it. */
  method CreateThenRead(api: Service, user: int) returns (created: Reply, got: Reply, listed: Reply)
    requires api.Valid() && api.rows == map[] && api.nextId == 1
    modifies api, api.cache
    ensures api.Valid()
    ensures created.Body? && created.doc.One? && created.doc.task.id == 1 && created.doc.task.ownerId == user
    ensures created.doc.task.status == Some("todo") && created.doc.task.title == Some("First Task")
    ensures api.rows == map[1 := created.doc.task]
    ensures got == created
    ensures listed.Body? && listed.doc.Many? && |listed.doc.tasks| >= 1
  {
    var payload := TaskCreate("First Task", Some("do it"), None, None);
    ghost var row := NewRow(payload, user, 1, api.clock);
    assert Storable(row);
    created := api.CreateTask(user, payload);
    assert created == Body(One(row)) && api.rows == map[1 := row];
    got := api.GetTask(user, 1);
    listed := api.ListTasks(user, 0, 5, None);
    ListingMeetsQuery(api.rows, api.nextId, api.clock, user, 0, 5, None);
    assert 1 in api.rows && Selects(api.rows[1], user, None);
  }

  /** The second half: mark the user's only task done, delete it, and read it again. */
  method PatchThenDelete(api: Service, user: int, t: Task) returns (updated: Reply, deleted: Reply, gone: Reply)
    requires api.Valid() && api.rows == map[t.id := t] && t.ownerId == user && Storable(t.(status := Some("done")))
    modifies api, api.cache
    ensures updated.Body? && updated.doc.One? && updated.doc.task.status == Some("done")
    ensures deleted == NoContent
    ensures gone == NotFound
  {
    var patch := TaskUpdate(Unset, Unset, Sent(Some("done")), Unset);
    ghost var patched := t.(status := Some("done"));
    assert FindOwned(api.rows, user, t.id) == Some(t) && Patched(t, patch) == patched;
    updated := api.UpdateTask(user, t.id, patch);
    assert FindOwned(api.rows, user, t.id).Some?;
    deleted := api.DeleteTask(user, t.id);
    gone := api.GetTask(user, t.id);
  }

  /**
   * The create / get / list / patch / delete / get sequence of tests/test_api.py,
   * for one authenticated user, proved from the handlers' contracts alone.
   */
  method Scenario(user: int, start: int) returns (created: Reply, got: Reply, listed: Reply, updated: Reply, deleted: Reply, gone: Reply)
    ensures created.Body? && created.doc.One?
    ensures created.doc.task.status == Some("todo") && created.doc.task.title == Some("First Task")
    ensures got == created
    ensures listed.Body? && listed.doc.Many? && |listed.doc.tasks| >= 1
    ensures updated.Body? && updated.doc.One? && updated.doc.task.status == Some("done")
    ensures deleted == NoContent
    ensures gone == NotFound
  {
    var api := new Service(start);
    created, got, listed := CreateThenRead(api, user);
    updated, deleted, gone := PatchThenDelete(api, user, created.doc.task);
  }
}
