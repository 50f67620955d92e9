/**
 * The cache keys of app/routers/tasks.py: `_task_key`, `_list_key` and the
 * per-owner listing pattern `tasks:{user}:*` that every write deletes.
 */
module TaskKeys {
  import opened Wrappers
  import opened Strings
  import opened Models
  import Cache

  /** `_task_key(user_id, task_id)`: `task:{user}:{task}`. */
  function TaskKey(user: int, task: int): string {
    "task:" + IntToString(user) + ":" + IntToString(task)
  }

  /** The `:{status}` suffix of a filtered listing key; empty without a filter. */
  function StatusSuffix(status: Option<Status>): string {
    match status
    case None => ""
    case Some(s) => ":" + StatusName(s)
  }

  /** `_list_key(user_id, skip, limit, status)`: `tasks:{user}:{skip}:{limit}[:{status}]`. */
  function ListKey(user: int, skip: nat, limit: nat, status: Option<Status>): string {
    "tasks:" + IntToString(user) + ":" + IntToString(skip) + ":" + IntToString(limit) + StatusSuffix(status)
  }

  /** The literal part of the listing pattern: `tasks:{user}:`. */
  function ListStem(user: int): string {
    "tasks:" + IntToString(user) + ":"
  }

  /** The pattern `f"tasks:{user}:*"` passed to `cache_delete_pattern` on every write. */
  function ListPattern(user: int): string {
    ListStem(user) + "*"
  }

  lemma StatusNameInjective(a: Status, b: Status)
    ensures StatusName(a) == StatusName(b) ==> a == b
    ensures ':' !in StatusName(a)
  {
    assert "todo"[0] != "done"[0];
  }

  lemma RenderedNoWildcard(n: int)
    ensures Cache.NoWildcard(IntToString(n))
  {
  }

  /** Distinct (user, task) pairs have distinct task keys. */
  lemma TaskKeyInjective(u: int, t: int, u': int, t': int)
    ensures TaskKey(u, t) == TaskKey(u', t') ==> u == u' && t == t'
  {
    if TaskKey(u, t) == TaskKey(u', t') {
      NoColon(u);
      NoColon(u');
      ColonSplitAfter("task:", IntToString(u), IntToString(t), IntToString(u'), IntToString(t'));
      IntToStringInjective(u, u');
      IntToStringInjective(t, t');
    }
  }

  /** Two status suffixes after colon-free fields: the fields and the statuses agree. */
  lemma StatusSuffixSplit(a: string, s: Status, a': string, s': Status)
    requires ':' !in a && ':' !in a'
    requires a + (":" + StatusName(s)) == a' + (":" + StatusName(s'))
    ensures a == a' && s == s'
  {
    assert a + (":" + StatusName(s)) == a + ":" + StatusName(s);
    assert a' + (":" + StatusName(s')) == a' + ":" + StatusName(s');
    ColonSplit(a, StatusName(s), a', StatusName(s'));
    StatusNameInjective(s, s');
  }

  /** A colon-free field is never the same string as a field followed by a status suffix. */
  lemma StatusSuffixMissing(a: string, s: Status, a': string)
    requires ':' !in a'
    ensures a + StatusSuffix(Some(s)) != a' + StatusSuffix(None)
  {
    assert a' + StatusSuffix(None) == a';
    assert a + StatusSuffix(Some(s)) == a + ":" + StatusName(s);
    ColonInside(a', a, StatusName(s));
  }

  /** A field without a colon followed by a status suffix determines both. */
  lemma SuffixInjective(a: string, st: Option<Status>, a': string, st': Option<Status>)
    requires ':' !in a && ':' !in a'
    ensures a + StatusSuffix(st) == a' + StatusSuffix(st') ==> a == a' && st == st'
  {
    if st.Some? && st'.None? {
      StatusSuffixMissing(a, st.value, a');
    } else if st.None? && st'.Some? {
      StatusSuffixMissing(a', st'.value, a);
    } else if a + StatusSuffix(st) == a' + StatusSuffix(st') {
      if st.Some? {
        StatusSuffixSplit(a, st.value, a', st'.value);
      } else {
        assert a == a + StatusSuffix(st);
        assert a' == a' + StatusSuffix(st');
      }
    }
  }

  /** The last field of a listing key: the limit with the optional status suffix. */
  lemma LimitSuffixInjective(l: nat, st: Option<Status>, l': nat, st': Option<Status>)
    ensures IntToString(l) + StatusSuffix(st) == IntToString(l') + StatusSuffix(st') ==> l == l' && st == st'
  {
    NoColon(l);
    NoColon(l');
    SuffixInjective(IntToString(l), st, IntToString(l'), st');
    IntToStringInjective(l, l');
  }

  /** What follows `tasks:{user}:` in a listing key. */
  function ListTail(skip: nat, limit: nat, status: Option<Status>): string {
    IntToString(skip) + ":" + (IntToString(limit) + StatusSuffix(status))
  }

  lemma ListKeyShape(u: int, s: nat, l: nat, st: Option<Status>)
    ensures ListKey(u, s, l, st) == ListStem(u) + ListTail(s, l, st)
    ensures ListKey(u, s, l, st) == "tasks:" + IntToString(u) + ":" + ListTail(s, l, st)
  {
  }

  lemma ListTailInjective(s: nat, l: nat, st: Option<Status>, s': nat, l': nat, st': Option<Status>)
    ensures ListTail(s, l, st) == ListTail(s', l', st') ==> s == s' && l == l' && st == st'
  {
    if ListTail(s, l, st) == ListTail(s', l', st') {
      NoColon(s);
      NoColon(s');
      ColonSplit(IntToString(s), IntToString(l) + StatusSuffix(st), IntToString(s'), IntToString(l') + StatusSuffix(st'));
      IntToStringInjective(s, s');
      LimitSuffixInjective(l, st, l', st');
    }
  }

  /** Distinct (user, skip, limit, status) tuples have distinct listing keys. */
  lemma ListKeyInjective(u: int, s: nat, l: nat, st: Option<Status>, u': int, s': nat, l': nat, st': Option<Status>)
    ensures ListKey(u, s, l, st) == ListKey(u', s', l', st') ==> u == u' && s == s' && l == l' && st == st'
  {
    if ListKey(u, s, l, st) == ListKey(u', s', l', st') {
      ListKeyShape(u, s, l, st);
      ListKeyShape(u', s', l', st');
      NoColon(u);
      NoColon(u');
      ColonSplitAfter("tasks:", IntToString(u), ListTail(s, l, st), IntToString(u'), ListTail(s', l', st'));
      IntToStringInjective(u, u');
      ListTailInjective(s, l, st, s', l', st');
    }
  }

  /** A task key is never a listing key (`task:` against `tasks:`). */
  lemma TaskKeyNotListKey(u: int, t: int, v: int, s: nat, l: nat, st: Option<Status>)
    ensures TaskKey(u, t) != ListKey(v, s, l, st)
  {
    assert TaskKey(u, t)[4] == ':';
    assert ListKey(v, s, l, st)[4] == 's';
  }

  /** A task key has no glob wildcard, so deleting it as a pattern deletes only itself. */
  lemma TaskKeyNoWildcard(u: int, t: int)
    ensures Cache.NoWildcard(TaskKey(u, t))
  {
    RenderedNoWildcard(u);
    RenderedNoWildcard(t);
  }

  /** The listing pattern of `user` matches exactly the keys that start with `tasks:{user}:`. */
  lemma ListPatternMatches(user: int, key: string)
    ensures Cache.Matches(ListPattern(user), key) <==> ListStem(user) <= key
  {
    RenderedNoWildcard(user);
    Cache.MatchesPrefix(ListStem(user), key);
  }

  /** `tasks:{u}:*` matches every listing key of `u`. */
  lemma ListPatternCoversOwn(u: int, s: nat, l: nat, st: Option<Status>)
    ensures Cache.Matches(ListPattern(u), ListKey(u, s, l, st))
  {
    ListPatternMatches(u, ListKey(u, s, l, st));
    ListKeyShape(u, s, l, st);
  }

  /** `tasks:{u}:*` matches no listing key of another user (so `tasks:1:*` spares `tasks:12:...`). */
  lemma ListPatternIsolates(u: int, v: int, s: nat, l: nat, st: Option<Status>)
    requires u != v
    ensures !Cache.Matches(ListPattern(u), ListKey(v, s, l, st))
  {
    ListPatternMatches(u, ListKey(v, s, l, st));
    ListKeyShape(v, s, l, st);
    NoColon(u);
    NoColon(v);
    IntToStringInjective(u, v);
    if ListStem(u) <= ListKey(v, s, l, st) {
      ColonPrefixAfter("tasks:", IntToString(u), IntToString(v), ListTail(s, l, st));
    }
  }

  /** `tasks:{u}:*` matches no task key of anyone. */
  lemma ListPatternSparesTaskKeys(u: int, v: int, t: int)
    ensures !Cache.Matches(ListPattern(u), TaskKey(v, t))
  {
    ListPatternMatches(u, TaskKey(v, t));
    assert ListStem(u)[4] == 's';
    assert TaskKey(v, t)[4] == ':';
  }
}
