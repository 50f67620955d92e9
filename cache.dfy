/**
 * The key-value cache of app/core/cache.py: a Redis keyspace mapping string keys
 * to string values, each with an absolute expiry time, and the three helpers
 * `cache_get`, `cache_set` and `cache_delete_pattern` over it. The lazily created
 * global connection is replaced by an explicitly constructed `Client` object.
 */
module Cache {
  import opened Wrappers

  /**
   * The text Redis holds under a key. `Verbatim(s)` is a Python `str` stored as it
   * is; `Dumped(d)` is the JSON text `json.dumps` produces for the document `d`,
   * kept symbolically so that decoding it gives `d` back.
   */
  datatype Stored<D> = Verbatim(text: string) | Dumped(doc: D)

  /** A value passed to `cache_set`: a Python `str`, or any other object. */
  datatype Value<D> = Str(s: string) | Obj(doc: D)

  /** A live or expired key: its text and the clock reading after which it is gone. */
  datatype Entry<D> = Entry(stored: Stored<D>, expiresAt: int)

  /** The default `ttl` of `cache_set`, in seconds. */
  const DefaultTtl: int := 60

  /** `cache_set`'s conversion: a `str` is kept, anything else is JSON-encoded. */
  function Serialize<D>(v: Value<D>): Stored<D> {
    match v
    case Str(s) => Verbatim(s)
    case Obj(d) => Dumped(d)
  }

  /** `json.loads` on a dumped document; text written verbatim is not interpreted here. */
  function Loads<D>(t: Stored<D>): Option<D> {
    match t
    case Dumped(d) => Some(d)
    case Verbatim(_) => None
  }

  /** Python truthiness of the text `cache_get` returns: only the empty string is false. */
  predicate Truthy<D>(t: Stored<D>) {
    t != Verbatim("")
  }

  /** What Redis `GET key` answers at clock reading `now`. */
  function Lookup<D>(entries: map<string, Entry<D>>, now: int, key: string): Option<Stored<D>> {
    if key in entries && now <= entries[key].expiresAt then Some(entries[key].stored) else None
  }

  /**
   * Within each kind of value `cache_set` keeps values apart: two documents are
   * JSON-encoded to the same text only if they are equal, and two `str` values are
   * stored as the same text only if they are equal.
   */
  lemma SerializeInjective<D>(a: D, b: D, s: string, s': string)
    ensures Serialize(Obj(a)) == Serialize(Obj(b)) ==> a == b
    ensures Serialize<D>(Str(s)) == Serialize<D>(Str(s')) ==> s == s'
  {
  }

  /** A document written by `cache_set` reads back as itself, and is never falsy. */
  lemma LoadsSerialize<D>(d: D)
    ensures Loads(Serialize(Obj(d))) == Some(d)
    ensures Truthy(Serialize(Obj(d)))
  {
  }

  /**
   * After `SETEX key ttl v` at time `now`, a read of `key` at `later` gives `v`
   * until `now + ttl` and nothing afterwards, and a read of any other key is as before.
   */
  lemma LookupAfterSet<D>(entries: map<string, Entry<D>>, now: int, key: string, v: Stored<D>, ttl: int, later: int, other: string)
    ensures Lookup(entries[key := Entry(v, now + ttl)], later, key)
            == if later <= now + ttl then Some(v) else None
    ensures other != key ==>
              Lookup(entries[key := Entry(v, now + ttl)], later, other) == Lookup(entries, later, other)
  {
  }

  // ---------------------------------------------------------------- glob patterns

  /** Characters that Redis glob patterns give a meaning to. */
  predicate IsGlobSpecial(c: char) {
    c == '*' || c == '?' || c == '[' || c == '\\'
  }

  /** A pattern that is matched only by itself. */
  predicate NoWildcard(s: string) {
    forall i :: 0 <= i < |s| ==> !IsGlobSpecial(s[i])
  }

  /**
   * Redis glob matching of `key` against `pattern`: `*` matches any run of
   * characters, `?` any one character, every other character itself.
   */
  predicate Matches(pattern: string, key: string)
    decreases |pattern| + |key|
  {
    if pattern == [] then key == []
    else if pattern[0] == '*' then Matches(pattern[1..], key) || (key != [] && Matches(pattern, key[1..]))
    else if pattern[0] == '?' then key != [] && Matches(pattern[1..], key[1..])
    else key != [] && pattern[0] == key[0] && Matches(pattern[1..], key[1..])
  }

  /** A pattern without wildcards matches exactly the identical key. */
  lemma {:induction false} MatchesLiteral(pattern: string, key: string)
    requires NoWildcard(pattern)
    ensures Matches(pattern, key) <==> key == pattern
    decreases |pattern|
  {
    if pattern != [] && key != [] {
      assert !IsGlobSpecial(pattern[0]);
      MatchesLiteral(pattern[1..], key[1..]);
      if key[0] == pattern[0] && key[1..] == pattern[1..] {
        assert key == [key[0]] + key[1..];
        assert pattern == [pattern[0]] + pattern[1..];
      }
    }
  }

  /** A lone `*` matches every key. */
  lemma {:induction false} StarMatchesAll(key: string)
    ensures Matches("*", key)
    decreases |key|
  {
    assert "*"[1..] == [];
    if key != [] {
      StarMatchesAll(key[1..]);
    }
  }

  /** `stem*` with a literal stem matches exactly the keys that start with the stem. */
  lemma {:induction false} MatchesPrefix(stem: string, key: string)
    requires NoWildcard(stem)
    ensures Matches(stem + "*", key) <==> stem <= key
    decreases |stem|
  {
    if stem == [] {
      assert stem + "*" == "*";
      StarMatchesAll(key);
    } else {
      assert !IsGlobSpecial(stem[0]);
      var p := stem + "*";
      assert p[0] == stem[0] && p[1..] == stem[1..] + "*";
      if key != [] {
        MatchesPrefix(stem[1..], key[1..]);
        if key[0] == stem[0] && stem[1..] <= key[1..] {
          assert stem == [stem[0]] + stem[1..];
          assert key == [key[0]] + key[1..];
        }
      }
    }
  }

  /** The keyspace after deleting every key that matches `pattern`. */
  function Swept<D>(entries: map<string, Entry<D>>, pattern: string): map<string, Entry<D>> {
    map k | k in entries && !Matches(pattern, k) :: entries[k]
  }

  /** No matching key survives a sweep; every other key keeps its value and expiry. */
  lemma SweptKeeps<D>(entries: map<string, Entry<D>>, pattern: string, key: string)
    ensures key in Swept(entries, pattern) <==> key in entries && !Matches(pattern, key)
    ensures key in Swept(entries, pattern) ==> Swept(entries, pattern)[key] == entries[key]
  {
  }

  /** After a sweep, a read of a matching key misses and a read of any other key is as before. */
  lemma LookupSwept<D>(entries: map<string, Entry<D>>, now: int, pattern: string, key: string)
    ensures Lookup(Swept(entries, pattern), now, key) == if Matches(pattern, key) then None else Lookup(entries, now, key)
  {
  }

  /** Sweeping twice with one pattern is sweeping once. */
  lemma SweptIdempotent<D>(entries: map<string, Entry<D>>, pattern: string)
    ensures Swept(Swept(entries, pattern), pattern) == Swept(entries, pattern)
  {
  }

  /** A pattern without wildcards removes at most the one identical key. */
  lemma SweptLiteral<D>(entries: map<string, Entry<D>>, pattern: string)
    requires NoWildcard(pattern)
    ensures Swept(entries, pattern) == entries - {pattern}
  {
    forall k | k in entries
      ensures Matches(pattern, k) <==> k == pattern
    {
      MatchesLiteral(pattern, k);
    }
  }

  // ---------------------------------------------------------------- the client

  /** The Redis keyspace as the helpers of app/core/cache.py see it, with Redis's clock. */
  class Client<D> {
    var entries: map<string, Entry<D>>
    var now: int

    constructor(start: int)
      ensures entries == map[] && now == start
    {
      entries := map[];
      now := start;
    }

    /** `cache_get`: the live text under `key`, or nothing. */
    method Get(key: string) returns (r: Option<Stored<D>>)
      ensures r == Lookup(entries, now, key)
      ensures r.Some? <==> key in entries && now <= entries[key].expiresAt
    {
      if key in entries && now <= entries[key].expiresAt {
        r := Some(entries[key].stored);
      } else {
        r := None;
      }
    }

    /** `cache_set`: `SETEX key ttl value`, overwriting any entry for `key`. */
    method Set(key: string, value: Value<D>, ttl: int := DefaultTtl)
      requires ttl > 0
      modifies this
      ensures entries == old(entries)[key := Entry(Serialize(value), old(now) + ttl)]
      ensures now == old(now)
    {
      var text := Serialize(value);
      entries := entries[key := Entry(text, now + ttl)];
    }

    /** `cache_delete_pattern`: scan the matching keys, then delete them one at a time. */
    method DeletePattern(pattern: string)
      modifies this
      ensures entries == Swept(old(entries), pattern)
      ensures now == old(now)
    {
      var pending := set k | k in entries && Matches(pattern, k);
      ghost var scanned := pending;
      while pending != {}
        invariant pending <= scanned
        invariant entries == old(entries) - (scanned - pending)
        invariant now == old(now)
        decreases pending
      {
        var k :| k in pending;
        entries := entries - {k};
        pending := pending - {k};
      }
      assert entries == Swept(old(entries), pattern);
    }

    /** The passage of `dt` seconds on Redis's clock. */
    method Advance(dt: nat)
      modifies this
      ensures entries == old(entries) && now == old(now) + dt
    {
      now := now + dt;
    }
  }
}
