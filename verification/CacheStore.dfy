/**
 * The Redis wrapper: reads and writes with a time to live, deletion by key and
 * by pattern. Every operation may fail, and every failure is swallowed (`up`
 * says whether Redis answers the call).
 */
module CacheStore {
  import opened Common

  datatype Entry<+V> = Entry(value: V, expiresAt: int)

  /** What a reader can still see at time `now`. */
  function Live<V>(store: map<string, Entry<V>>, now: int): map<string, V> {
    map k | k in store && now < store[k].expiresAt :: store[k].value
  }

  /** As time passes entries expire, and nothing else happens. */
  lemma TimeOnlyExpires<V>(store: map<string, Entry<V>>, now: int, later: int)
    requires now <= later
    ensures Live(store, later).Keys <= Live(store, now).Keys
    ensures Live(store, later) == Live(store, now) - (Live(store, now).Keys - Live(store, later).Keys)
  {
  }

  /** Redis glob matching for `*`, `?` and `\`; bracket classes never occur in the patterns built here. */
  predicate Matches(pattern: string, key: string)
    decreases |pattern| + |key|
  {
    if pattern == "" then key == ""
    else if pattern[0] == '*' then Matches(pattern[1..], key) || (key != "" && Matches(pattern, key[1..]))
    else if key == "" then false
    else if pattern[0] == '?' then Matches(pattern[1..], key[1..])
    else if pattern[0] == '\\' && |pattern| >= 2 then pattern[1] == key[0] && Matches(pattern[2..], key[1..])
    else pattern[0] == key[0] && Matches(pattern[1..], key[1..])
  }

  predicate GlobFree(s: string) {
    forall c <- s :: c != '*' && c != '?' && c != '[' && c != ']' && c != '\\'
  }

  lemma {:induction false} StarMatchesAll(key: string)
    ensures Matches("*", key)
    decreases key
  {
    if key != "" {
      StarMatchesAll(key[1..]);
    }
  }

  /** A literal followed by a star is a prefix test. */
  lemma {:induction false} LiteralStarIsPrefix(literal: string, key: string)
    requires GlobFree(literal)
    ensures Matches(literal + "*", key) <==> literal <= key
    decreases literal
  {
    if literal == "" {
      StarMatchesAll(key);
      assert literal + "*" == "*";
    } else {
      assert literal[0] in literal && (literal + "*")[0] == literal[0];
      assert forall c <- literal[1..] :: c in literal;
      if key != "" {
        LiteralStarIsPrefix(literal[1..], key[1..]);
        assert (literal + "*")[1..] == literal[1..] + "*";
        assert literal <= key <==> literal[0] == key[0] && literal[1..] <= key[1..];
      }
    }
  }

  function Without<V>(m: map<string, V>, pattern: string): map<string, V> {
    map k | k in m && !Matches(pattern, k) :: m[k]
  }

  /** A complete SCAN: only matching keys, and every stored matching key at least once, in any batching. */
  ghost predicate ScanAnswer<V>(store: map<string, Entry<V>>, pattern: string, batches: seq<seq<string>>) {
    && (forall b, k :: b in batches && k in b ==> Matches(pattern, k))
    && (forall k :: k in store && Matches(pattern, k) ==> exists b :: b in batches && k in b)
  }

  ghost predicate Scanned(batches: seq<seq<string>>, n: nat, k: string)
    requires n <= |batches|
  {
    exists i :: 0 <= i < n && k in batches[i]
  }

  class CacheService<V> {
    var store: map<string, Entry<V>>

    constructor ()
      ensures store == map[]
    {
      store := map[];
    }

    method Get(key: string, now: int, up: bool) returns (r: Option<V>)
      ensures r == if up && key in Live(store, now) then Some(Live(store, now)[key]) else None
    {
      if !up || key !in store || now >= store[key].expiresAt {
        return None;
      }
      r := Some(store[key].value);
    }

    method Set(key: string, value: V, ttlSeconds: nat, now: int, up: bool)
      modifies this
      ensures store == if up then old(store)[key := Entry(value, now + ttlSeconds)] else old(store)
    {
      if up {
        store := store[key := Entry(value, now + ttlSeconds)];
      }
    }

    method Del(key: string, up: bool)
      modifies this
      ensures store == if up then old(store) - {key} else old(store)
    {
      if up {
        store := store - {key};
      }
    }

    method Scan(pattern: string) returns (batches: seq<seq<string>>)
      ensures ScanAnswer(store, pattern, batches)
    {
      batches := [];
      var todo := set k | k in store && Matches(pattern, k);
      while todo != {}
        invariant forall b, k :: b in batches && k in b ==> Matches(pattern, k)
        invariant forall k :: k in todo ==> Matches(pattern, k)
        invariant forall k :: k in store && Matches(pattern, k) ==> k in todo || exists b :: b in batches && k in b
        decreases todo
      {
        var k :| k in todo;
        ghost var before := batches;
        batches := batches + [[k]];
        todo := todo - {k};
        forall x | x in store && Matches(pattern, x) && x !in todo
          ensures exists b :: b in batches && x in b
        {
          if x == k {
            assert [k] in batches;
          } else {
            var b :| b in before && x in b;
            assert b in batches;
          }
        }
      }
    }

    /** The batch loop. `answered` batches are processed before Redis fails, if it fails at all. */
    method DelPattern(pattern: string, batches: seq<seq<string>>, answered: nat)
      requires ScanAnswer(store, pattern, batches)
      modifies this
      ensures forall k :: k in store ==> k in old(store) && store[k] == old(store)[k]
      ensures forall k :: k in old(store) && !Matches(pattern, k) ==> k in store
      ensures answered >= |batches| ==> store == Without(old(store), pattern)
    {
      var i := 0;
      while i < |batches| && i < answered
        invariant 0 <= i <= |batches|
        invariant forall k :: k in store <==> k in old(store) && !Scanned(batches, i, k)
        invariant forall k :: k in store ==> store[k] == old(store)[k]
      {
        var resultKeys := batches[i];
        if |resultKeys| > 0 {
          store := store - (set k | k in resultKeys);
        }
        i := i + 1;
        forall k
          ensures Scanned(batches, i, k) <==> Scanned(batches, i - 1, k) || k in resultKeys
        {
          if k in resultKeys {
            assert k in batches[i - 1];
          }
        }
      }
      forall k | k in old(store)
        ensures Scanned(batches, i, k) ==> Matches(pattern, k)
        ensures i == |batches| && Matches(pattern, k) ==> Scanned(batches, i, k)
      {
        if i == |batches| && Matches(pattern, k) {
          var b :| b in batches && k in b;
          var j :| 0 <= j < |batches| && batches[j] == b;
          assert k in batches[j];
        }
      }
    }
  }
}
