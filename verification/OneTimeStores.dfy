// The two in-memory one-time stores of the sign-in flows: OAuth state values, good for ten minutes, and
// device codes, good for one. Both drop what has expired whenever something is stored. They differ in
// what a failed lookup leaves behind: an expired state value stays, an expired code goes.
module OneTimeStores {
  import opened Wrappers

  const SECOND := 1_000_000_000
  const STATE_LIFE := 600 * SECOND
  const CODE_LIFE := 60 * SECOND

  datatype Timed<V> = Timed(value: V, expiresAt: int)

  datatype CodeEntry = CodeEntry(email: string, ws: string, state: string, challenge: string)

  predicate Alive<V>(m: map<string, Timed<V>>, key: string, now: int) {
    key in m && now <= m[key].expiresAt
  }

  function Pruned<V>(m: map<string, Timed<V>>, now: int): map<string, Timed<V>> {
    map k | k in m && now <= m[k].expiresAt :: m[k]
  }

  // Pruning takes nothing that is alive, now or at any later time, and leaves what it keeps as it is.
  lemma PrunedAlive<V>(m: map<string, Timed<V>>, now: int, key: string, later: int)
    requires now <= later
    ensures Alive(Pruned(m, now), key, later) <==> Alive(m, key, later)
    ensures Alive(m, key, later) ==> Pruned(m, now)[key] == m[key]
    ensures key in Pruned(m, now) <==> Alive(m, key, now)
  {
  }

  method Prune<V>(m: map<string, Timed<V>>, now: int) returns (kept: map<string, Timed<V>>)
    ensures kept == Pruned(m, now)
  {
    kept := m;
    var keys := m.Keys;
    while keys != {}
      invariant keys <= m.Keys
      invariant forall k :: k in kept <==> k in m && (k in keys || now <= m[k].expiresAt)
      invariant forall k :: k in kept ==> kept[k] == m[k]
      decreases |keys|
    {
      var k :| k in keys;
      if now > m[k].expiresAt {
        kept := kept - {k};
      }
      keys := keys - {k};
    }
  }

  class OAuthStates {
    var entries: map<string, Timed<string>>

    constructor ()
      ensures entries == map[]
    {
      entries := map[];
    }

    method Store(state: string, now: int)
      modifies this
      ensures entries == Pruned(old(entries)[state := Timed(state, now + STATE_LIFE)], now)
    {
      entries := entries[state := Timed(state, now + STATE_LIFE)];
      entries := Prune(entries, now);
    }

    method Consume(state: string, now: int) returns (ok: bool)
      modifies this
      ensures ok <==> Alive(old(entries), state, now)
      ensures entries == if ok then old(entries) - {state} else old(entries)
    {
      if state !in entries || now > entries[state].expiresAt {
        return false;
      }
      entries := entries - {state};
      return true;
    }
  }

  class DeviceCodes {
    var entries: map<string, Timed<CodeEntry>>

    constructor ()
      ensures entries == map[]
    {
      entries := map[];
    }

    method Store(code: string, entry: CodeEntry, now: int)
      modifies this
      ensures entries == Pruned(old(entries)[code := Timed(entry, now + CODE_LIFE)], now)
    {
      entries := entries[code := Timed(entry, now + CODE_LIFE)];
      entries := Prune(entries, now);
    }

    method Consume(code: string, now: int) returns (r: Option<CodeEntry>)
      modifies this
      ensures r == if Alive(old(entries), code, now) then Some(old(entries)[code].value) else None
      ensures entries == old(entries) - {code}
    {
      if code !in entries || now > entries[code].expiresAt {
        entries := entries - {code};
        return None;
      }
      r := Some(entries[code].value);
      entries := entries - {code};
    }
  }
}
