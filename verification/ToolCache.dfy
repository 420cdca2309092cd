// ToolResultCache of agent/tool_cache.go: the maps its methods mutate, proved against CacheSpec.
module ToolCache {
  import opened Prelude
  import opened CacheSpec

  class ToolResultCache {
    var entries: map<string, Entry>
    var fullToShort: map<string, string>
    var retiredShort: set<string>
    var ttl: int
    var storeCount: int
    const sha: Sha
    ghost var issued: Issued

    ghost function Contents(): Cache
      reads this
    {
      Cache(entries, fullToShort, retiredShort, ttl, storeCount)
    }

    ghost predicate Valid()
      reads this
    {
      FixedLength(sha) && Inv(Contents(), issued)
    }

    constructor (ttl: int, sha: Sha)
      requires FixedLength(sha)
      ensures Valid() && Contents() == Empty(ttl) && issued == map[] && this.sha == sha
    {
      entries, fullToShort, retiredShort := map[], map[], {};
      this.ttl, storeCount, this.sha := ttl, 0, sha;
      issued := map[];
      new;
      EmptyInv(ttl);
    }

    method AbbreviateLocked(full: string) returns (p: string)
      requires |full| == FULL_HASH_LEN
      ensures p == Abbreviate(Contents(), full, MIN_ABBREV_LEN)
    {
      var n := MIN_ABBREV_LEN;
      while n <= FULL_HASH_LEN
        invariant MIN_ABBREV_LEN <= n <= FULL_HASH_LEN + 1
        invariant Abbreviate(Contents(), full, n) == Abbreviate(Contents(), full, MIN_ABBREV_LEN)
      {
        var prefix := full[..n];
        if prefix !in entries && prefix !in retiredShort {
          return prefix;
        }
        n := n + 1;
      }
      return full;
    }

    // Stores a result and returns its short key; a hash already in the table keeps its key.
    method Store(toolName: string, content: string, m: Meta, now: int) returns (short: string)
      requires Valid()
      modifies this`entries, this`fullToShort, this`retiredShort, this`storeCount, this`issued
      ensures Valid() && Grows(old(issued), issued)
      ensures (Contents(), short) == CacheSpec.Store(old(Contents()), sha, toolName, content, m, now)
      ensures short in issued && issued[short] == FullHash(sha, toolName, content, m)
    {
      hide Inv, FullHash, NewEntry, EvictExpired, Abbreviate, Grows;
      var full := FullHash(sha, toolName, content, m);
      StoreInv(Contents(), issued, sha, toolName, content, m, now);
      FullHashLength(sha, toolName, content, m);
      storeCount := storeCount + 1;
      if full in fullToShort {
        short := fullToShort[full];
        issued := issued[short := full];
        return;
      }
      short := AbbreviateLocked(full);
      AbbreviateSame(old(Contents()), Contents(), full, MIN_ABBREV_LEN);
      var entry := NewEntry(full, toolName, content, m, ttl, now);
      entries := entries[short := entry];
      fullToShort := fullToShort[full := short];
      issued := issued[short := full];
      if storeCount % 100 == 0 {
        EvictExpiredLocked(now);
      }
    }

    // Removes every expired entry and retires its key, in whatever order the map is walked.
    method EvictExpiredLocked(now: int)
      modifies this`entries, this`fullToShort, this`retiredShort
      ensures Contents() == EvictExpired(old(Contents()), now)
    {
      hide EvictExpired, Without;
      var rest := entries.Keys;
      ghost var c := Contents();
      ghost var gone: set<string> := {};
      WithoutNone(c);
      while rest != {}
        invariant rest <= c.entries.Keys && gone <= c.entries.Keys && rest !! gone
        invariant forall k :: k in c.entries && k !in rest && k !in gone ==> !c.entries[k].Expired(now)
        invariant forall k :: k in gone ==> c.entries[k].Expired(now)
        invariant Contents() == Without(c, gone)
        decreases rest
      {
        var k :| k in rest;
        rest := rest - {k};
        WithoutOneMore(c, gone, k);
        if entries[k].Expired(now) {
          fullToShort := fullToShort - {entries[k].hash};
          entries := entries - {k};
          retiredShort := retiredShort + {k};
          gone := gone + {k};
        }
      }
      EvictIsWithout(c, gone, now);
    }

    // The only entry whose full hash starts with the given text, if there is exactly one.
    method UniqueMatch(hash: string) returns (r: Option<string>)
      ensures r.Some? ==> Matches(Contents(), hash) == {r.value}
      ensures r.None? ==> |Matches(Contents(), hash)| != 1
    {
      var matchKey, count := "", 0;
      var rest := entries.Keys;
      ghost var found: set<string> := {};
      while rest != {}
        invariant rest <= entries.Keys && rest !! found
        invariant forall k :: k in found ==> k in entries && HasPrefix(entries[k].hash, hash)
        invariant forall k :: k in entries && k !in rest && HasPrefix(entries[k].hash, hash) ==> k in found
        invariant 0 <= count <= 1 && found == if count == 1 then {matchKey} else {}
        decreases rest
      {
        var k :| k in rest;
        rest := rest - {k};
        if entries[k].hash == hash || HasPrefix(entries[k].hash, hash) {
          WholeIsPrefix(hash);
          if count == 1 {
            TwoMatches(Contents(), hash, matchKey, k);
            return None;
          }
          found := {k};
          matchKey := k;
          count := count + 1;
        }
      }
      assert Matches(Contents(), hash) == found;
      r := if count == 1 then Some(matchKey) else None;
    }

    // Finds the key a hash stands for, in whatever order the map is walked.
    method ResolveLocked(hash: string) returns (r: Option<string>)
      ensures r == Resolve(Contents(), hash)
    {
      if hash == "" {
        return None;
      }
      if hash in entries {
        return Some(hash);
      }
      if hash in retiredShort {
        return None;
      }
      r := UniqueMatch(hash);
    }

    // Returns a live entry; an expired one is dropped and its key retired.
    method Get(hash: string, now: int) returns (r: Option<Entry>)
      requires Valid()
      modifies this`entries, this`fullToShort, this`retiredShort
      ensures Valid() && issued == old(issued)
      ensures (Contents(), r) == CacheSpec.Get(old(Contents()), hash, now)
    {
      hide Inv;
      var key := ResolveLocked(hash);
      if key.None? {
        return None;
      }
      var entry := entries[key.value];
      if !entry.Expired(now) {
        return Some(entry);
      }
      DeleteInv(Contents(), issued, key.value);
      entries := entries - {key.value};
      fullToShort := fullToShort - {entry.hash};
      retiredShort := retiredShort + {key.value};
      return None;
    }

    // How many different results are held: no two entries share a hash.
    method Len() returns (n: nat)
      requires Valid()
      ensures n == |Hashes(Contents())|
    {
      HashPerEntry(Contents());
      n := |entries|;
    }
  }

  lemma {:induction false} AbbreviateSame(c: Cache, d: Cache, full: string, n: nat)
    requires |full| == FULL_HASH_LEN && n <= FULL_HASH_LEN + 1 && c.entries == d.entries && c.retired == d.retired
    ensures Abbreviate(c, full, n) == Abbreviate(d, full, n)
    decreases FULL_HASH_LEN + 1 - n
  {
    if n <= FULL_HASH_LEN {
      AbbreviateSame(c, d, full, n + 1);
    }
  }

  // The table after the given live keys were evicted.
  ghost function Without(c: Cache, gone: set<string>): Cache
    requires gone <= c.entries.Keys
  {
    Cache(map k | k in c.entries && k !in gone :: c.entries[k],
          c.fullToShort - (set k | k in gone :: c.entries[k].hash),
          c.retired + gone, c.ttl, c.storeCount)
  }

  lemma WithoutNone(c: Cache)
    ensures Without(c, {}) == c
  {
    assert (map k | k in c.entries && k !in {} :: c.entries[k]) == c.entries;
  }

  lemma WithoutOneMore(c: Cache, gone: set<string>, k: string)
    requires gone <= c.entries.Keys && k in c.entries && k !in gone
    ensures var w := Without(c, gone);
            && k in w.entries && w.entries[k] == c.entries[k]
            && Without(c, gone + {k}) == w.(entries := w.entries - {k}, fullToShort := w.fullToShort - {c.entries[k].hash},
                                            retired := w.retired + {k})
  {
    assert (set x | x in gone + {k} :: c.entries[x].hash) == (set x | x in gone :: c.entries[x].hash) + {c.entries[k].hash};
  }

  // The full hashes of the live entries.
  ghost function Hashes(c: Cache): set<string> { set k | k in c.entries :: c.entries[k].hash }

  lemma HashPerEntry(c: Cache)
    requires Inverse(c)
    ensures |Hashes(c)| == |c.entries|
  {
    HashesOf(c, c.entries.Keys);
    assert |c.entries.Keys| == |c.entries|;
  }

  lemma {:induction false} HashesOf(c: Cache, keys: set<string>)
    requires Inverse(c) && keys <= c.entries.Keys
    ensures |set k | k in keys :: c.entries[k].hash| == |keys|
    decreases keys
  {
    if keys != {} {
      var x :| x in keys;
      HashesOf(c, keys - {x});
      assert (set k | k in keys :: c.entries[k].hash) == (set k | k in keys - {x} :: c.entries[k].hash) + {c.entries[x].hash};
      assert c.entries[x].hash !in (set k | k in keys - {x} :: c.entries[k].hash);
    }
  }

  lemma TwoMatches(c: Cache, hash: string, j: string, k: string)
    requires j in Matches(c, hash) && k in Matches(c, hash) && j != k
    ensures |Matches(c, hash)| != 1
  {
    SubsetCard({j, k}, Matches(c, hash));
  }

  lemma WholeIsPrefix(s: string)
    ensures HasPrefix(s, s)
  {
    assert s[..|s|] == s;
  }

  lemma EvictIsWithout(c: Cache, gone: set<string>, now: int)
    requires gone <= c.entries.Keys
    requires forall k :: k in c.entries && k !in gone ==> !c.entries[k].Expired(now)
    requires forall k :: k in gone ==> c.entries[k].Expired(now)
    ensures Without(c, gone) == EvictExpired(c, now)
  {
    assert gone == set k | k in c.entries && c.entries[k].Expired(now);
  }
}
