// The tool-result cache of agent/tool_cache.go as a value with its transitions.
module CacheSpec {
  import opened Prelude

  const MIN_ABBREV_LEN := 4
  const FULL_HASH_LEN := 64
  const MAX_INPUT_BYTES := 4096

  datatype Meta = Meta(filePath: string, fileMtime: int, fileSize: int, isMCP: bool, input: string, fileBacked: bool)

  datatype Entry = Entry(hash: string, content: string, toolName: string, createdAt: int, input: string,
                         filePath: string, fileMtime: int, fileSize: int, fileBacked: bool, ttl: int, isMCP: bool)
  {
    predicate Expired(now: int) { ttl > 0 && now - createdAt > ttl }
  }

  datatype Cache = Cache(entries: map<string, Entry>, fullToShort: map<string, string>, retired: set<string>,
                         ttl: int, storeCount: int)

  // The hash function; only its fixed output length matters here.
  type Sha = string -> string

  ghost predicate FixedLength(sha: Sha) { forall x :: |sha(x)| == FULL_HASH_LEN }

  const NUL: string := [0 as char]

  // What the hash of a file-backed result says about the file.
  function FileText(path: string, mtime: int, size: int): string { path + NUL + Decimal(mtime) + NUL + Decimal(size) }

  function Described(content: string, m: Meta): string {
    if m.fileBacked then FileText(m.filePath, m.fileMtime, m.fileSize) else content
  }

  function Preimage(toolName: string, described: string): string { toolName + NUL + described }

  function FullHash(sha: Sha, toolName: string, content: string, m: Meta): string {
    sha(Preimage(toolName, Described(content, m)))
  }

  function NewEntry(full: string, toolName: string, content: string, m: Meta, ttl: int, now: int): Entry {
    Entry(full, if m.fileBacked then "" else content, toolName, now,
          if |m.input| > MAX_INPUT_BYTES then "" else m.input,
          m.filePath, m.fileMtime, m.fileSize, m.fileBacked,
          if m.isMCP && ttl > 0 then ttl else 0, m.isMCP)
  }

  predicate Used(c: Cache, key: string) { key in c.entries || key in c.retired }

  // The shortest unused prefix of length n or more; the full hash when none is unused.
  function Abbreviate(c: Cache, full: string, n: nat): (p: string)
    requires |full| == FULL_HASH_LEN && n <= FULL_HASH_LEN + 1
    ensures |p| <= FULL_HASH_LEN && p == full[..|p|]
    ensures n <= |p| || p == full
    ensures forall k :: n <= k < |p| ==> Used(c, full[..k])
    ensures Used(c, p) ==> p == full
    decreases FULL_HASH_LEN + 1 - n
  {
    if n > FULL_HASH_LEN then full
    else if !Used(c, full[..n]) then full[..n]
    else Abbreviate(c, full, n + 1)
  }

  function EvictExpired(c: Cache, now: int): Cache {
    var dead := set k | k in c.entries && c.entries[k].Expired(now);
    Cache(map k | k in c.entries && k !in dead :: c.entries[k],
          c.fullToShort - (set k | k in dead :: c.entries[k].hash),
          c.retired + dead, c.ttl, c.storeCount)
  }

  function Store(c: Cache, sha: Sha, toolName: string, content: string, m: Meta, now: int): (Cache, string)
    requires FixedLength(sha)
  {
    var full := FullHash(sha, toolName, content, m);
    var counted := c.(storeCount := c.storeCount + 1);
    if full in c.fullToShort then (counted, c.fullToShort[full])
    else
      var short := Abbreviate(c, full, MIN_ABBREV_LEN);
      var added := counted.(entries := c.entries[short := NewEntry(full, toolName, content, m, c.ttl, now)],
                            fullToShort := c.fullToShort[full := short]);
      (if added.storeCount % 100 == 0 then EvictExpired(added, now) else added, short)
  }

  predicate HasPrefix(s: string, p: string) { |p| <= |s| && s[..|p|] == p }

  function Matches(c: Cache, hash: string): set<string> {
    set k | k in c.entries && HasPrefix(c.entries[k].hash, hash)
  }

  // The key a user-supplied hash stands for: an issued key, or the one entry whose full hash it
  // begins; a retired key stands for nothing.
  ghost function Resolve(c: Cache, hash: string): (r: Option<string>)
    ensures r.Some? ==> r.value in c.entries
  {
    if hash == "" then None
    else if hash in c.entries then Some(hash)
    else if hash in c.retired then None
    else if |Matches(c, hash)| == 1 then
      var k :| k in Matches(c, hash); Some(k)
    else None
  }

  function Delete(c: Cache, key: string): Cache
    requires key in c.entries
  {
    c.(entries := c.entries - {key}, fullToShort := c.fullToShort - {c.entries[key].hash}, retired := c.retired + {key})
  }

  ghost function Get(c: Cache, hash: string, now: int): (Cache, Option<Entry>) {
    match Resolve(c, hash)
    case None => (c, None)
    case Some(k) => if c.entries[k].Expired(now) then (Delete(c, k), None) else (c, Some(c.entries[k]))
  }

  // ---------------------------------------------------------------------
  // Invariant
  // ---------------------------------------------------------------------

  // issued maps every key ever handed out to the full hash it was handed out for.
  type Issued = map<string, string>

  ghost predicate KeyShape(k: string, full: string) {
    |full| == FULL_HASH_LEN && MIN_ABBREV_LEN <= |k| <= FULL_HASH_LEN && k == full[..|k|]
  }

  // Live entries sit under a key issued for their hash, and the reverse index inverts the table.
  ghost predicate Inverse(c: Cache) {
    && (forall k :: k in c.entries ==> c.entries[k].hash in c.fullToShort && c.fullToShort[c.entries[k].hash] == k)
    && (forall f :: f in c.fullToShort ==> c.fullToShort[f] in c.entries && c.entries[c.fullToShort[f]].hash == f)
  }

  ghost predicate IssuedOk(c: Cache, issued: Issued) {
    && issued.Keys == c.entries.Keys + c.retired
    && (forall k :: k in issued ==> KeyShape(k, issued[k]))
    && (forall k :: k in c.entries ==> issued[k] == c.entries[k].hash)
  }

  // A key can be both retired and live only at full length.
  ghost predicate RetiredOk(c: Cache) {
    forall k :: k in c.retired && k in c.entries ==> |k| == FULL_HASH_LEN
  }

  // Keys grow one character at a time: every shorter prefix of an issued key was used before.
  ghost predicate PrefixesUsed(c: Cache) {
    forall k, n :: Used(c, k) && MIN_ABBREV_LEN <= n < |k| ==> Used(c, k[..n])
  }

  // A hash once keyed by itself is never keyed by a proper prefix again.
  ghost predicate FullKeysStick(c: Cache) {
    forall f :: f in c.fullToShort && Used(c, f) ==> c.fullToShort[f] == f
  }

  ghost predicate Inv(c: Cache, issued: Issued) {
    && Inverse(c) && IssuedOk(c, issued) && RetiredOk(c) && PrefixesUsed(c) && FullKeysStick(c)
    && forall k :: k in c.entries ==> c.entries[k].ttl >= 0
  }

  ghost predicate Grows(a: Issued, b: Issued) {
    forall k :: k in a ==> k in b && b[k] == a[k]
  }

  function Empty(ttl: int): Cache { Cache(map[], map[], {}, ttl, 0) }

  lemma EmptyInv(ttl: int)
    ensures Inv(Empty(ttl), map[])
  {
  }

  lemma DeleteInv(c: Cache, issued: Issued, key: string)
    requires Inv(c, issued) && key in c.entries
    ensures Inv(Delete(c, key), issued)
  {
    hide PrefixesUsed, FullKeysStick, RetiredOk;
    var d := Delete(c, key);
    assert forall k :: Used(d, k) <==> Used(c, k);
    assert RetiredOk(d) by { RetiredDelete(c, key); }
    DeleteSticks(c, key);
  }

  lemma RetiredDelete(c: Cache, key: string)
    requires RetiredOk(c) && key in c.entries
    ensures RetiredOk(Delete(c, key))
  {
  }

  lemma DeleteSticks(c: Cache, key: string)
    requires PrefixesUsed(c) && FullKeysStick(c) && key in c.entries
    ensures PrefixesUsed(Delete(c, key)) && FullKeysStick(Delete(c, key))
  {
    var d := Delete(c, key);
    assert forall k :: Used(d, k) <==> Used(c, k);
  }

  // ---------------------------------------------------------------------
  // Store and eviction keep the invariant and only extend what was issued
  // ---------------------------------------------------------------------

  // The key chosen for an unknown hash is not live, and if it was issued before then for this hash.
  lemma FreshKey(c: Cache, issued: Issued, full: string)
    requires Inverse(c) && IssuedOk(c, issued) && full !in c.fullToShort && |full| == FULL_HASH_LEN
    ensures var p := Abbreviate(c, full, MIN_ABBREV_LEN);
            KeyShape(p, full) && p !in c.entries && (p in issued ==> issued[p] == full)
  {
    var p := Abbreviate(c, full, MIN_ABBREV_LEN);
    if Used(c, p) {
      FullLengthKey(p, issued[p]);
      assert issued[p] == full;
    }
  }

  lemma FullLengthKey(key: string, full: string)
    requires KeyShape(key, full) && |key| == FULL_HASH_LEN
    ensures key == full
  {
    assert full[..|full|] == full;
  }

  lemma AddInverse(c: Cache, full: string, p: string, e: Entry)
    requires Inverse(c) && full !in c.fullToShort && e.hash == full && p !in c.entries
    ensures Inverse(c.(entries := c.entries[p := e], fullToShort := c.fullToShort[full := p]))
  {
  }

  lemma AddIssued(c: Cache, issued: Issued, full: string, p: string, e: Entry)
    requires IssuedOk(c, issued) && e.hash == full
    requires KeyShape(p, full) && p !in c.entries && (p in issued ==> issued[p] == full)
    ensures IssuedOk(c.(entries := c.entries[p := e], fullToShort := c.fullToShort[full := p]), issued[p := full])
    ensures Grows(issued, issued[p := full])
  {
    var d := c.(entries := c.entries[p := e], fullToShort := c.fullToShort[full := p]);
    assert d.entries.Keys + d.retired == c.entries.Keys + c.retired + {p};
  }

  lemma AddKeys(c: Cache, issued: Issued, full: string, e: Entry)
    requires IssuedOk(c, issued) && RetiredOk(c) && PrefixesUsed(c) && FullKeysStick(c)
    requires full !in c.fullToShort && |full| == FULL_HASH_LEN
    requires forall f :: f in c.fullToShort ==> |f| == FULL_HASH_LEN
    ensures var p := Abbreviate(c, full, MIN_ABBREV_LEN);
            var d := c.(entries := c.entries[p := e], fullToShort := c.fullToShort[full := p]);
            RetiredOk(d) && PrefixesUsed(d) && FullKeysStick(d)
  {
    var p := Abbreviate(c, full, MIN_ABBREV_LEN);
    var d := c.(entries := c.entries[p := e], fullToShort := c.fullToShort[full := p]);
    AddUsed(c, full, e);
    AddSticks(c, full, e);
    AddPrefixes(c, d, full, p);
  }

  lemma AddPrefixes(c: Cache, d: Cache, full: string, p: string)
    requires PrefixesUsed(c) && |p| <= |full| && p == full[..|p|]
    requires forall k :: Used(d, k) <==> Used(c, k) || k == p
    requires forall n :: MIN_ABBREV_LEN <= n < |p| ==> Used(c, full[..n])
    ensures PrefixesUsed(d)
  {
    hide Used;
    forall k, n | Used(d, k) && MIN_ABBREV_LEN <= n < |k| ensures Used(d, k[..n]) {
      if k == p {
        assert p[..n] == full[..n];
      }
    }
  }

  lemma AddUsed(c: Cache, full: string, e: Entry)
    requires |full| == FULL_HASH_LEN
    ensures var p := Abbreviate(c, full, MIN_ABBREV_LEN);
            var d := c.(entries := c.entries[p := e], fullToShort := c.fullToShort[full := p]);
            && (forall k :: Used(d, k) <==> Used(c, k) || k == p)
            && p == full[..|p|] && MIN_ABBREV_LEN <= |p| && (forall n :: MIN_ABBREV_LEN <= n < |p| ==> Used(c, full[..n]))
            && (Used(c, p) ==> |p| == FULL_HASH_LEN) && (|p| == FULL_HASH_LEN ==> p == full)
  {
    assert full[..|full|] == full;
  }

  // If the hash itself was a key before, all its prefixes were, so it becomes the key again.
  lemma AddSticks(c: Cache, full: string, e: Entry)
    requires PrefixesUsed(c) && FullKeysStick(c) && full !in c.fullToShort && |full| == FULL_HASH_LEN
    requires forall f :: f in c.fullToShort ==> |f| == FULL_HASH_LEN
    ensures var p := Abbreviate(c, full, MIN_ABBREV_LEN);
            FullKeysStick(c.(entries := c.entries[p := e], fullToShort := c.fullToShort[full := p]))
  {
    var p := Abbreviate(c, full, MIN_ABBREV_LEN);
    var d := c.(entries := c.entries[p := e], fullToShort := c.fullToShort[full := p]);
    AddUsed(c, full, e);
    hide Abbreviate;
    if Used(c, full) {
      AllPrefixesUsed(c, full, p);
    }
    forall f | f in d.fullToShort && Used(d, f) ensures d.fullToShort[f] == f {
      assert f != full ==> f in c.fullToShort && f != p;
    }
  }

  lemma AllPrefixesUsed(c: Cache, full: string, p: string)
    requires PrefixesUsed(c) && Used(c, full) && |full| == FULL_HASH_LEN
    requires MIN_ABBREV_LEN <= |p| <= FULL_HASH_LEN && p == full[..|p|] && (Used(c, p) ==> |p| == FULL_HASH_LEN)
    ensures p == full
  {
    assert full[..|full|] == full;
    assert |p| < |full| ==> Used(c, full[..|p|]);
  }

  lemma EvictInv(c: Cache, issued: Issued, now: int)
    requires Inv(c, issued)
    ensures Inv(EvictExpired(c, now), issued)
  {
    EvictTables(c, issued, now);
    EvictKeys(c, now);
  }

  lemma EvictTables(c: Cache, issued: Issued, now: int)
    requires Inverse(c) && IssuedOk(c, issued)
    ensures Inverse(EvictExpired(c, now)) && IssuedOk(EvictExpired(c, now), issued)
  {
    var d := EvictExpired(c, now);
    assert d.entries.Keys + d.retired == c.entries.Keys + c.retired;
    var dead := set k | k in c.entries && c.entries[k].Expired(now);
    var gone := set k | k in dead :: c.entries[k].hash;
    forall f ensures f in d.fullToShort <==> f in c.fullToShort && c.fullToShort[f] !in dead {
      if f in c.fullToShort && c.fullToShort[f] in dead {
        assert c.entries[c.fullToShort[f]].hash in gone;
      }
      if f in gone {
        var k :| k in dead && c.entries[k].hash == f;
      }
    }
  }

  lemma EvictKeys(c: Cache, now: int)
    requires RetiredOk(c) && PrefixesUsed(c) && FullKeysStick(c)
    ensures var d := EvictExpired(c, now); RetiredOk(d) && PrefixesUsed(d) && FullKeysStick(d)
  {
    var d := EvictExpired(c, now);
    assert forall k :: Used(d, k) <==> Used(c, k);
  }

  lemma StoreDup(c: Cache, issued: Issued, full: string)
    requires Inv(c, issued) && full in c.fullToShort
    ensures Inv(c.(storeCount := c.storeCount + 1), issued)
    ensures c.fullToShort[full] in issued && issued[c.fullToShort[full]] == full
  {
    Recount(c, issued, c.storeCount + 1);
  }

  // The table with a new entry under its abbreviated key.
  function Added(c: Cache, full: string, e: Entry): Cache
    requires |full| == FULL_HASH_LEN
  {
    var p := Abbreviate(c, full, MIN_ABBREV_LEN);
    c.(entries := c.entries[p := e], fullToShort := c.fullToShort[full := p], storeCount := c.storeCount + 1)
  }

  lemma StoreNew(c: Cache, issued: Issued, full: string, e: Entry)
    requires Inv(c, issued) && full !in c.fullToShort && |full| == FULL_HASH_LEN && e.hash == full && e.ttl >= 0
    ensures var p := Abbreviate(c, full, MIN_ABBREV_LEN);
            Inv(Added(c, full, e), issued[p := full]) && Grows(issued, issued[p := full])
  {
    hide Inverse, IssuedOk, RetiredOk, PrefixesUsed, FullKeysStick;
    var p := Abbreviate(c, full, MIN_ABBREV_LEN);
    FreshKey(c, issued, full);
    AddInverse(c, full, p, e);
    AddIssued(c, issued, full, p, e);
    IndexLengths(c, issued);
    AddKeys(c, issued, full, e);
    Recount(c.(entries := c.entries[p := e], fullToShort := c.fullToShort[full := p]), issued[p := full], c.storeCount + 1);
  }

  // Every Store keeps the invariant and hands out a key for exactly the stored hash.
  lemma StoreInv(c: Cache, issued: Issued, sha: Sha, toolName: string, content: string, m: Meta, now: int)
    requires Inv(c, issued) && FixedLength(sha)
    ensures var (d, short) := Store(c, sha, toolName, content, m, now);
            var full := FullHash(sha, toolName, content, m);
            && Inv(d, issued[short := full]) && Grows(issued, issued[short := full])
            && full in d.fullToShort && d.fullToShort[full] == short
  {
    hide Inv;
    var full := FullHash(sha, toolName, content, m);
    if full in c.fullToShort {
      StoreDup(c, issued, full);
      assert issued[c.fullToShort[full] := full] == issued;
    } else {
      var e := NewEntry(full, toolName, content, m, c.ttl, now);
      StoreNew(c, issued, full, e);
      var i := issued[Abbreviate(c, full, MIN_ABBREV_LEN) := full];
      var added := Added(c, full, e);
      if added.storeCount % 100 == 0 {
        EvictInv(added, i, now);
        EvictKeepsFresh(added, i, full, now);
      }
    }
  }

  lemma IndexLengths(c: Cache, issued: Issued)
    requires Inverse(c) && IssuedOk(c, issued)
    ensures forall f :: f in c.fullToShort ==> |f| == FULL_HASH_LEN
  {
    forall f | f in c.fullToShort ensures |f| == FULL_HASH_LEN {
      assert KeyShape(c.fullToShort[f], issued[c.fullToShort[f]]);
    }
  }

  lemma Recount(c: Cache, issued: Issued, n: int)
    requires Inv(c, issued)
    ensures Inv(c.(storeCount := n), issued)
  {
    var d := c.(storeCount := n);
    assert forall k :: Used(d, k) <==> Used(c, k);
  }

  // A store never touches another entry, except that each hundredth one, when it adds an entry, drops and retires
  // exactly the expired ones.
  lemma StoreEffect(c: Cache, issued: Issued, sha: Sha, toolName: string, content: string, m: Meta, now: int)
    requires Inv(c, issued) && FixedLength(sha)
    ensures var (d, short) := Store(c, sha, toolName, content, m, now);
            var known := FullHash(sha, toolName, content, m) in c.fullToShort;
            && d.storeCount == c.storeCount + 1
            && (known ==> d.entries == c.entries && d.retired == c.retired)
            && (!known ==> short !in c.entries)
            && (!known && d.storeCount % 100 != 0 ==> d.entries.Keys == c.entries.Keys + {short} && d.retired == c.retired)
            && (!known && d.storeCount % 100 == 0 ==> forall k :: k in d.entries ==> !d.entries[k].Expired(now))
            && (forall k :: k in c.entries ==>
                  if k in d.entries then d.entries[k] == c.entries[k] else k in d.retired && c.entries[k].Expired(now))
  {
    hide PrefixesUsed, FullKeysStick, RetiredOk, NewEntry, Abbreviate;
    var full := FullHash(sha, toolName, content, m);
    assert |full| == FULL_HASH_LEN;
    if full !in c.fullToShort {
      FreshKey(c, issued, full);
    }
  }

  // An entry that has not expired survives the sweep.
  lemma EvictKeepsFresh(c: Cache, issued: Issued, full: string, now: int)
    requires Inv(c, issued) && full in c.fullToShort && !c.entries[c.fullToShort[full]].Expired(now)
    ensures var d := EvictExpired(c, now); full in d.fullToShort && d.fullToShort[full] == c.fullToShort[full]
  {
    hide RetiredOk, PrefixesUsed, FullKeysStick, IssuedOk;
    var dead := set k | k in c.entries && c.entries[k].Expired(now);
    assert forall k :: k in dead ==> c.entries[k].hash != full;
  }

  lemma GetInv(c: Cache, issued: Issued, hash: string, now: int)
    requires Inv(c, issued)
    ensures Inv(Get(c, hash, now).0, issued)
  {
    hide Inverse, IssuedOk, RetiredOk, PrefixesUsed, FullKeysStick;
    var r := Resolve(c, hash);
    if r.Some? {
      DeleteInv(c, issued, r.value);
    }
  }

  // ---------------------------------------------------------------------
  // Every sequence of operations
  // ---------------------------------------------------------------------

  datatype Op =
    | OpStore(toolName: string, content: string, m: Meta, at: int)
    | OpGet(hash: string, at: int)
    | OpEvict(at: int)

  ghost function Apply(c: Cache, sha: Sha, op: Op): Cache
    requires FixedLength(sha)
  {
    match op
    case OpStore(t, content, m, at) => Store(c, sha, t, content, m, at).0
    case OpGet(hash, at) => Get(c, hash, at).0
    case OpEvict(at) => EvictExpired(c, at)
  }

  // The keys known after an operation.
  ghost function Note(c: Cache, issued: Issued, sha: Sha, op: Op): Issued
    requires FixedLength(sha)
  {
    match op
    case OpStore(t, content, m, at) => issued[Store(c, sha, t, content, m, at).1 := FullHash(sha, t, content, m)]
    case _ => issued
  }

  ghost function ApplyAll(c: Cache, sha: Sha, ops: seq<Op>): Cache
    requires FixedLength(sha)
    decreases ops
  {
    if ops == [] then c else ApplyAll(Apply(c, sha, ops[0]), sha, ops[1..])
  }

  ghost function NoteAll(c: Cache, issued: Issued, sha: Sha, ops: seq<Op>): Issued
    requires FixedLength(sha)
    decreases ops
  {
    if ops == [] then issued else NoteAll(Apply(c, sha, ops[0]), Note(c, issued, sha, ops[0]), sha, ops[1..])
  }

  lemma ApplyInv(c: Cache, issued: Issued, sha: Sha, op: Op)
    requires Inv(c, issued) && FixedLength(sha)
    ensures Inv(Apply(c, sha, op), Note(c, issued, sha, op)) && Grows(issued, Note(c, issued, sha, op))
  {
    hide Inv, FullHash, Abbreviate, NewEntry, EvictExpired;
    match op {
      case OpStore(t, content, m, at) => StoreInv(c, issued, sha, t, content, m, at);
      case OpGet(hash, at) => GetInv(c, issued, hash, at);
      case OpEvict(at) => EvictInv(c, issued, at);
    }
  }

  // Along every run the invariant holds and what was issued stays issued for the same hash.
  lemma {:induction false} RunInv(c: Cache, issued: Issued, sha: Sha, ops: seq<Op>)
    requires Inv(c, issued) && FixedLength(sha)
    ensures Inv(ApplyAll(c, sha, ops), NoteAll(c, issued, sha, ops))
    ensures Grows(issued, NoteAll(c, issued, sha, ops))
    decreases ops
  {
    if ops != [] {
      hide Inv, Apply, Note;
      ApplyInv(c, issued, sha, ops[0]);
      RunInv(Apply(c, sha, ops[0]), Note(c, issued, sha, ops[0]), sha, ops[1..]);
    }
  }

  // An issued key stands for an entry with the hash it was issued for, or for nothing.
  lemma IssuedResolves(c: Cache, issued: Issued, key: string)
    requires Inv(c, issued) && key in issued
    ensures Resolve(c, key).Some? ==> c.entries[Resolve(c, key).value].hash == issued[key]
  {
    assert KeyShape(key, issued[key]);
  }

  // A short key returned by Store is never resolved to another content, whatever happens
  // before and after.
  lemma NeverAliased(ttl: int, sha: Sha, before: seq<Op>, toolName: string, content: string, m: Meta, at: int,
      after: seq<Op>)
    requires FixedLength(sha)
    ensures var c := ApplyAll(Empty(ttl), sha, before);
            var (d, short) := Store(c, sha, toolName, content, m, at);
            var e := ApplyAll(d, sha, after);
            Resolve(e, short).Some? ==> e.entries[Resolve(e, short).value].hash == FullHash(sha, toolName, content, m)
  {
    hide Inv, Resolve;
    EmptyInv(ttl);
    RunInv(Empty(ttl), map[], sha, before);
    var c := ApplyAll(Empty(ttl), sha, before);
    var issued := NoteAll(Empty(ttl), map[], sha, before);
    StoreInv(c, issued, sha, toolName, content, m, at);
    var (d, short) := Store(c, sha, toolName, content, m, at);
    var known := issued[short := FullHash(sha, toolName, content, m)];
    RunInv(d, known, sha, after);
    assert short in known;
    IssuedResolves(ApplyAll(d, sha, after), NoteAll(d, known, sha, after), short);
  }

  lemma PrefixOfFull(a: string, b: string)
    requires |a| == |b| && HasPrefix(a, b)
    ensures a == b
  {
    assert a[..|b|] == a;
  }

  // A live entry is found under its short key and under its full hash.
  lemma LiveIsFound(c: Cache, issued: Issued, key: string, now: int)
    requires Inv(c, issued) && key in c.entries && !c.entries[key].Expired(now)
    ensures Get(c, key, now) == (c, Some(c.entries[key]))
    ensures Get(c, c.entries[key].hash, now) == (c, Some(c.entries[key]))
  {
    var full := c.entries[key].hash;
    assert KeyShape(key, issued[key]);
    if full in c.entries {
      assert KeyShape(full, issued[full]);
    } else {
      assert full !in c.retired;
      forall k ensures k in Matches(c, full) <==> k == key {
        if k in Matches(c, full) {
          assert KeyShape(k, issued[k]);
          PrefixOfFull(c.entries[k].hash, full);
        }
        assert full[..|full|] == full;
      }
      assert Matches(c, full) == {key};
    }
  }

  // A text that is no key finds the one live entry whose full hash begins with it, if there is one and only one, and
  // the text is not empty and no retired key.
  lemma ResolveMeans(c: Cache, text: string, key: string)
    requires text !in c.entries
    ensures Resolve(c, text) == Some(key) <==>
              && text != "" && text !in c.retired && key in c.entries && text <= c.entries[key].hash
              && forall k :: k in c.entries && text <= c.entries[k].hash ==> k == key
  {
    assert forall k :: k in c.entries ==> (k in Matches(c, text) <==> text <= c.entries[k].hash);
    if key in c.entries && text <= c.entries[key].hash && forall k :: k in c.entries && text <= c.entries[k].hash ==> k == key {
      assert Matches(c, text) == {key};
    }
    if Resolve(c, text) == Some(key) {
      forall k | k in c.entries && text <= c.entries[k].hash ensures k == key {
        if k != key {
          SubsetCard({k, key}, Matches(c, text));
        }
      }
    }
  }

  // A key was in use before it is handed out for a new entry exactly when all prefixes of the
  // hash, the hash itself included, were in use.
  lemma ReissuedIff(c: Cache, issued: Issued, full: string)
    requires Inv(c, issued) && |full| == FULL_HASH_LEN
    ensures Used(c, Abbreviate(c, full, MIN_ABBREV_LEN))
       <==> forall n :: MIN_ABBREV_LEN <= n <= FULL_HASH_LEN ==> Used(c, full[..n])
  {
    var p := Abbreviate(c, full, MIN_ABBREV_LEN);
    assert full[..FULL_HASH_LEN] == full;
  }

  // ---------------------------------------------------------------------
  // The comment at abbreviateLocked is not an invariant
  // ---------------------------------------------------------------------

  function PrefixAt(full: string, k: nat): string
    requires MIN_ABBREV_LEN + k <= |full|
  {
    full[..MIN_ABBREV_LEN + k]
  }

  // The table after n rounds in which one expiring entry was stored and then evicted.
  function Worn(full: string, n: nat, ttl: int): Cache
    requires |full| == FULL_HASH_LEN && n <= FULL_HASH_LEN - MIN_ABBREV_LEN + 1
  {
    Cache(map[], map[], set k | 0 <= k < n :: PrefixAt(full, k), ttl, n)
  }

  lemma {:induction false} WornAbbreviates(full: string, n: nat, ttl: int, m: nat)
    requires |full| == FULL_HASH_LEN && n <= FULL_HASH_LEN - MIN_ABBREV_LEN + 1 && m <= n
    ensures Abbreviate(Worn(full, n, ttl), full, MIN_ABBREV_LEN + m)
         == if n <= FULL_HASH_LEN - MIN_ABBREV_LEN then PrefixAt(full, n) else full
    decreases n - m
  {
    if m < n {
      assert PrefixAt(full, m) in Worn(full, n, ttl).retired;
      WornAbbreviates(full, n, ttl, m + 1);
    } else if n <= FULL_HASH_LEN - MIN_ABBREV_LEN {
      assert forall k :: 0 <= k < n ==> |PrefixAt(full, k)| != |PrefixAt(full, n)|;
    }
  }

  // One round: store an expiring result, let it expire, look it up.
  lemma WearOnce(sha: Sha, toolName: string, content: string, m: Meta, n: nat, ttl: int, now: int)
    requires FixedLength(sha) && m.isMCP && ttl > 0 && n <= FULL_HASH_LEN - MIN_ABBREV_LEN
    ensures var full := FullHash(sha, toolName, content, m);
            var (d, short) := Store(Worn(full, n, ttl), sha, toolName, content, m, now);
            && short == PrefixAt(full, n)
            && Get(d, short, now + ttl + 1) == (Worn(full, n + 1, ttl), None)
  {
    hide FullHash, Abbreviate, EvictExpired, Matches;
    var full := FullHash(sha, toolName, content, m);
    FullHashLength(sha, toolName, content, m);
    var c := Worn(full, n, ttl);
    WornAbbreviates(full, n, ttl, 0);
    var (d, short) := Store(c, sha, toolName, content, m, now);
    assert d.storeCount == n + 1 && d.storeCount % 100 != 0;
    var w := Delete(d, short);
    assert w.entries == map[] && w.fullToShort == map[];
    assert w.retired == Worn(full, n, ttl).retired + {PrefixAt(full, n)} == Worn(full, n + 1, ttl).retired;
  }

  lemma {:induction false} WearOut(sha: Sha, toolName: string, content: string, m: Meta, n: nat, ttl: int,
      now: int) returns (ops: seq<Op>)
    requires FixedLength(sha) && m.isMCP && ttl > 0 && n <= FULL_HASH_LEN - MIN_ABBREV_LEN + 1
    ensures ApplyAll(Empty(ttl), sha, ops) == Worn(FullHash(sha, toolName, content, m), n, ttl)
  {
    if n == 0 {
      ops := [];
      assert Worn(FullHash(sha, toolName, content, m), 0, ttl) == Empty(ttl);
    } else {
      hide Worn, Get, Store;
      var full := FullHash(sha, toolName, content, m);
      var first := WearOut(sha, toolName, content, m, n - 1, ttl, now);
      WearOnce(sha, toolName, content, m, n - 1, ttl, now);
      var round := [OpStore(toolName, content, m, now), OpGet(PrefixAt(full, n - 1), now + ttl + 1)];
      ops := first + round;
      ApplyConcat(Empty(ttl), sha, first, round);
      ApplyTwo(Worn(full, n - 1, ttl), sha, round[0], round[1]);
    }
  }

  lemma ApplyTwo(c: Cache, sha: Sha, a: Op, b: Op)
    requires FixedLength(sha)
    ensures ApplyAll(c, sha, [a, b]) == Apply(Apply(c, sha, a), sha, b)
  {
    hide Apply;
    assert [a, b][1..] == [b] && [b][1..] == [];
    assert ApplyAll(Apply(c, sha, a), sha, [b]) == Apply(Apply(c, sha, a), sha, b);
  }

  // After 61 rounds the full-length key is retired, and the next Store hands it out again.
  lemma FullLengthKeyReissued(sha: Sha, toolName: string, content: string, m: Meta, ttl: int, now: int)
      returns (ops: seq<Op>)
    requires FixedLength(sha) && m.isMCP && ttl > 0
    ensures var full := FullHash(sha, toolName, content, m);
            var c := ApplyAll(Empty(ttl), sha, ops);
            full in c.retired && Store(c, sha, toolName, content, m, now).1 == full
  {
    var full := FullHash(sha, toolName, content, m);
    var n := FULL_HASH_LEN - MIN_ABBREV_LEN + 1;
    ops := WearOut(sha, toolName, content, m, n, ttl, now);
    WornAbbreviates(full, n, ttl, 0);
    assert PrefixAt(full, n - 1) == full;
  }

  lemma {:induction false} ApplyConcat(c: Cache, sha: Sha, a: seq<Op>, b: seq<Op>)
    requires FixedLength(sha)
    ensures ApplyAll(c, sha, a + b) == ApplyAll(ApplyAll(c, sha, a), sha, b)
    decreases a
  {
    if a == [] {
      assert a + b == b;
    } else {
      assert (a + b)[1..] == a[1..] + b;
      ApplyConcat(Apply(c, sha, a[0]), sha, a[1..], b);
    }
  }

  // ---------------------------------------------------------------------
  // What a key recovers
  // ---------------------------------------------------------------------

  // A key just returned by Store finds its entry exactly while that entry has not expired; an
  // expired duplicate is returned by Store all the same.
  lemma StoreThenGet(c: Cache, issued: Issued, sha: Sha, toolName: string, content: string, m: Meta, now: int,
      later: int)
    requires Inv(c, issued) && FixedLength(sha)
    ensures var (d, short) := Store(c, sha, toolName, content, m, now);
            && short in d.entries && d.entries[short].hash == FullHash(sha, toolName, content, m)
            && Get(d, short, later).1 == if d.entries[short].Expired(later) then None else Some(d.entries[short])
  {
    StoreInv(c, issued, sha, toolName, content, m, now);
    var (d, short) := Store(c, sha, toolName, content, m, now);
    hide Store, Abbreviate;
    assert Inverse(d);
    assert KeyShape(short, issued[short := FullHash(sha, toolName, content, m)][short]);
  }

  // ---------------------------------------------------------------------
  // What a lookup brings back
  // ---------------------------------------------------------------------

  predicate NulFree(s: string) { forall i :: 0 <= i < |s| ==> s[i] != 0 as char }

  // What an entry was hashed from, behind its tool name.
  function Body(e: Entry): string {
    if e.fileBacked then FileText(e.filePath, e.fileMtime, e.fileSize) else e.content
  }

  function Source(e: Entry): string { Preimage(e.toolName, Body(e)) }

  // The entry's hash is the hash of what the entry describes.
  ghost predicate Genuine(sha: Sha, e: Entry) { e.hash == sha(Source(e)) }

  ghost predicate AllGenuine(c: Cache, sha: Sha) {
    forall k :: k in c.entries ==> Genuine(sha, c.entries[k])
  }

  // Tool names have no NUL, and no live entry hashes another text to the hash of what is described.
  ghost predicate Clear(c: Cache, sha: Sha, toolName: string, described: string) {
    && NulFree(toolName) && (forall k :: k in c.entries ==> NulFree(c.entries[k].toolName))
    && forall k :: k in c.entries && sha(Source(c.entries[k])) == sha(Preimage(toolName, described)) ==>
         Source(c.entries[k]) == Preimage(toolName, described)
  }

  lemma StoreGenuine(c: Cache, sha: Sha, toolName: string, content: string, m: Meta, now: int)
    requires FixedLength(sha) && AllGenuine(c, sha)
    ensures AllGenuine(Store(c, sha, toolName, content, m, now).0, sha)
  {
    var full := FullHash(sha, toolName, content, m);
    assert Genuine(sha, NewEntry(full, toolName, content, m, c.ttl, now));
  }

  // The first NUL ends the tool name.
  lemma SplitsFirst(a: string, b: string, c: string, d: string)
    requires NulFree(a) && NulFree(c) && Preimage(a, b) == Preimage(c, d)
    ensures a == c && b == d
  {
    var s := Preimage(a, b);
    assert s[|a|] == 0 as char && s[|c|] == 0 as char;
    assert forall k :: 0 <= k < |a| ==> s[k] == a[k];
    assert forall k :: 0 <= k < |c| ==> s[k] == c[k];
    assert |a| == |c|;
    assert s[..|a|] == a && s[..|c|] == c;
    assert s[|a| + 1..] == b && s[|c| + 1..] == d;
  }

  // The last NUL begins the last field.
  lemma SplitsLast(a: string, b: string, c: string, d: string)
    requires NulFree(b) && NulFree(d) && a + NUL + b == c + NUL + d
    ensures a == c && b == d
  {
    var s := a + NUL + b;
    assert s[|a|] == 0 as char && s[|c|] == 0 as char;
    assert forall k :: |a| < k < |s| ==> s[k] == b[k - |a| - 1];
    assert forall k :: |c| < k < |s| ==> s[k] == d[k - |c| - 1];
    assert |a| == |c|;
    assert s[..|a|] == a && s[..|c|] == c;
    assert s[|a| + 1..] == b && s[|c| + 1..] == d;
  }

  lemma {:induction false} DecimalShape(n: int)
    ensures Decimal(n) != "" && NulFree(Decimal(n))
    ensures n >= 0 ==> Decimal(n)[0] != '-' && (n >= 10 ==> |Decimal(n)| >= 2)
    decreases if n < 0 then 1 - n else n
  {
    if n < 0 {
      DecimalShape(-n);
    } else if n >= 10 {
      DecimalShape(n / 10);
    }
  }

  lemma {:induction false} DecimalTells(n: int, k: int)
    requires Decimal(n) == Decimal(k)
    ensures n == k
    decreases if n < 0 then 1 - n else n
  {
    DecimalShape(n);
    DecimalShape(k);
    if n < 0 {
      assert Decimal(n)[1..] == Decimal(-n) && Decimal(k)[1..] == Decimal(-k);
      DecimalTells(-n, -k);
    } else if n >= 10 {
      var l := |Decimal(n)| - 1;
      assert Decimal(n)[..l] == Decimal(n / 10) && Decimal(k)[..l] == Decimal(k / 10);
      DecimalTells(n / 10, k / 10);
    }
  }

  // A path may contain anything: modification time and size are read off the end.
  lemma FileTextTells(p: string, t: int, n: int, p2: string, t2: int, n2: int)
    requires FileText(p, t, n) == FileText(p2, t2, n2)
    ensures p == p2 && t == t2 && n == n2
  {
    DecimalShape(n);
    DecimalShape(n2);
    SplitsLast(p + NUL + Decimal(t), Decimal(n), p2 + NUL + Decimal(t2), Decimal(n2));
    DecimalTells(n, n2);
    DecimalShape(t);
    DecimalShape(t2);
    SplitsLast(p, Decimal(t), p2, Decimal(t2));
    DecimalTells(t, t2);
  }

  // The entry holds the whole result: its content, or the version of the file that backs it.
  predicate Holds(e: Entry, toolName: string, content: string, m: Meta) {
    && e.toolName == toolName && e.fileBacked == m.fileBacked
    && if m.fileBacked then e.filePath == m.filePath && e.fileMtime == m.fileMtime && e.fileSize == m.fileSize
       else e.content == content
  }

  // A live entry of the other kind that spells the same: a file-backed entry whose path, time and size,
  // joined by NULs, are the content, or the other way round.
  ghost predicate Twin(c: Cache, toolName: string, content: string, m: Meta) {
    exists k :: k in c.entries && c.entries[k].toolName == toolName && c.entries[k].fileBacked != m.fileBacked
                && Body(c.entries[k]) == Described(content, m)
  }

  // The result just stored is out of date at a later time.
  predicate Lapsed(c: Cache, full: string, m: Meta, now: int, later: int) {
    if full in c.fullToShort then c.fullToShort[full] in c.entries && c.entries[c.fullToShort[full]].Expired(later)
    else m.isMCP && c.ttl > 0 && later - now > c.ttl
  }

  // Two genuine entries of one hash, without a collision: they hold the same result, or are twins.
  lemma SameHash(c: Cache, sha: Sha, k: string, toolName: string, content: string, m: Meta)
    requires AllGenuine(c, sha) && Clear(c, sha, toolName, Described(content, m))
    requires k in c.entries && c.entries[k].hash == FullHash(sha, toolName, content, m)
    ensures c.entries[k].toolName == toolName && Body(c.entries[k]) == Described(content, m)
    ensures Holds(c.entries[k], toolName, content, m) <==> c.entries[k].fileBacked == m.fileBacked
  {
    hide FileText;
    var e := c.entries[k];
    SplitsFirst(e.toolName, Body(e), toolName, Described(content, m));
    if e.fileBacked && m.fileBacked {
      FileTextTells(e.filePath, e.fileMtime, e.fileSize, m.filePath, m.fileMtime, m.fileSize);
    }
  }

  // The entry under the key that Store returns: the one already there, or the one described.
  lemma StoredEntry(c: Cache, issued: Issued, sha: Sha, toolName: string, content: string, m: Meta, now: int)
    requires Inv(c, issued) && FixedLength(sha)
    ensures var full := FullHash(sha, toolName, content, m);
            var (d, short) := Store(c, sha, toolName, content, m, now);
            && short in d.entries
            && if full in c.fullToShort then short == c.fullToShort[full] && short in c.entries && d.entries[short] == c.entries[short]
               else d.entries[short] == NewEntry(full, toolName, content, m, c.ttl, now)
  {
    hide Abbreviate;
    StoreInv(c, issued, sha, toolName, content, m, now);
  }

  // A lookup under the key finds something exactly while the entry has not expired.
  lemma FoundIff(c: Cache, issued: Issued, sha: Sha, toolName: string, content: string, m: Meta, now: int, later: int)
    requires Inv(c, issued) && FixedLength(sha)
    ensures var (d, short) := Store(c, sha, toolName, content, m, now);
            Get(d, short, later).1.Some? <==> !Lapsed(c, FullHash(sha, toolName, content, m), m, now, later)
  {
    hide Store, Get, FullHash;
    StoreThenGet(c, issued, sha, toolName, content, m, now, later);
    StoredEntry(c, issued, sha, toolName, content, m, now);
  }

  // What a lookup brings back is the whole result.
  ghost predicate BringsBack(c: Cache, key: string, later: int, toolName: string, content: string, m: Meta) {
    var r := Get(c, key, later).1;
    r.Some? && Holds(r.value, toolName, content, m)
  }

  // The key of a stored result brings back the whole result, at any later time, exactly while the entry has
  // not expired and no twin was in the table.
  lemma RecoveredIff(c: Cache, issued: Issued, sha: Sha, toolName: string, content: string, m: Meta, now: int, later: int)
    requires Inv(c, issued) && FixedLength(sha) && AllGenuine(c, sha) && Clear(c, sha, toolName, Described(content, m))
    ensures var (d, short) := Store(c, sha, toolName, content, m, now);
            BringsBack(d, short, later, toolName, content, m)
            <==> !Lapsed(c, FullHash(sha, toolName, content, m), m, now, later) && !Twin(c, toolName, content, m)
  {
    hide Store, Get, NulFree, Clear, FileText;
    var full := FullHash(sha, toolName, content, m);
    var (d, short) := Store(c, sha, toolName, content, m, now);
    FoundIff(c, issued, sha, toolName, content, m, now, later);
    StoreThenGet(c, issued, sha, toolName, content, m, now, later);
    StoredEntry(c, issued, sha, toolName, content, m, now);
    TwinIff(c, issued, sha, toolName, content, m);
    if full in c.fullToShort {
      SameHash(c, sha, short, toolName, content, m);
    }
  }

  // A twin is an entry of the other kind under the very same hash.
  lemma TwinIff(c: Cache, issued: Issued, sha: Sha, toolName: string, content: string, m: Meta)
    requires Inv(c, issued) && AllGenuine(c, sha) && Clear(c, sha, toolName, Described(content, m))
    ensures var full := FullHash(sha, toolName, content, m);
            Twin(c, toolName, content, m)
            <==> full in c.fullToShort && c.entries[c.fullToShort[full]].fileBacked != m.fileBacked
  {
    hide NulFree, Clear, FileText, IssuedOk, RetiredOk, PrefixesUsed, FullKeysStick;
    var full := FullHash(sha, toolName, content, m);
    if Twin(c, toolName, content, m) {
      var k :| k in c.entries && c.entries[k].toolName == toolName && c.entries[k].fileBacked != m.fileBacked
               && Body(c.entries[k]) == Described(content, m);
      assert c.entries[k].hash == full;
    }
    if full in c.fullToShort && c.entries[c.fullToShort[full]].fileBacked != m.fileBacked {
      SameHash(c, sha, c.fullToShort[full], toolName, content, m);
    }
  }

  // ---------------------------------------------------------------------
  // Recovery over whole runs
  // ---------------------------------------------------------------------

  // The entry was made by this store.
  ghost predicate From(e: Entry, op: Op, ttl: int) {
    && op.OpStore? && e.toolName == op.toolName && e.fileBacked == op.m.fileBacked
    && Body(e) == Described(op.content, op.m) && Labelled(e, op, ttl)
  }

  // It carries what was known of the file and the tool's input unless that was too long; and it runs out a time limit
  // behind the store if the tool was an MCP tool and there is a limit, and never otherwise.
  ghost predicate Labelled(e: Entry, op: Op, ttl: int)
    requires op.OpStore?
  {
    && (e.filePath, e.fileMtime, e.fileSize, e.isMCP) == (op.m.filePath, op.m.fileMtime, op.m.fileSize, op.m.isMCP)
    && e.input == (if |op.m.input| <= MAX_INPUT_BYTES then op.m.input else "")
    && e.createdAt == op.at
    && forall now :: e.Expired(now) <==> op.m.isMCP && ttl > 0 && now - op.at > ttl
  }

  ghost predicate Known(c: Cache, ops: seq<Op>) {
    forall k :: k in c.entries ==> exists i :: 0 <= i < |ops| && From(c.entries[k], ops[i], c.ttl)
  }

  // Tool names have no NUL, and no two stored texts of the run collide.
  ghost predicate ClearRun(sha: Sha, ops: seq<Op>) {
    && (forall i :: 0 <= i < |ops| && ops[i].OpStore? ==> NulFree(ops[i].toolName))
    && forall i, j :: 0 <= i < j < |ops| && ops[i].OpStore? && ops[j].OpStore? && sha(Text(ops[i])) == sha(Text(ops[j])) ==>
         Text(ops[i]) == Text(ops[j])
  }

  function Text(op: Op): string
    requires op.OpStore?
  {
    Preimage(op.toolName, Described(op.content, op.m))
  }

  // Some store of the run spells the same as this result, but is of the other kind.
  ghost predicate TwinStored(ops: seq<Op>, toolName: string, content: string, m: Meta) {
    exists i :: 0 <= i < |ops| && ops[i].OpStore? && ops[i].toolName == toolName && ops[i].m.fileBacked != m.fileBacked
                && Described(ops[i].content, ops[i].m) == Described(content, m)
  }

  lemma ApplyEntries(c: Cache, sha: Sha, op: Op, k: string)
    requires FixedLength(sha) && k in Apply(c, sha, op).entries
    ensures var d := Apply(c, sha, op);
            d.ttl == c.ttl &&
            ((k in c.entries && d.entries[k] == c.entries[k])
            || (op.OpStore? && d.entries[k] == NewEntry(FullHash(sha, op.toolName, op.content, op.m), op.toolName, op.content, op.m, c.ttl, op.at)))
  {
    hide Abbreviate, FullHash, NewEntry, Resolve;
  }

  lemma MadeFrom(e: Entry, sha: Sha, op: Op, ttl: int)
    requires op.OpStore? && e == NewEntry(FullHash(sha, op.toolName, op.content, op.m), op.toolName, op.content, op.m, ttl, op.at)
    ensures From(e, op, ttl) && Genuine(sha, e)
  {
  }

  // Every entry is genuine and goes back to a store of the run.
  lemma {:induction false} RunKnown(c: Cache, sha: Sha, done: seq<Op>, ops: seq<Op>)
    requires FixedLength(sha) && AllGenuine(c, sha) && Known(c, done)
    ensures AllGenuine(ApplyAll(c, sha, ops), sha) && Known(ApplyAll(c, sha, ops), done + ops)
    decreases ops
  {
    hide Apply, FileText, Preimage, Labelled, NewEntry;
    if ops == [] {
      assert done + ops == done;
    } else {
      var d := Apply(c, sha, ops[0]);
      var more := done + [ops[0]];
      forall k | k in d.entries
        ensures Genuine(sha, d.entries[k]) && exists i :: 0 <= i < |more| && From(d.entries[k], more[i], d.ttl)
      {
        ApplyEntries(c, sha, ops[0], k);
        if k in c.entries && d.entries[k] == c.entries[k] {
          var i :| 0 <= i < |done| && From(c.entries[k], done[i], c.ttl);
          assert From(d.entries[k], more[i], d.ttl);
        } else {
          MadeFrom(d.entries[k], sha, ops[0], c.ttl);
          assert From(d.entries[k], more[|done|], d.ttl);
        }
      }
      RunKnown(d, sha, more, ops[1..]);
      assert more + ops[1..] == done + ops;
    }
  }

  lemma RunClear(c: Cache, sha: Sha, ops: seq<Op>, toolName: string, content: string, m: Meta, at: int)
    requires Known(c, ops) && OpStore(toolName, content, m, at) in ops && ClearRun(sha, ops)
    ensures Clear(c, sha, toolName, Described(content, m))
  {
    hide NulFree, Described, Body, Preimage;
    var j :| 0 <= j < |ops| && ops[j] == OpStore(toolName, content, m, at);
    forall k | k in c.entries
      ensures NulFree(c.entries[k].toolName)
      ensures sha(Source(c.entries[k])) == sha(Text(ops[j])) ==> Source(c.entries[k]) == Text(ops[j])
    {
      var i :| 0 <= i < |ops| && From(c.entries[k], ops[i], c.ttl);
      assert Source(c.entries[k]) == Text(ops[i]);
    }
  }

  // Whatever happened before, a lookup under the key just returned brings back the whole result exactly
  // while it has not expired and no twin is live; and a twin is the doing of an earlier store.
  lemma RecoveredInRun(ttl: int, sha: Sha, before: seq<Op>, toolName: string, content: string, m: Meta, at: int,
      later: int)
    requires FixedLength(sha) && ClearRun(sha, before + [OpStore(toolName, content, m, at)])
    ensures var c := ApplyAll(Empty(ttl), sha, before);
            var (d, short) := Store(c, sha, toolName, content, m, at);
            && (BringsBack(d, short, later, toolName, content, m)
                <==> !Lapsed(c, FullHash(sha, toolName, content, m), m, at, later) && !Twin(c, toolName, content, m))
            && (Twin(c, toolName, content, m) ==> TwinStored(before, toolName, content, m))
  {
    hide Inv, Store, BringsBack, Twin, Lapsed, ClearRun, FullHash, TwinStored;
    var c := ApplyAll(Empty(ttl), sha, before);
    EmptyInv(ttl);
    RunInv(Empty(ttl), map[], sha, before);
    RunKnown(Empty(ttl), sha, [], before);
    assert [] + before == before;
    var all := before + [OpStore(toolName, content, m, at)];
    KnownMore(c, before, [OpStore(toolName, content, m, at)]);
    assert all[|before|] == OpStore(toolName, content, m, at);
    RunClear(c, sha, all, toolName, content, m, at);
    RecoveredIff(c, NoteAll(Empty(ttl), map[], sha, before), sha, toolName, content, m, at, later);
    if Twin(c, toolName, content, m) {
      TwinsAreStored(c, before, toolName, content, m);
    }
  }

  lemma KnownMore(c: Cache, ops: seq<Op>, more: seq<Op>)
    requires Known(c, ops)
    ensures Known(c, ops + more)
  {
    hide From;
    forall k | k in c.entries ensures exists i :: 0 <= i < |ops + more| && From(c.entries[k], (ops + more)[i], c.ttl) {
      var i :| 0 <= i < |ops| && From(c.entries[k], ops[i], c.ttl);
      assert (ops + more)[i] == ops[i];
    }
  }

  lemma TwinsAreStored(c: Cache, ops: seq<Op>, toolName: string, content: string, m: Meta)
    requires Known(c, ops) && Twin(c, toolName, content, m)
    ensures TwinStored(ops, toolName, content, m)
  {
    hide Body, Described;
    var k :| k in c.entries && c.entries[k].toolName == toolName && c.entries[k].fileBacked != m.fileBacked
             && Body(c.entries[k]) == Described(content, m);
    var i :| 0 <= i < |ops| && From(c.entries[k], ops[i], c.ttl);
  }

  // However the run goes on, the key brings back the whole result or nothing: never another result, unless
  // the run also stores a twin. An entry without a time limit is never lost.
  lemma RecoveredLater(ttl: int, sha: Sha, before: seq<Op>, toolName: string, content: string, m: Meta, at: int,
      after: seq<Op>, later: int)
    requires FixedLength(sha) && ClearRun(sha, before + [OpStore(toolName, content, m, at)] + after)
    ensures var (d, short) := Store(ApplyAll(Empty(ttl), sha, before), sha, toolName, content, m, at);
            var r := Get(ApplyAll(d, sha, after), short, later).1;
            && (!TwinStored(before + [OpStore(toolName, content, m, at)] + after, toolName, content, m) ==>
                  r.None? || Holds(r.value, toolName, content, m))
            && (short in d.entries && (d.entries[short].ttl <= 0 ==> r == Some(d.entries[short])))
  {
    hide Inv, Holds, ClearRun, TwinStored, Store, FullHash, Abbreviate;
    var op := OpStore(toolName, content, m, at);
    var c := ApplyAll(Empty(ttl), sha, before);
    var (d, short) := Store(c, sha, toolName, content, m, at);
    var all := before + [op] + after;
    var e := ApplyAll(d, sha, after);
    EmptyInv(ttl);
    RunInv(Empty(ttl), map[], sha, before);
    var issued := NoteAll(Empty(ttl), map[], sha, before);
    StoreInv(c, issued, sha, toolName, content, m, at);
    StoreThenGet(c, issued, sha, toolName, content, m, at, later);
    ApplyOne(c, sha, op);
    ApplyConcat(Empty(ttl), sha, before, [op]);
    ApplyConcat(Empty(ttl), sha, before + [op], after);
    RunKnown(Empty(ttl), sha, [], all);
    assert [] + all == all;
    assert all[|before|] == op;
    RunClear(e, sha, all, toolName, content, m, at);
    NeverAliased(ttl, sha, before, toolName, content, m, at, after);
    if Resolve(e, short).Some? && !TwinStored(all, toolName, content, m) {
      WholeUnlessTwin(e, sha, all, Resolve(e, short).value, toolName, content, m);
    }
    if d.entries[short].ttl <= 0 {
      Permanent(d, issued[short := FullHash(sha, toolName, content, m)], sha, after, short);
    }
  }

  lemma ApplyOne(c: Cache, sha: Sha, op: Op)
    requires FixedLength(sha)
    ensures ApplyAll(c, sha, [op]) == Apply(c, sha, op)
  {
    hide Apply;
    assert [op][1..] == [];
  }

  lemma WholeUnlessTwin(c: Cache, sha: Sha, ops: seq<Op>, k: string, toolName: string, content: string, m: Meta)
    requires AllGenuine(c, sha) && Known(c, ops) && Clear(c, sha, toolName, Described(content, m))
    requires k in c.entries && c.entries[k].hash == FullHash(sha, toolName, content, m)
    requires !TwinStored(ops, toolName, content, m)
    ensures Holds(c.entries[k], toolName, content, m)
  {
    hide Clear, TwinStored, Known, Holds, Genuine, Body, Described, FullHash;
    SameHash(c, sha, k, toolName, content, m);
    if c.entries[k].fileBacked != m.fileBacked {
      assert Twin(c, toolName, content, m);
      TwinsAreStored(c, ops, toolName, content, m);
    }
  }

  // An entry without a time limit stays under its key.
  lemma {:induction false} Permanent(c: Cache, issued: Issued, sha: Sha, ops: seq<Op>, k: string)
    requires Inv(c, issued) && FixedLength(sha) && k in c.entries && c.entries[k].ttl <= 0
    ensures k in ApplyAll(c, sha, ops).entries && ApplyAll(c, sha, ops).entries[k] == c.entries[k]
    decreases ops
  {
    if ops != [] {
      hide Inv, Apply, Note;
      ApplyInv(c, issued, sha, ops[0]);
      ApplyKeeps(c, issued, sha, ops[0], k);
      Permanent(Apply(c, sha, ops[0]), Note(c, issued, sha, ops[0]), sha, ops[1..], k);
    }
  }

  lemma ApplyKeeps(c: Cache, issued: Issued, sha: Sha, op: Op, k: string)
    requires Inv(c, issued) && FixedLength(sha) && k in c.entries && c.entries[k].ttl <= 0
    ensures k in Apply(c, sha, op).entries && Apply(c, sha, op).entries[k] == c.entries[k]
  {
    hide FullHash, Abbreviate, NewEntry, RetiredOk, PrefixesUsed, FullKeysStick, KeyShape, Resolve;
    if op.OpStore? {
      var full := FullHash(sha, op.toolName, op.content, op.m);
      FullHashLength(sha, op.toolName, op.content, op.m);
      if full !in c.fullToShort {
        FreshKey(c, issued, full);
      }
    }
  }

  lemma FullHashLength(sha: Sha, toolName: string, content: string, m: Meta)
    requires FixedLength(sha)
    ensures |FullHash(sha, toolName, content, m)| == FULL_HASH_LEN
  {
  }

  // ---------------------------------------------------------------------
  // Where recovery fails
  // ---------------------------------------------------------------------

  // Storing the text that spells a stored file's path, time and size, under the same tool, returns the file's
  // key: a lookup brings back an entry without that text.
  lemma TwinExample(sha: Sha, toolName: string, path: string, mtime: int, size: int, now: int)
    requires FixedLength(sha)
    ensures var file := Meta(path, mtime, size, false, "", true);
            var plain := Meta("", 0, 0, false, "", false);
            var text := FileText(path, mtime, size);
            var (c, first) := Store(Empty(0), sha, toolName, "", file, now);
            var (d, again) := Store(c, sha, toolName, text, plain, now);
            var r := Get(d, again, now).1;
            again == first && Twin(c, toolName, text, plain) && r.Some? && r.value.content == "" != text
  {
    hide FileText, Decimal;
    var file := Meta(path, mtime, size, false, "", true);
    var plain := Meta("", 0, 0, false, "", false);
    var (c, first) := Store(Empty(0), sha, toolName, "", file, now);
    var full := FullHash(sha, toolName, "", file);
    assert full == FullHash(sha, toolName, FileText(path, mtime, size), plain);
    assert c.fullToShort == map[full := first] && first in c.entries && first != "";
    assert Body(c.entries[first]) == FileText(path, mtime, size);
    FileTextNotEmpty(path, mtime, size);
  }

  lemma FileTextNotEmpty(path: string, mtime: int, size: int)
    ensures FileText(path, mtime, size) != ""
  {
  }

  // An expired duplicate: Store returns its key although a lookup no longer finds it.
  lemma StaleDuplicate(sha: Sha, toolName: string, content: string, m: Meta, ttl: int, now: int)
    requires FixedLength(sha) && m.isMCP && ttl > 0
    ensures var (c, first) := Store(Empty(ttl), sha, toolName, content, m, now);
            var (d, again) := Store(c, sha, toolName, content, m, now + ttl + 1);
            again == first && Get(d, again, now + ttl + 1).1.None?
  {
    var (c, first) := Store(Empty(ttl), sha, toolName, content, m, now);
    assert first in c.entries && c.entries[first].createdAt == now;
    assert first == FullHash(sha, toolName, content, m)[..MIN_ABBREV_LEN];
  }
}
