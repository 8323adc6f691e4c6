/** The state pushes of one agent connection, and what they skip. */
module StateCache {
  import opened Strings
  import opened HostTables

  // A table is rewritten only when its rows differ from what the connection last wrote.
  // The hash that keys the cache is taken to be injective, so the cache holds the rows.

  /** How the database meets one attempt to write. */
  datatype Weather = Clear | Busy | Broken

  const ATTEMPTS := 4

  /** retryOnBusy reaches the database: only busy attempts came before a clear one. */
  ghost predicate Lands(weather: seq<Weather>) {
    exists k :: 0 <= k < ATTEMPTS && k < |weather| && weather[k].Clear? && forall j :: 0 <= j < k ==> weather[j].Busy?
  }

  /** Rows a transaction can insert: images are merged first, any other repeated
      primary key rolls the whole snapshot back. */
  ghost predicate Storable(table: Table, rows: seq<Row>) {
    table.Images? || DistinctKeys(rows)
  }

  function Stored(table: Table, rows: seq<Row>): set<Row> {
    if table.Images? then Deduped(rows) else set r | r in rows
  }

  type Tables = map<Table, set<Row>>

  /** What the connection remembers of its last write, per table. */
  type Cache = map<Table, seq<Row>>

  datatype Memory = Memory(tables: Tables, cache: Cache)

  /** One table of one push, and whether the database let the write through. */
  datatype Push = Push(table: Table, rows: seq<Row>, lands: bool)

  ghost function Apply(m: Memory, p: Push): Memory {
    if p.table in m.cache && m.cache[p.table] == p.rows then m
    else if p.lands && Storable(p.table, p.rows) then
      Memory(m.tables[p.table := Stored(p.table, p.rows)], m.cache[p.table := p.rows])
    else Memory(m.tables, m.cache - {p.table})
  }

  /** The same push without a cache. */
  ghost function Rewrite(tables: Tables, p: Push): Tables {
    if p.lands && Storable(p.table, p.rows) then tables[p.table := Stored(p.table, p.rows)] else tables
  }

  ghost function ApplyAll(m: Memory, pushes: seq<Push>): Memory
    decreases |pushes|
  {
    if pushes == [] then m else ApplyAll(Apply(m, pushes[0]), pushes[1..])
  }

  ghost function RewriteAll(tables: Tables, pushes: seq<Push>): Tables
    decreases |pushes|
  {
    if pushes == [] then tables else RewriteAll(Rewrite(tables, pushes[0]), pushes[1..])
  }

  /** A table with a cache entry holds the stored form of exactly those rows. */
  ghost predicate Coherent(m: Memory) {
    forall t :: t in m.cache ==> t in m.tables && m.tables[t] == Stored(t, m.cache[t])
  }

  /** Whatever writes fail, skipping gives the tables that rewriting every push gives. */
  lemma {:induction false} SkippingIsRewriting(m: Memory, pushes: seq<Push>)
    requires Coherent(m)
    ensures Coherent(ApplyAll(m, pushes)) && ApplyAll(m, pushes).tables == RewriteAll(m.tables, pushes)
    decreases |pushes|
  {
    if pushes != [] {
      SkippingIsRewriting(Apply(m, pushes[0]), pushes[1..]);
      assert Apply(m, pushes[0]).tables == Rewrite(m.tables, pushes[0]);
    }
  }

  /** The rows last pushed to the table. */
  ghost predicate Latest(pushes: seq<Push>, i: nat, table: Table) {
    i < |pushes| && pushes[i].table == table && forall j :: i < j < |pushes| ==> pushes[j].table != table
  }

  /** After any pushes and any failures, a table either holds the stored form of the
      latest rows pushed to it, or has no cache entry, so that the next push writes it. */
  lemma {:induction false} LatestOrForgotten(m: Memory, pushes: seq<Push>, i: nat, table: Table)
    requires Coherent(m) && Latest(pushes, i, table)
    ensures var after := ApplyAll(m, pushes);
            table !in after.cache
            || (after.cache[table] == pushes[i].rows && table in after.tables
                && after.tables[table] == Stored(table, pushes[i].rows))
    decreases |pushes|
  {
    SkippingIsRewriting(m, [pushes[0]]);
    assert ApplyAll(m, [pushes[0]]) == Apply(m, pushes[0]) by { assert [pushes[0]][1..] == []; }
    if i > 0 {
      LatestOrForgotten(Apply(m, pushes[0]), pushes[1..], i - 1, table);
    } else {
      assert forall j :: 0 <= j < |pushes[1..]| ==> pushes[1..][j] == pushes[j + 1];
      Untouched(Apply(m, pushes[0]), pushes[1..], table);
    }
  }

  lemma {:induction false} Untouched(m: Memory, pushes: seq<Push>, table: Table)
    requires forall j :: 0 <= j < |pushes| ==> pushes[j].table != table
    ensures var after := ApplyAll(m, pushes);
            && (table in after.cache <==> table in m.cache)
                && (table in m.cache ==> after.cache[table] == m.cache[table])
            && (table in after.tables <==> table in m.tables)
                && (table in m.tables ==> after.tables[table] == m.tables[table])
    decreases |pushes|
  {
    if pushes != [] {
      assert pushes[0].table != table;
      assert forall j :: 0 <= j < |pushes[1..]| ==> pushes[1..][j] == pushes[j + 1];
      Untouched(Apply(m, pushes[0]), pushes[1..], table);
    }
  }

  // ---- version and architecture, which share one cache entry

  datatype Facts = Facts(version: string, arch: string, entry: Option<string>)

  function Text(version: string, arch: string): string {
    version + "|" + arch
  }

  /** One push of version and architecture; each write lands or not. */
  datatype FactPush = FactPush(version: string, arch: string, versionLands: bool, archLands: bool)

  predicate Whole(p: FactPush) {
    (p.version == "" || p.versionLands) && (p.arch == "" || p.archLands)
  }

  function ApplyFacts(f: Facts, p: FactPush): Facts {
    if f.entry == Some(Text(p.version, p.arch)) then f
    else
      Facts(if p.version != "" && p.versionLands then p.version else f.version,
            if p.arch != "" && p.archLands then p.arch else f.arch,
            if Whole(p) then Some(Text(p.version, p.arch)) else f.entry)
  }

  /** A push of this pair has nothing left to write. */
  predicate Recorded(f: Facts, version: string, arch: string) {
    (version != "" ==> f.version == version) && (arch != "" ==> f.arch == arch)
  }

  /** The cache entry is no lie: a push it would skip has nothing left to write. */
  ghost predicate FactsCoherent(f: Facts) {
    forall v, a :: f.entry == Some(Text(v, a)) ==> Recorded(f, v, a)
  }

  function RewriteFacts(version: string, arch: string, p: FactPush): (string, string) {
    (if p.version != "" && p.versionLands then p.version else version,
     if p.arch != "" && p.archLands then p.arch else arch)
  }

  function Pair(f: Facts): (string, string) {
    (f.version, f.arch)
  }

  /** Whatever is pushed next, skipping it is rewriting it. */
  ghost predicate Faithful(f: Facts) {
    forall p: FactPush :: Pair(ApplyFacts(f, p)) == RewriteFacts(f.version, f.arch, p)
  }

  lemma {:induction false} CoherentIsFaithful(f: Facts)
    ensures FactsCoherent(f) <==> Faithful(f)
  {
    if Faithful(f) {
      forall v, a | f.entry == Some(Text(v, a)) ensures Recorded(f, v, a) {
        var p := FactPush(v, a, true, true);
        assert Pair(ApplyFacts(f, p)) == RewriteFacts(f.version, f.arch, p);
      }
    }
  }

  /** One text for two pairs: the longer version takes a bar, and what follows it, from
      the architecture. */
  lemma {:induction false} SameText(v: string, a: string, w: string, b: string)
    requires Text(v, a) == Text(w, b) && |v| < |w|
    ensures var rest := w[|v| + 1..]; w == v + "|" + rest && a == rest + "|" + b
  {
    var t, rest := Text(v, a), w[|v| + 1..];
    assert t[|v|] == '|' && t[|v|] == w[|v|];
    assert v == t[..|v|] == w[..|v|];
    assert a == t[|v| + 1..] == rest + "|" + b;
  }

  /** Of a push whose writes land: the bars in it make the text it is remembered by read
      as another pair, one that is not stored. With both values reported any bar does. With
      one of them left out, a bar at its far end is harmless if the stored other value
      happens to be what that reading asks for. */
  predicate ReadsOtherwise(f: Facts, p: FactPush) {
    if p.version != "" && p.arch != "" then '|' in p.version || '|' in p.arch
    else if p.arch != "" then
      exists k | 0 <= k < |p.arch| ::
        p.arch[k] == '|' && !(k == |p.arch| - 1 && f.version == "|" + p.arch[..k])
    else
      exists k | 0 <= k < |p.version| ::
        p.version[k] == '|' && !(k == 0 && f.arch == p.version[1..] + "|")
  }

  /** Some pair has the push's text and is not what is stored after it. */
  ghost predicate LeavesALie(f: Facts, p: FactPush) {
    exists v, a :: Text(v, a) == Text(p.version, p.arch) && !Recorded(ApplyFacts(f, p), v, a)
  }

  /** The text's other readings are its cuts at the bars inside the version or the architecture. */
  lemma {:induction false} OtherReading(v: string, a: string, version: string, arch: string)
    requires Text(v, a) == Text(version, arch)
    ensures || (v == version && a == arch)
            || (exists k :: 0 <= k < |version| && version[k] == '|' && v == version[..k]
                            && a == version[k + 1..] + "|" + arch)
            || (exists k :: 0 <= k < |arch| && arch[k] == '|' && v == version + "|" + arch[..k] && a == arch[k + 1..])
  {
    if |v| < |version| {
      SameText(v, a, version, arch);
      assert version[|v|] == '|' && version[..|v|] == v;
    } else if |version| < |v| {
      SameText(version, arch, v, a);
      var rest := v[|version| + 1..];
      assert arch[|rest|] == '|' && arch[..|rest|] == rest && arch[|rest| + 1..] == a;
    } else {
      assert v == Text(v, a)[..|v|] == version && a == Text(v, a)[|v| + 1..] == arch;
    }
  }

  lemma {:induction false} CutInVersion(version: string, arch: string, k: nat)
    requires k < |version| && version[k] == '|'
    ensures Text(version[..k], version[k + 1..] + "|" + arch) == Text(version, arch)
  {
    assert version == version[..k] + ("|" + version[k + 1..]);
  }

  lemma {:induction false} CutInArch(version: string, arch: string, k: nat)
    requires k < |arch| && arch[k] == '|'
    ensures Text(version + "|" + arch[..k], arch[k + 1..]) == Text(version, arch)
  {
    assert arch == arch[..k] + ("|" + arch[k + 1..]);
  }

  lemma {:induction false} VersionCutReads(f: Facts, p: FactPush, k: nat)
    requires Whole(p) && f.entry != Some(Text(p.version, p.arch)) && k < |p.version| && p.version[k] == '|'
    requires !Recorded(ApplyFacts(f, p), p.version[..k], p.version[k + 1..] + "|" + p.arch)
    ensures ReadsOtherwise(f, p)
  {
    hide Text;
    if p.arch == "" { assert p.version[k + 1..] + "|" + p.arch == p.version[k + 1..] + "|"; }
  }

  lemma {:induction false} ArchCutReads(f: Facts, p: FactPush, k: nat)
    requires Whole(p) && f.entry != Some(Text(p.version, p.arch)) && k < |p.arch| && p.arch[k] == '|'
    requires !Recorded(ApplyFacts(f, p), p.version + "|" + p.arch[..k], p.arch[k + 1..])
    ensures ReadsOtherwise(f, p)
  {
    hide Text;
    if p.version == "" { assert p.version + "|" + p.arch[..k] == "|" + p.arch[..k]; }
  }

  lemma {:induction false} LieNeedsABar(f: Facts, p: FactPush)
    requires Whole(p) && f.entry != Some(Text(p.version, p.arch)) && LeavesALie(f, p)
    ensures ReadsOtherwise(f, p)
  {
    hide Text, ReadsOtherwise;
    var version, arch := p.version, p.arch;
    var v, a :| Text(v, a) == Text(version, arch) && !Recorded(ApplyFacts(f, p), v, a);
    OtherReading(v, a, version, arch);
    if k :| 0 <= k < |version| && version[k] == '|' && v == version[..k] && a == version[k + 1..] + "|" + arch {
      VersionCutReads(f, p, k);
    } else if k :| 0 <= k < |arch| && arch[k] == '|' && v == version + "|" + arch[..k] && a == arch[k + 1..] {
      ArchCutReads(f, p, k);
    }
  }

  lemma {:induction false} BarLeavesALie(f: Facts, p: FactPush)
    requires Whole(p) && f.entry != Some(Text(p.version, p.arch)) && ReadsOtherwise(f, p)
    ensures LeavesALie(f, p)
  {
    var version, arch := p.version, p.arch;
    if k :| 0 <= k < |arch| && arch[k] == '|'
            && (version != "" || !(k == |arch| - 1 && f.version == "|" + arch[..k])) {
      CutInArch(version, arch, k);
      assert !Recorded(ApplyFacts(f, p), version + "|" + arch[..k], arch[k + 1..]);
    } else {
      var k :| 0 <= k < |version| && version[k] == '|' && (arch != "" || !(k == 0 && f.arch == version[1..] + "|"));
      CutInVersion(version, arch, k);
      assert !Recorded(ApplyFacts(f, p), version[..k], version[k + 1..] + "|" + arch);
    }
  }

  /** So what can be read off the push and the stored pair before it is written decides
      whether the text it is remembered by will be a lie. */
  lemma {:induction false} BarsMatter(f: Facts, p: FactPush)
    requires Whole(p) && f.entry != Some(Text(p.version, p.arch))
    ensures ReadsOtherwise(f, p) <==> LeavesALie(f, p)
  {
    if LeavesALie(f, p) { LieNeedsABar(f, p); }
    if ReadsOtherwise(f, p) { BarLeavesALie(f, p); }
  }

  /** A version with a bar in it can make two pairs look alike. */
  lemma {:induction false} BarsCollide()
    ensures Text("1", "2|x") == Text("1|2", "x")
    ensures var f := ApplyFacts(Facts("", "", None), FactPush("1", "2|x", true, true));
            ApplyFacts(f, FactPush("1|2", "x", true, true)) == f && !Recorded(f, "1|2", "x")
  {
  }

  /** The write that landed changed a value the pair promises. */
  predicate Contradicts(version: string, arch: string, p: FactPush) {
    || (p.version != "" && p.versionLands && version != "" && p.version != version)
    || (p.arch != "" && p.archLands && arch != "" && p.arch != arch)
  }

  /** A push leaves the cache entry promising what is not stored: it failed in part and
      its other write changed a promised value, or it is remembered by a text that reads
      as another pair. */
  ghost predicate Misleads(f: Facts, p: FactPush) {
    && f.entry != Some(Text(p.version, p.arch))
    && if Whole(p) then ReadsOtherwise(f, p)
       else exists v, a :: f.entry == Some(Text(v, a)) && Contradicts(v, a, p)
  }

  /** Exactly when the entry stays true. */
  lemma {:induction false} FactsStayCoherent(f: Facts, p: FactPush)
    requires FactsCoherent(f)
    ensures FactsCoherent(ApplyFacts(f, p)) <==> !Misleads(f, p)
  {
    hide ReadsOtherwise;
    var g := ApplyFacts(f, p);
    if f.entry != Some(Text(p.version, p.arch)) && Whole(p) {
      BarsMatter(f, p);
    } else if f.entry != Some(Text(p.version, p.arch)) {
      forall v, a | f.entry == Some(Text(v, a)) ensures Recorded(g, v, a) <==> !Contradicts(v, a, p) {
        assert Recorded(f, v, a);
      }
    }
  }

  function FactsAll(f: Facts, pushes: seq<FactPush>): Facts
    decreases |pushes|
  {
    if pushes == [] then f else FactsAll(ApplyFacts(f, pushes[0]), pushes[1..])
  }

  function RewriteFactsAll(pair: (string, string), pushes: seq<FactPush>): (string, string)
    decreases |pushes|
  {
    if pushes == [] then pair else RewriteFactsAll(RewriteFacts(pair.0, pair.1, pushes[0]), pushes[1..])
  }

  ghost predicate AlwaysFaithful(f: Facts, pushes: seq<FactPush>)
    decreases |pushes|
  {
    Faithful(f) && (pushes != [] ==> AlwaysFaithful(ApplyFacts(f, pushes[0]), pushes[1..]))
  }

  ghost predicate NeverMisleads(f: Facts, pushes: seq<FactPush>)
    decreases |pushes|
  {
    pushes != [] ==> !Misleads(f, pushes[0]) && NeverMisleads(ApplyFacts(f, pushes[0]), pushes[1..])
  }

  /** For every run of pushes: whatever could come next is stored as always writing would
      store it, all along the run, exactly if no push of the run misleads the entry. Then
      the run itself leaves the version and architecture that always writing leaves. */
  lemma {:induction false} SkippingFactsIsRewriting(f: Facts, pushes: seq<FactPush>)
    requires FactsCoherent(f)
    ensures AlwaysFaithful(f, pushes) <==> NeverMisleads(f, pushes)
    ensures NeverMisleads(f, pushes) ==> Pair(FactsAll(f, pushes)) == RewriteFactsAll(Pair(f), pushes)
    decreases |pushes|
  {
    hide ApplyFacts, RewriteFacts, FactsCoherent, Misleads;
    CoherentIsFaithful(f);
    if pushes != [] {
      var p := pushes[0];
      assert Pair(ApplyFacts(f, p)) == RewriteFacts(f.version, f.arch, p);
      FactsStayCoherent(f, p);
      if Misleads(f, p) {
        CoherentIsFaithful(ApplyFacts(f, p));
      } else {
        SkippingFactsIsRewriting(ApplyFacts(f, p), pushes[1..]);
      }
    }
  }

  /** A run in which it is not: a rollback of the agent after a half-failed push is never stored. */
  lemma {:induction false} StaleFacts()
    ensures var f := ApplyFacts(ApplyFacts(Facts("", "", None), FactPush("1", "amd64", true, true)),
        FactPush("2", "arm64", true, false));
            var g := ApplyFacts(f, FactPush("1", "amd64", true, true));
            g == f && g.version == "2" && g.arch == "amd64"
  {
    assert Text("1", "amd64")[0] == '1' && Text("2", "arm64")[0] == '2';
  }

  // ---- applyState

  /** One table of a push as it reached the database. */
  datatype Write = Write(table: Table, rows: seq<Row>, weather: seq<Weather>)

  class Connection {
    var tables: Tables
    var cache: Cache
    var facts: Facts

    ghost function Now(): Memory
      reads this
    {
      Memory(tables, cache)
    }

    constructor (stored: Tables, version: string, arch: string)
      ensures Now() == Memory(stored, map[]) && Coherent(Now())
      ensures facts == Facts(version, arch, None)
    {
      tables := stored;
      cache := map[];
      facts := Facts(version, arch, None);
    }

    /** ReplaceHost*: delete, then insert row by row, in one transaction. */
    method ReplaceHost(table: Table, rows: seq<Row>, weather: Weather) returns (r: Result<(), Weather>)
      modifies this`tables
      ensures r == if !weather.Clear? then Err(weather) else if Storable(table, rows) then Ok(()) else Err(Broken)
      ensures tables == if r.Ok? then old(tables)[table := Stored(table, rows)] else old(tables)
    {
      if weather != Clear {
        return Err(weather);
      }
      var inserted := rows;
      if table == Images {
        inserted := DedupeHostImages(rows);
      }
      var keys: set<seq<string>> := {};
      var content: set<Row> := {};
      for i := 0 to |inserted|
        invariant tables == old(tables)
        invariant DistinctKeys(inserted[..i])
        invariant keys == set r | r in inserted[..i] :: r.key
        invariant content == set r | r in inserted[..i]
      {
        assert inserted[..i + 1] == inserted[..i] + [inserted[i]];
        if inserted[i].key in keys {
          RepeatedKey(inserted, i);
          return Err(Broken);
        }
        NewKey(inserted, i);
        keys := keys + {inserted[i].key};
        content := content + {inserted[i]};
      }
      assert inserted[..|inserted|] == inserted;
      tables := tables[table := content];
      r := Ok(());
    }

    /** The replace closure of applyState around retryOnBusy. */
    method Replace(table: Table, rows: seq<Row>, weather: seq<Weather>)
      requires |weather| == ATTEMPTS
      modifies this`tables, this`cache
      ensures Now() == Apply(old(Now()), Push(table, rows, Lands(weather)))
    {
      if table in cache && cache[table] == rows {
        return;
      }
      var done := false;
      var attempt := 0;
      while attempt < ATTEMPTS
        invariant 0 <= attempt <= ATTEMPTS
        invariant forall j :: 0 <= j < attempt ==> weather[j].Busy?
        invariant !done && tables == old(tables) && cache == old(cache)
      {
        var r := ReplaceHost(table, rows, weather[attempt]);
        if r.Ok? {
          done := true;
          break;
        }
        if r.error != Busy {
          break;
        }
        attempt := attempt + 1;
      }
      LandsAt(weather, attempt);
      if !done {
        cache := cache - {table};
        return;
      }
      cache := cache[table := rows];
    }

    /** The four tables of one push, in the order applyState writes them. */
    method ApplyTables(writes: seq<Write>)
      requires forall i :: 0 <= i < |writes| ==> |writes[i].weather| == ATTEMPTS
      requires Coherent(Now())
      modifies this`tables, this`cache
      ensures Now() == ApplyAll(old(Now()), seq(|writes|, i requires 0 <= i < |writes| =>
                Push(writes[i].table, writes[i].rows, Lands(writes[i].weather))))
      ensures Coherent(Now())
    {
      ghost var pushes := seq(|writes|,
            i requires 0 <= i < |writes| => Push(writes[i].table, writes[i].rows, Lands(writes[i].weather)));
      ghost var before := Now();
      for i := 0 to |writes|
        invariant ApplyAll(Now(), pushes[i..]) == ApplyAll(before, pushes)
      {
        assert pushes[i..][1..] == pushes[i + 1..];
        Replace(writes[i].table, writes[i].rows, writes[i].weather);
      }
      SkippingIsRewriting(before, pushes);
    }

    /** Version and architecture, each written only when reported. */
    method ApplyFactsOf(version: string, arch: string, versionLands: bool, archLands: bool)
      modifies this`facts
      ensures facts == ApplyFacts(old(facts), FactPush(version, arch, versionLands, archLands))
    {
      var text := version + "|" + arch;
      if facts.entry == Some(text) {
        return;
      }
      var ok := true;
      if version != "" {
        if versionLands { facts := facts.(version := version); } else { ok := false; }
      }
      if arch != "" {
        if archLands { facts := facts.(arch := arch); } else { ok := false; }
      }
      if ok {
        facts := facts.(entry := Some(text));
      }
    }
  }

  lemma {:induction false} RepeatedKey(rows: seq<Row>, i: nat)
    requires i < |rows| && exists r :: r in rows[..i] && r.key == rows[i].key
    ensures !DistinctKeys(rows)
  {
    var r :| r in rows[..i] && r.key == rows[i].key;
    var j :| 0 <= j < i && rows[j] == r;
  }

  lemma {:induction false} NewKey(rows: seq<Row>, i: nat)
    requires i < |rows| && DistinctKeys(rows[..i]) && rows[i].key !in set r | r in rows[..i] :: r.key
    ensures DistinctKeys(rows[..i + 1])
  {
    forall j | 0 <= j < i ensures rows[j].key != rows[i].key {
      assert rows[j] in rows[..i];
    }
    assert forall j :: 0 <= j < i ==> rows[..i + 1][j] == rows[..i][j];
  }

  /** The attempts before k were busy; whether the write lands is decided there. */
  lemma {:induction false} LandsAt(weather: seq<Weather>, k: nat)
    requires |weather| == ATTEMPTS && k <= ATTEMPTS && forall j :: 0 <= j < k ==> weather[j].Busy?
    ensures k < ATTEMPTS && weather[k].Clear? ==> Lands(weather)
    ensures k == ATTEMPTS || weather[k].Broken? ==> !Lands(weather)
  {
  }
}
