/** Resolving every reference of a deployment, all or nothing. */
module Resolver {
  import opened Strings
  import opened Refs
  import PathPermissions

  // A job keeps what it looked up in memo tables; the results are those of looking
  // everything up anew.

  datatype Entry = Entry(key: string, ref: Ref)

  /** A stack's connection for a scheme. */
  datatype Connection = Connection(identity: string, prefixes: seq<string>, hasRules: bool, rules: seq<string>,
        source: string)

  datatype Field = Text(text: string) | Scalar(printed: string) | Structured
  datatype Project = Project(id: string, name: string)
  datatype Secret = Secret(key: string, value: string, note: string)

  /** What a provider can have looked up, and under which memo key. */
  datatype Key =
    | VaultRead(identity: string, path: string)
    | BwsProjects(identity: string)
    | BwsSecrets(identity: string, project: string)

  datatype Data = Fields(fields: map<string, Field>) | Projects(projects: seq<Project>) | Secrets(secrets: seq<Secret>)

  datatype Provider = Sops | Vault | Bws

  datatype Problem =
    | Expansion(problem: ExpandProblem)
    | NoProvider
    | NoConnection(reason: string)
    | PathNotAllowed
    | LookupFailed(reason: string)
    | NotFound
    | Ambiguous
    | BadReference

  datatype Failure = Failure(key: string, ref: Ref, problem: Problem)

  /** The outside of a job: what its callbacks and its providers' services answer. */
  datatype World = World(
    stackID: string,
    binding: string -> Result<Connection, string>,
    read: (string, string) -> Result<map<string, Field>, string>,
    projects: string -> Result<seq<Project>, string>,
    secrets: (string, string) -> Result<seq<Secret>, string>,
    encFile: bool,
    decrypt: Result<map<string, string>, string>
  ) {
    function Lookup(key: Key): Result<Data, string> {
      match key
      case VaultRead(identity, path) => (match read(identity, path) case Ok(f) => Ok(Fields(f)) case Err(e) => Err(e))
      case BwsProjects(identity) => (match projects(identity) case Ok(p) => Ok(Projects(p)) case Err(e) => Err(e))
      case BwsSecrets(identity, project) =>
        (match secrets(identity, project) case Ok(s) => Ok(Secrets(s)) case Err(e) => Err(e))
    }

    /** encFileValues: the file must be there before it can be decrypted. */
    function EncValues(): Result<map<string, string>, string> {
      if !encFile then Err("not found") else decrypt
    }
  }

  const ENC_FILE_NAME := "secrets.enc.yaml"

  predicate NeedsConnection(p: Provider) {
    !p.Sops?
  }

  function SchemeOf(p: Provider): string {
    match p case Sops => "sops" case Vault => "vault" case Bws => "bws"
  }

  // ---- memo keys as the text they are in the code

  function KeyText(k: Key): string {
    match k
    case VaultRead(identity, path) => "vault|" + identity + "|" + path
    case BwsProjects(identity) => "bws-projects:" + identity
    case BwsSecrets(identity, project) => "bws-secrets:" + identity + ":" + project
  }

  lemma {:induction false} CutUnique(x: string, c: char, y: string, x': string, y': string)
    requires c !in x && c !in x' && x + [c] + y == x' + [c] + y'
    ensures x == x' && y == y'
  {
    var s := x + [c] + y;
    assert s[|x|] == c && s[|x'|] == c;
    assert forall i :: 0 <= i < |x| ==> s[i] == x[i];
    assert forall i :: 0 <= i < |x'| ==> s[i] == x'[i];
    assert x == s[..|x|] && x' == s[..|x'|];
    assert y == s[|x| + 1..] && y' == s[|x'| + 1..];
  }

  /** The first letters of a key's text say its kind. */
  lemma {:induction false} KeyTextKind(k: Key)
    ensures k.VaultRead? <==> KeyText(k)[0] == 'v'
    ensures k.BwsProjects? <==> |KeyText(k)| > 4 && KeyText(k)[0] == 'b' && KeyText(k)[4] == 'p'
  {
  }

  /** What follows the kind. */
  function KeyRest(k: Key): string {
    match k
    case VaultRead(identity, path) => identity + ['|'] + path
    case BwsProjects(identity) => identity
    case BwsSecrets(identity, project) => identity + [':'] + project
  }

  lemma {:induction false} KeyTextRest(k: Key)
    ensures var n := if k.VaultRead? then 6 else if k.BwsProjects? then 13 else 12;
            |KeyText(k)| >= n && KeyText(k)[n..] == KeyRest(k)
  {
  }

  /** Two memo keys never share a text: an identity is hexadecimal, so it holds neither separator. */
  lemma {:induction false} KeyTextInjective(k: Key, m: Key)
    requires '|' !in k.identity && ':' !in k.identity && '|' !in m.identity && ':' !in m.identity
    ensures KeyText(k) == KeyText(m) <==> k == m
  {
    hide KeyText;
    KeyTextKind(k);
    KeyTextKind(m);
    KeyTextRest(k);
    KeyTextRest(m);
    if KeyText(k) == KeyText(m) {
      match k
      case VaultRead(identity, path) => CutUnique(identity, '|', path, m.identity, m.path);
      case BwsProjects(identity) =>
      case BwsSecrets(identity, project) => CutUnique(identity, ':', project, m.identity, m.project);
    }
  }

  // ---- one reference, without any table

  function PickField(fields: map<string, Field>, name: string): Result<string, Problem> {
    if name !in fields then Err(NotFound)
    else
      match fields[name]
      case Text(t) => Ok(t)
      case Scalar(t) => Ok(t)
      case Structured => Err(BadReference)
  }

  function Named(projects: seq<Project>, name: string): seq<string> {
    if projects == [] then []
    else (if projects[0].name == name then [projects[0].id] else []) + Named(projects[1..], name)
  }

  function Keyed(secrets: seq<Secret>, key: string): seq<Secret> {
    if secrets == [] then []
    else (if secrets[0].key == key then [secrets[0]] else []) + Keyed(secrets[1..], key)
  }

  function PickSecret(secrets: seq<Secret>, key: string, field: string): Result<string, Problem> {
    var found := Keyed(secrets, key);
    if |found| == 0 then Err(NotFound)
    else if |found| > 1 then Err(Ambiguous)
    else Ok(if field == "note" then found[0].note else found[0].value)
  }

  function PickProject(projects: seq<Project>, name: string): Result<string, Problem> {
    var ids := Named(projects, name);
    if |ids| == 0 then Err(NotFound) else if |ids| > 1 then Err(Ambiguous) else Ok(ids[0])
  }

  function FromVault(w: World, c: Connection, ref: Ref): Result<string, Problem> {
    if '/' !in ref.path then Err(BadReference)
    else
      match w.read(c.identity, ref.path)
      case Err(e) => Err(LookupFailed(e))
      case Ok(fields) => PickField(fields, ref.field)
  }

  function FromBws(w: World, c: Connection, ref: Ref): Result<string, Problem> {
    var segs := Split(ref.path, '/');
    if |segs| != 2 || (ref.field != "value" && ref.field != "note") then Err(BadReference)
    else
      match w.projects(c.identity)
      case Err(e) => Err(LookupFailed(e))
      case Ok(projects) =>
        match PickProject(projects, segs[0])
        case Err(p) => Err(p)
        case Ok(id) =>
          match w.secrets(c.identity, id)
          case Err(e) => Err(LookupFailed(e))
          case Ok(secrets) => PickSecret(secrets, segs[1], ref.field)
  }

  function FromSops(w: World, ref: Ref): Result<string, Problem> {
    if ref.path != ENC_FILE_NAME then Err(BadReference)
    else
      match w.EncValues()
      case Err(e) => Err(LookupFailed(e))
      case Ok(values) => if ref.field in values then Ok(values[ref.field]) else Err(NotFound)
  }

  // ---- what these answers are, on what the services hold

  /** The i-th is the only one with the name. */
  ghost predicate OnlyAt(names: seq<string>, name: string, i: int) {
    0 <= i < |names| && names[i] == name && forall j :: 0 <= j < |names| && j != i ==> names[j] != name
  }

  ghost predicate Twice(names: seq<string>, name: string) {
    exists i, j :: 0 <= i < j < |names| && names[i] == name && names[j] == name
  }

  function NamesOf(projects: seq<Project>): (r: seq<string>)
    ensures |r| == |projects| && forall i :: 0 <= i < |r| ==> r[i] == projects[i].name
  {
    seq(|projects|, i requires 0 <= i < |projects| => projects[i].name)
  }

  function KeysOf(secrets: seq<Secret>): (r: seq<string>)
    ensures |r| == |secrets| && forall i :: 0 <= i < |r| ==> r[i] == secrets[i].key
  {
    seq(|secrets|, i requires 0 <= i < |secrets| => secrets[i].key)
  }

  /** The answer for a key among a project's secrets: that of the only one with the key. */
  ghost predicate SecretAnswer(held: Result<seq<Secret>, string>, key: string, field: string,
        r: Result<string, Problem>) {
    match held
    case Err(e) => r == Err(LookupFailed(e))
    case Ok(ss) =>
      && (key !in KeysOf(ss) ==> r == Err(NotFound))
      && (Twice(KeysOf(ss), key) ==> r == Err(Ambiguous))
      && (forall i :: OnlyAt(KeysOf(ss), key, i) && field == "value" ==> r == Ok(ss[i].value))
      && (forall i :: OnlyAt(KeysOf(ss), key, i) && field == "note" ==> r == Ok(ss[i].note))
  }

  /** The answer for <project>/<key>: the project must be the only one of its name too. */
  ghost predicate BwsAnswer(w: World, c: Connection, ref: Ref, r: Result<string, Problem>) {
    var segs := Split(ref.path, '/');
    if |segs| != 2 || ref.field !in ["value", "note"] then r == Err(BadReference)
    else
      match w.projects(c.identity)
      case Err(e) => r == Err(LookupFailed(e))
      case Ok(ps) =>
        && (segs[0] !in NamesOf(ps) ==> r == Err(NotFound))
        && (Twice(NamesOf(ps), segs[0]) ==> r == Err(Ambiguous))
        && (forall i :: OnlyAt(NamesOf(ps), segs[0], i) ==>
              SecretAnswer(w.secrets(c.identity, ps[i].id), segs[1], ref.field, r))
  }

  /** The answer for a field of a vault path: its text, if it is one. */
  ghost predicate VaultAnswer(w: World, c: Connection, ref: Ref, r: Result<string, Problem>) {
    if '/' !in ref.path then r == Err(BadReference)
    else
      match w.read(c.identity, ref.path)
      case Err(e) => r == Err(LookupFailed(e))
      case Ok(fields) =>
        && (ref.field !in fields ==> r == Err(NotFound))
        && (ref.field in fields && fields[ref.field].Text? ==> r == Ok(fields[ref.field].text))
        && (ref.field in fields && fields[ref.field].Scalar? ==> r == Ok(fields[ref.field].printed))
        && (ref.field in fields && fields[ref.field].Structured? ==> r == Err(BadReference))
  }

  /** The answer for a key of the stack's encrypted file. */
  ghost predicate SopsAnswer(w: World, ref: Ref, r: Result<string, Problem>) {
    if ref.path != "secrets.enc.yaml" then r == Err(BadReference)
    else if !w.encFile then r == Err(LookupFailed("not found"))
    else
      match w.decrypt
      case Err(e) => r == Err(LookupFailed(e))
      case Ok(values) => r == if ref.field in values then Ok(values[ref.field]) else Err(NotFound)
  }

  lemma {:induction false} TwiceLater(names: seq<string>, name: string)
    requires names != [] && names[0] != name
    ensures Twice(names, name) ==> Twice(names[1..], name)
  {
    if i, j :| 0 <= i < j < |names| && names[i] == name && names[j] == name {
      assert names[1..][i - 1] == name && names[1..][j - 1] == name;
    }
  }

  lemma {:induction false} NamedMeans(projects: seq<Project>, name: string)
    ensures name !in NamesOf(projects) ==> Named(projects, name) == []
    ensures forall i :: OnlyAt(NamesOf(projects), name, i) ==> Named(projects, name) == [projects[i].id]
    ensures name in NamesOf(projects) ==> |Named(projects, name)| >= 1
    ensures Twice(NamesOf(projects), name) ==> |Named(projects, name)| >= 2
    decreases |projects|
  {
    var names := NamesOf(projects);
    if projects != [] {
      var rest := projects[1..];
      NamedMeans(rest, name);
      assert NamesOf(rest) == names[1..];
      assert forall j :: 1 <= j < |names| ==> names[j] == names[1..][j - 1];
      if names[0] == name && name !in names[1..] {
        assert Named(projects, name) == [projects[0].id];
        assert forall i :: OnlyAt(names, name, i) ==> i == 0;
      } else if names[0] != name {
        forall i | OnlyAt(names, name, i) ensures Named(projects, name) == [projects[i].id] {
          assert OnlyAt(names[1..], name, i - 1);
        }
        TwiceLater(names, name);
      }
    }
  }

  lemma {:induction false} KeyedMeans(secrets: seq<Secret>, key: string)
    ensures key !in KeysOf(secrets) ==> Keyed(secrets, key) == []
    ensures forall i :: OnlyAt(KeysOf(secrets), key, i) ==> Keyed(secrets, key) == [secrets[i]]
    ensures key in KeysOf(secrets) ==> |Keyed(secrets, key)| >= 1
    ensures Twice(KeysOf(secrets), key) ==> |Keyed(secrets, key)| >= 2
    decreases |secrets|
  {
    var keys := KeysOf(secrets);
    if secrets != [] {
      var rest := secrets[1..];
      KeyedMeans(rest, key);
      assert KeysOf(rest) == keys[1..];
      assert forall j :: 1 <= j < |keys| ==> keys[j] == keys[1..][j - 1];
      if keys[0] == key && key !in keys[1..] {
        assert Keyed(secrets, key) == [secrets[0]];
        assert forall i :: OnlyAt(keys, key, i) ==> i == 0;
      } else if keys[0] != key {
        forall i | OnlyAt(keys, key, i) ensures Keyed(secrets, key) == [secrets[i]] {
          assert OnlyAt(keys[1..], key, i - 1);
        }
        TwiceLater(keys, key);
      }
    }
  }

  lemma {:induction false} PickSecretMeans(held: Result<seq<Secret>, string>, key: string, field: string)
    requires held.Ok?
    ensures SecretAnswer(held, key, field, PickSecret(held.value, key, field))
  {
    hide Keyed, Twice;
    KeyedMeans(held.value, key);
  }

  lemma {:induction false} BwsMeans(w: World, c: Connection, ref: Ref)
    ensures BwsAnswer(w, c, ref, FromBws(w, c, ref))
  {
    hide Split, Named, PickSecret, SecretAnswer, Twice;
    var segs, all := Split(ref.path, '/'), w.projects(c.identity);
    if |segs| == 2 && ref.field in ["value", "note"] && all.Ok? {
      NamedMeans(all.value, segs[0]);
      forall i | OnlyAt(NamesOf(all.value), segs[0], i)
        ensures SecretAnswer(w.secrets(c.identity, all.value[i].id), segs[1], ref.field, FromBws(w, c, ref))
      {
        OneProject(w, c, ref, i);
      }
    }
  }

  lemma {:induction false} OneProject(w: World, c: Connection, ref: Ref, i: int)
    requires |Split(ref.path, '/')| == 2 && ref.field in ["value", "note"] && w.projects(c.identity).Ok?
    requires OnlyAt(NamesOf(w.projects(c.identity).value), Split(ref.path, '/')[0], i)
    ensures SecretAnswer(w.secrets(c.identity, w.projects(c.identity).value[i].id), Split(ref.path, '/')[1], ref.field,
                         FromBws(w, c, ref))
  {
    hide Split, Named, PickSecret;
    var all := w.projects(c.identity).value;
    NamedMeans(all, Split(ref.path, '/')[0]);
    var held := w.secrets(c.identity, all[i].id);
    if held.Ok? { PickSecretMeans(held, Split(ref.path, '/')[1], ref.field); }
  }

  lemma {:induction false} VaultMeans(w: World, c: Connection, ref: Ref)
    ensures VaultAnswer(w, c, ref, FromVault(w, c, ref))
  {
  }

  lemma {:induction false} SopsMeans(w: World, ref: Ref)
    ensures SopsAnswer(w, ref, FromSops(w, ref))
  {
  }

  ghost predicate MayRead(c: Connection, path: string) {
    PathPermissions.Allows(c.prefixes, c.hasRules, c.rules, path)
  }

  /** What an expanded reference gives, through its provider. */
  ghost function Fetch(w: World, p: Provider, ref: Ref): Result<string, Problem> {
    if p.Sops? then FromSops(w, ref)
    else
      match w.binding(SchemeOf(p))
      case Err(e) => Err(NoConnection(e))
      case Ok(c) =>
        if !MayRead(c, ref.path) then Err(PathNotAllowed)
        else if p.Vault? then FromVault(w, c, ref) else FromBws(w, c, ref)
  }

  /** One entry on its own: the value, or the failure that would be reported for it. */
  ghost function Alone(w: World, providers: map<string, Provider>, e: Entry): Result<string, Failure> {
    match ExpandStack(e.ref, w.stackID)
    case Err(p) => Err(Failure(e.key, e.ref, Expansion(p)))
    case Ok(ref) =>
      if ref.scheme !in providers then Err(Failure(e.key, ref, NoProvider))
      else
        match Fetch(w, providers[ref.scheme], ref)
        case Err(p) => Err(Failure(e.key, ref, p))
        case Ok(v) => Ok(v)
  }

  /** The answer for an expanded reference. A provider with a connection is asked only if
      the connection is there and the stack may read the path. */
  ghost predicate FetchAnswer(w: World, p: Provider, ref: Ref, r: Result<string, Problem>) {
    if p.Sops? then SopsAnswer(w, ref, r)
    else
      match w.binding(if p.Vault? then "vault" else "bws")
      case Err(e) => r == Err(NoConnection(e))
      case Ok(c) =>
        if !MayRead(c, ref.path) then r == Err(PathNotAllowed)
        else if p.Vault? then VaultAnswer(w, c, ref, r)
        else BwsAnswer(w, c, ref, r)
  }

  lemma {:induction false} FetchMeans(w: World, p: Provider, ref: Ref)
    ensures FetchAnswer(w, p, ref, Fetch(w, p, ref))
  {
    hide BwsAnswer, VaultAnswer, SopsAnswer, FromBws, FromVault, FromSops, MayRead;
    SopsMeans(w, ref);
    if !p.Sops? {
      var bound := w.binding(SchemeOf(p));
      if bound.Ok? {
        VaultMeans(w, bound.value, ref);
        BwsMeans(w, bound.value, ref);
      }
    }
  }

  /** The answer for one entry: the value, or one failure that names the entry. */
  ghost predicate EntryAnswer(w: World, providers: map<string, Provider>, e: Entry, r: Result<string, Failure>) {
    match ExpandStack(e.ref, w.stackID)
    case Err(p) => r == Err(Failure(e.key, e.ref, Expansion(p)))
    case Ok(ref) =>
      && (r.Err? ==> r.error.key == e.key && r.error.ref == ref)
      && var answer := if r.Ok? then Ok(r.value) else Err(r.error.problem);
         if ref.scheme in providers then FetchAnswer(w, providers[ref.scheme], ref, answer)
         else answer == Err(NoProvider)
  }

  lemma {:induction false} AloneMeans(w: World, providers: map<string, Provider>, e: Entry)
    ensures EntryAnswer(w, providers, e, Alone(w, providers, e))
  {
    hide FetchAnswer, Fetch, ExpandStack;
    var expanded := ExpandStack(e.ref, w.stackID);
    if expanded.Ok? && expanded.value.scheme in providers {
      FetchMeans(w, providers[expanded.value.scheme], expanded.value);
    }
  }

  ghost function Failures(w: World, providers: map<string, Provider>, entries: seq<Entry>): seq<Failure> {
    if entries == [] then []
    else
      var last := entries[|entries| - 1];
      var before := Failures(w, providers, entries[..|entries| - 1]);
      match Alone(w, providers, last)
      case Ok(_) => before
      case Err(f) => before + [f]
  }

  ghost predicate AllAlone(w: World, providers: map<string, Provider>, entries: seq<Entry>) {
    forall i :: 0 <= i < |entries| ==> Alone(w, providers, entries[i]).Ok?
  }

  /** at lists, in file order, exactly the entries that fail, and report says why each does. */
  ghost predicate ReportsAt(w: World, providers: map<string, Provider>, entries: seq<Entry>, at: seq<nat>,
        report: seq<Failure>) {
    && |at| == |report|
    && (forall k :: 0 <= k < |at| ==> at[k] < |entries| && Alone(w, providers, entries[at[k]]) == Err(report[k]))
    && (forall j, k :: 0 <= j < k < |at| ==> at[j] < at[k])
    && (forall i :: 0 <= i < |entries| && Alone(w, providers, entries[i]).Err? ==> i in at)
  }

  lemma {:induction false} ReportGrows(w: World, providers: map<string, Provider>, entries: seq<Entry>, e: Entry,
        at: seq<nat>, report: seq<Failure>)
    requires ReportsAt(w, providers, entries, at, report)
    ensures Alone(w, providers, e).Ok? ==> ReportsAt(w, providers, entries + [e], at, report)
    ensures Alone(w, providers, e).Err? ==>
              ReportsAt(w, providers, entries + [e], at + [|entries|], report + [Alone(w, providers, e).error])
  {
    var more := entries + [e];
    assert forall i :: 0 <= i < |entries| ==> more[i] == entries[i];
    assert more[|entries|] == e;
    if Alone(w, providers, e).Err? {
      var next := at + [|entries|];
      forall i | 0 <= i < |more| && Alone(w, providers, more[i]).Err? ensures i in next {
        if i < |entries| { assert i in at; } else { assert next[|at|] == i; }
      }
    }
  }

  /** Exactly the failing entries are reported, each once, in file order. */
  lemma {:induction false} FailuresAreInOrder(w: World, providers: map<string, Provider>, entries: seq<Entry>)
    returns (at: seq<nat>)
    ensures ReportsAt(w, providers, entries, at, Failures(w, providers, entries))
  {
    if entries == [] {
      at := [];
    } else {
      var n := |entries| - 1;
      var before := FailuresAreInOrder(w, providers, entries[..n]);
      assert entries == entries[..n] + [entries[n]];
      ReportGrows(w, providers, entries[..n], entries[n], before, Failures(w, providers, entries[..n]));
      at := if Alone(w, providers, entries[n]).Err? then before + [n] else before;
    }
  }

  lemma {:induction false} NoFailures(w: World, providers: map<string, Provider>, entries: seq<Entry>)
    ensures Failures(w, providers, entries) == [] <==> AllAlone(w, providers, entries)
  {
    var at := FailuresAreInOrder(w, providers, entries);
    if i :| 0 <= i < |entries| && Alone(w, providers, entries[i]).Err? { assert i in at; }
    if |at| > 0 { assert Alone(w, providers, entries[at[0]]).Err?; }
  }

  // ---- a job and its tables

  class Job {
    const world: World
    var effective: map<string, Result<Connection, string>>
    var memo: map<Key, Result<Data, string>>
    var encLoaded: bool
    var encValues: Result<map<string, string>, string>

    // what was really asked of the outside, in order
    ghost var bound: seq<string>
    ghost var computed: seq<Key>
    ghost var decrypted: nat
    ghost var called: seq<(Provider, string)>

    constructor (world: World)
      ensures this.world == world && Valid() && called == []
    {
      this.world := world;
      effective, memo := map[], map[];
      encLoaded, encValues := false, Err("");
      bound, computed, decrypted, called := [], [], 0, [];
    }

    /** The tables hold nothing but true answers, and each was asked for once. */
    ghost predicate Valid()
      reads this
    {
      && (forall s :: s in effective ==> effective[s] == world.binding(s))
      && (forall k :: k in memo ==> memo[k] == world.Lookup(k))
      && (encLoaded ==> encValues == world.EncValues())
      && Once(bound) && (forall s :: s in bound <==> s in effective)
      && Once(computed) && (forall k :: k in computed <==> k in memo)
      && decrypted <= 1 && (!encLoaded ==> decrypted == 0)
      && OnlyAllowed(world, called)
    }

    method Effective(scheme: string) returns (r: Result<Connection, string>)
      requires Valid()
      modifies `effective, `bound
      ensures Valid() && r == world.binding(scheme)
    {
      if scheme in effective { return effective[scheme]; }
      r := world.binding(scheme);
      effective := effective[scheme := r];
      bound := bound + [scheme];
    }

    method Memo(key: Key) returns (r: Result<Data, string>)
      requires Valid()
      modifies `memo, `computed
      ensures Valid() && r == world.Lookup(key) && called == old(called)
    {
      if key in memo { return memo[key]; }
      r := world.Lookup(key);
      memo := memo[key := r];
      computed := computed + [key];
    }

    method EncFileValues() returns (r: Result<map<string, string>, string>)
      requires Valid()
      modifies `encLoaded, `encValues, `decrypted
      ensures Valid() && r == world.EncValues()
    {
      if !encLoaded {
        encLoaded := true;
        if !world.encFile {
          encValues := Err("not found");
        } else {
          encValues := world.decrypt;
          decrypted := decrypted + 1;
        }
      }
      r := encValues;
    }

    /** A provider's own Resolve, once the path was found to be allowed. */
    method ResolveWith(p: Provider, ref: Ref) returns (r: Result<string, Problem>)
      requires Valid()
      requires NeedsConnection(p) ==>
          world.binding(SchemeOf(p)).Ok? && MayRead(world.binding(SchemeOf(p)).value, ref.path)
      modifies this
      ensures Valid() && r == Fetch(world, p, ref)
      ensures called == old(called) + [(p, ref.path)]
    {
      called := called + [(p, ref.path)];
      match p
      case Sops =>
        r := ResolveSops(ref);
      case Vault =>
        var c := Effective("vault");
        r := ResolveVault(c.value, ref);
      case Bws =>
        var c := Effective("bws");
        r := ResolveBws(c.value, ref);
    }

    method ResolveSops(ref: Ref) returns (r: Result<string, Problem>)
      requires Valid()
      modifies `encLoaded, `encValues, `decrypted
      ensures Valid() && r == FromSops(world, ref) && SopsAnswer(world, ref, r)
    {
      SopsMeans(world, ref);
      if ref.path != ENC_FILE_NAME { return Err(BadReference); }
      var values := EncFileValues();
      if values.Err? { return Err(LookupFailed(values.error)); }
      if ref.field !in values.value { return Err(NotFound); }
      r := Ok(values.value[ref.field]);
    }

    method ResolveVault(c: Connection, ref: Ref) returns (r: Result<string, Problem>)
      requires Valid()
      modifies `memo, `computed
      ensures Valid() && r == FromVault(world, c, ref) && VaultAnswer(world, c, ref, r)
    {
      VaultMeans(world, c, ref);
      if '/' !in ref.path { return Err(BadReference); }
      var data := Memo(VaultRead(c.identity, ref.path));
      if data.Err? { return Err(LookupFailed(data.error)); }
      r := PickField(data.value.fields, ref.field);
    }

    method ResolveBws(c: Connection, ref: Ref) returns (r: Result<string, Problem>)
      requires Valid()
      modifies `memo, `computed
      ensures Valid() && r == FromBws(world, c, ref) && BwsAnswer(world, c, ref, r)
    {
      hide BwsAnswer;
      BwsMeans(world, c, ref);
      var segs := Split(ref.path, '/');
      if |segs| != 2 || (ref.field != "value" && ref.field != "note") { return Err(BadReference); }
      var all := Memo(BwsProjects(c.identity));
      if all.Err? { return Err(LookupFailed(all.error)); }
      var id := PickProject(all.value.projects, segs[0]);
      if id.Err? { return Err(id.error); }
      var held := Memo(BwsSecrets(c.identity, id.value));
      if held.Err? { return Err(LookupFailed(held.error)); }
      r := PickSecret(held.value.secrets, segs[1], ref.field);
    }
  }

  ghost predicate Once<T(!new)>(s: seq<T>) {
    forall i, j :: 0 <= i < j < |s| ==> s[i] != s[j]
  }

  /** Every call to a provider with a connection was for a path the stack may read. */
  ghost predicate OnlyAllowed(w: World, called: seq<(Provider, string)>) {
    forall i :: 0 <= i < |called| && NeedsConnection(called[i].0) ==>
      w.binding(SchemeOf(called[i].0)).Ok? && MayRead(w.binding(SchemeOf(called[i].0)).value, called[i].1)
  }

  // ---- the resolver

  /** Env, the keys of the encrypted file nobody picks up, and (scheme, source) of the connections used. */
  datatype Resolved = Resolved(env: map<string, string>, notes: set<string>, sources: set<(string, string)>)

  ghost predicate RightEnv(w: World, providers: map<string, Provider>, entries: seq<Entry>, env: map<string, string>) {
    && (forall k :: k in env <==> exists i :: 0 <= i < |entries| && entries[i].key == k)
    && forall i :: 0 <= i < |entries| && LastOfKey(entries, i) ==>
         entries[i].key in env && Alone(w, providers, entries[i]) == Ok(env[entries[i].key])
  }

  ghost function PickedFields(entries: seq<Entry>): set<string> {
    set i | 0 <= i < |entries| && entries[i].ref.scheme == "sops" :: entries[i].ref.field
  }

  class Resolver {
    var providers: map<string, Provider>

    ghost predicate Valid()
      reads this
    {
      forall s :: s in providers ==> SchemeOf(providers[s]) == s
    }

    constructor (list: seq<Provider>)
      ensures Valid() && forall p :: p in list <==> SchemeOf(p) in providers && providers[SchemeOf(p)] == p
    {
      providers := map[];
      new;
      for n := 0 to |list|
        invariant Valid()
        invariant forall p :: p in list[..n] <==> SchemeOf(p) in providers && providers[SchemeOf(p)] == p
      {
        assert list[..n + 1] == list[..n] + [list[n]];
        assert forall p, q :: SchemeOf(p) == SchemeOf(q) ==> p == q;
        providers := providers[SchemeOf(list[n]) := list[n]];
      }
      assert list[..|list|] == list;
    }

    method ResolveEntry(job: Job, e: Entry) returns (r: Result<string, Failure>)
      requires Valid() && job.Valid()
      modifies job
      ensures job.Valid() && r == Alone(job.world, providers, e) && EntryAnswer(job.world, providers, e, r)
    {
      hide EntryAnswer;
      AloneMeans(job.world, providers, e);
      var expanded := ExpandStack(e.ref, job.world.stackID);
      if expanded.Err? { return Err(Failure(e.key, e.ref, Expansion(expanded.error))); }
      var ref := expanded.value;
      if ref.scheme !in providers { return Err(Failure(e.key, ref, NoProvider)); }
      var p := providers[ref.scheme];
      if NeedsConnection(p) {
        var eff := job.Effective(ref.scheme);
        if eff.Err? { return Err(Failure(e.key, ref, NoConnection(eff.error))); }
        var c := eff.value;
        var allowed := PathPermissions.Decide(c.prefixes, c.hasRules, c.rules, ref.path);
        if !allowed { return Err(Failure(e.key, ref, PathNotAllowed)); }
      }
      var v := job.ResolveWith(p, ref);
      if v.Err? { return Err(Failure(e.key, ref, v.error)); }
      r := Ok(v.value);
    }

    /** All entries or none: the environment when each entry resolves on its own,
        otherwise every failure in file order. */
    method Resolve(job: Job, entries: seq<Entry>) returns (r: Result<Resolved, seq<Failure>>)
      requires Valid() && job.Valid()
      modifies job
      ensures job.Valid()
      ensures r.Ok? <==> AllAlone(job.world, providers, entries)
      ensures r.Ok? ==> RightEnv(job.world, providers, entries, r.value.env)
      ensures r.Ok? ==>
                r.value.notes
                == (if job.world.EncValues().Ok? then job.world.EncValues().value.Keys - PickedFields(entries) else {})
      ensures r.Ok? ==> forall s, source :: (s, source) in r.value.sources <==>
                (exists i :: 0 <= i < |entries| && entries[i].ref.scheme == s) && job.world.binding(s).Ok?
                  && job.world.binding(s).value.source == source
      ensures r.Err? ==> r.error == Failures(job.world, providers, entries)
    {
      hide Alone, RightEnv, PickedFields, AllAlone;
      var env: map<string, string> := map[];
      var failures: seq<Failure> := [];
      NothingResolved(job.world, providers);
      assert entries[..0] == [];
      for n := 0 to |entries|
        invariant Valid() && job.Valid()
        invariant failures == Failures(job.world, providers, entries[..n])
        invariant failures == [] ==> RightEnv(job.world, providers, entries[..n], env)
      {
        var v := ResolveEntry(job, entries[n]);
        assert entries[..n + 1][..n] == entries[..n];
        if v.Ok? && failures == [] { EnvGrows(job.world, providers, entries[..n], env, entries[n]); }
        assert entries[..n + 1] == entries[..n] + [entries[n]];
        if v.Err? {
          failures := failures + [v.error];
        } else {
          env := env[entries[n].key := v.value];
        }
      }
      assert entries[..|entries|] == entries;
      NoFailures(job.world, providers, entries);
      if failures != [] { return Err(failures); }
      var notes := UnreferencedEncKeys(job, entries);
      var sources := UsedSources(job, entries);
      r := Ok(Resolved(env, notes, sources));
    }

    method UnreferencedEncKeys(job: Job, entries: seq<Entry>) returns (missing: set<string>)
      requires job.Valid()
      modifies job
      ensures job.Valid()
      ensures missing == (if job.world.EncValues().Ok? then job.world.EncValues().value.Keys - PickedFields(entries)
          else {})
    {
      if !job.world.encFile { return {}; }
      var values := job.EncFileValues();
      if values.Err? { return {}; }
      var used: set<string> := {};
      for n := 0 to |entries|
        invariant used == PickedFields(entries[..n])
        invariant job.Valid()
      {
        PickedGrows(entries, n);
        if entries[n].ref.scheme == "sops" { used := used + {entries[n].ref.field}; }
      }
      assert entries[..|entries|] == entries;
      missing := values.value.Keys - used;
    }

    method UsedSources(job: Job, entries: seq<Entry>) returns (sources: set<(string, string)>)
      requires job.Valid()
      modifies job
      ensures job.Valid()
      ensures forall s, source :: (s, source) in sources <==>
                (exists i :: 0 <= i < |entries| && entries[i].ref.scheme == s) && job.world.binding(s).Ok?
                  && job.world.binding(s).value.source == source
    {
      sources := {};
      var seen: set<string> := {};
      for n := 0 to |entries|
        invariant job.Valid()
        invariant forall s :: s in seen <==> exists i :: 0 <= i < n && entries[i].ref.scheme == s
        invariant forall s, source :: (s, source) in sources <==>
                    s in seen && job.world.binding(s).Ok? && job.world.binding(s).value.source == source
      {
        var scheme := entries[n].ref.scheme;
        if scheme !in seen {
          seen := seen + {scheme};
          var eff := job.Effective(scheme);
          if eff.Ok? { sources := sources + {(scheme, eff.value.source)}; }
        }
      }
    }
  }

  lemma {:induction false} PickedGrows(entries: seq<Entry>, n: nat)
    requires n < |entries|
    ensures PickedFields(entries[..n + 1]) ==
            PickedFields(entries[..n]) + (if entries[n].ref.scheme == "sops" then {entries[n].ref.field} else {})
  {
    var a, b := entries[..n], entries[..n + 1];
    assert forall i :: 0 <= i < n ==> a[i] == b[i];
    assert b[n] == entries[n];
    forall f | f in PickedFields(a) ensures f in PickedFields(b) {
      var i :| 0 <= i < n && a[i].ref.scheme == "sops" && a[i].ref.field == f;
      assert b[i].ref.field == f;
    }
  }

  lemma {:induction false} NothingResolved(w: World, providers: map<string, Provider>)
    ensures RightEnv(w, providers, [], map[])
  {
  }

  lemma {:induction false} KeysGrow(entries: seq<Entry>, keys: set<string>, e: Entry)
    requires forall k :: k in keys <==> exists i :: 0 <= i < |entries| && entries[i].key == k
    ensures forall k :: k in keys + {e.key} <==> exists i :: 0 <= i < |entries + [e]| && (entries + [e])[i].key == k
  {
    var more := entries + [e];
    forall k ensures k in keys + {e.key} <==> exists i :: 0 <= i < |more| && more[i].key == k {
      if k in keys {
        var i :| 0 <= i < |entries| && entries[i].key == k;
        assert more[i].key == k;
      }
      assert more[|entries|].key == e.key;
      if i :| 0 <= i < |more| && more[i].key == k && k != e.key { assert entries[i].key == k; }
    }
  }

  /** No later entry has the key. */
  predicate LastOfKey(entries: seq<Entry>, i: nat)
    requires i < |entries|
  {
    forall j :: i < j < |entries| ==> entries[j].key != entries[i].key
  }

  lemma {:induction false} LastBefore(entries: seq<Entry>, e: Entry, i: nat)
    requires i < |entries| && LastOfKey(entries + [e], i)
    ensures LastOfKey(entries, i) && entries[i].key != e.key
  {
    var more := entries + [e];
    assert more[|entries|] == e;
    assert forall j :: i <= j < |entries| ==> more[j] == entries[j];
  }

  lemma {:induction false} EnvGrows(w: World, providers: map<string, Provider>, entries: seq<Entry>,
        env: map<string, string>, e: Entry)
    requires RightEnv(w, providers, entries, env) && Alone(w, providers, e).Ok?
    ensures RightEnv(w, providers, entries + [e], env[e.key := Alone(w, providers, e).value])
  {
    hide Alone, LastOfKey;
    var more, env' := entries + [e], env[e.key := Alone(w, providers, e).value];
    KeysGrow(entries, env.Keys, e);
    assert env'.Keys == env.Keys + {e.key};
    forall i | 0 <= i < |more| && LastOfKey(more, i)
      ensures more[i].key in env' && Alone(w, providers, more[i]) == Ok(env'[more[i].key])
    {
      if i < |entries| { LastBefore(entries, e, i); }
    }
  }
}
