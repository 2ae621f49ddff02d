/** internal/db/seed.go as it runs: loops over tables and files, one transaction per import. */
module SeedStore {
  import opened Basics
  import opened Seed
  import opened SeedMerge

  /** Validate, auth profiles. */
  method ValidateProfiles(w: World, profiles: map<string, SeedProfile>) returns (ok: bool)
    ensures ok <==> forall n :: n in profiles ==> ValidProfile(w, n, profiles[n])
  {
    var todo := profiles.Keys;
    while todo != {}
      invariant todo <= profiles.Keys
      invariant forall n :: n in profiles && n !in todo ==> ValidProfile(w, n, profiles[n])
      decreases todo
    {
      var n :| n in todo;
      var p := profiles[n];
      if w.blank(n) || !ValidMethod(p.authMethod) {
        return false;
      }
      if p.authMethod == "github_app" && p.appId == 0 {
        return false;
      }
      todo := todo - {n};
    }
    return true;
  }

  /** Validate, pools: one pass with the names seen so far. */
  method ValidatePools(w: World, pools: seq<SeedPool>) returns (ok: bool)
    ensures ok <==> (forall i :: 0 <= i < |pools| ==> ValidPool(w, pools[i])) &&
                    (forall i, j :: 0 <= i < j < |pools| ==> pools[i].name != pools[j].name)
  {
    hide ValidPool;
    var seen: set<string> := {};
    for i := 0 to |pools|
      invariant forall n :: n in seen <==> exists j :: 0 <= j < i && pools[j].name == n
      invariant forall j :: 0 <= j < i ==> ValidPool(w, pools[j])
      invariant forall j, k :: 0 <= j < k < i ==> pools[j].name != pools[k].name
    {
      var valid := ValidatePool(w, pools[i], pools[i].name in seen);
      if !valid {
        return false;
      }
      seen := seen + {pools[i].name};
    }
    return true;
  }

  method ValidatePool(w: World, p: SeedPool, seen: bool) returns (ok: bool)
    ensures ok <==> ValidPool(w, p) && !seen
  {
    if w.blank(p.name) || seen || p.provider !in {"github", "gitea", "forgejo"} || w.blank(p.repositoryUrl) {
      return false;
    }
    var scope := p.scope;
    if scope == "" {
      scope := "repo";
    }
    ok := scope in {"repo", "org", "global"} && p.labels != [] && !w.blank(p.image) && !w.blank(p.authProfile);
  }

  /** Validate. */
  method Validate(w: World, cfg: Config) returns (ok: bool)
    ensures ok <==> ValidConfig(w, cfg)
  {
    ok := ValidateProfiles(w, cfg.profiles);
    if ok {
      ok := ValidatePools(w, cfg.pools);
    }
  }

  // ---------------------------------------------------------------- export

  method ExportSettings(w: World, settings: map<string, string>) returns (g: Global)
    ensures g == ExportGlobal(w, settings)
  {
    g := Global(0, 0, 0, 0);
    var todo := settings.Keys;
    while todo != {}
      invariant todo <= settings.Keys
      invariant g == ExportGlobal(w, map k | k in settings && k !in todo :: settings[k])
      decreases todo
    {
      var k :| k in todo;
      ghost var done := map k | k in settings && k !in todo :: settings[k];
      g := ReadSetting(w, g, k, settings[k]);
      ReadingOne(w, done, k, settings[k]);
      todo := todo - {k};
      assert done[k := settings[k]] == map k | k in settings && k !in todo :: settings[k];
    }
    assert settings == map k | k in settings && k !in todo :: settings[k];
  }

  function ReadSetting(w: World, g: Global, key: string, value: string): Global {
    match key
    case "total_allowed_runners" => g.(totalAllowed := w.atoi(value))
    case "total_idle_warm_pool" => g.(idleWarm := w.atoi(value))
    case "shutdown_timeout_seconds" => g.(shutdownTimeout := w.atoi(value))
    case "job_retention_days" => g.(retention := w.atoi(value))
    case _ => g
  }

  lemma ReadingOne(w: World, done: map<string, string>, key: string, value: string)
    requires key !in done
    ensures ReadSetting(w, ExportGlobal(w, done), key, value) == ExportGlobal(w, done[key := value])
  {
    assert |"total_allowed_runners"| == 21 && |"total_idle_warm_pool"| == 20;
    assert |"shutdown_timeout_seconds"| == 24 && |"job_retention_days"| == 18;
  }

  method SanitizeProfile(w: World, p: AuthProfile) returns (s: SeedProfile)
    ensures s == ExportProfile(w, p)
  {
    hide TokenEnv;
    s := SeedProfile(p.authMethod, 0, "", "", "", "", "", "");
    if p.appId.Some? {
      s := s.(appId := p.appId.value);
    }
    if p.privateKey.Some? && p.privateKey.value != "" {
      s := s.(privateKeyPath := REDACTED);
    }
    if p.token.Some? && p.token.value != "" {
      if p.authMethod == "gitea_token" {
        s := s.(giteaEnv := TokenEnv(w, p.name));
      } else if p.authMethod == "forgejo_token" {
        s := s.(forgejoEnv := TokenEnv(w, p.name));
      } else {
        s := s.(tokenEnv := TokenEnv(w, p.name));
      }
    }
  }

  /** The exported profiles, those in `todo` still missing. */
  ghost function ExportedBut(w: World, profiles: map<string, AuthProfile>, todo: set<string>)
    : map<string, SeedProfile>
  {
    map n | n in profiles && n !in todo :: ExportProfile(w, profiles[n])
  }

  lemma ExportedEnds(w: World, profiles: map<string, AuthProfile>)
    ensures ExportedBut(w, profiles, profiles.Keys) == map[]
    ensures ExportedBut(w, profiles, {}) == map n | n in profiles :: ExportProfile(w, profiles[n])
  {
    hide ExportProfile;
  }

  lemma ExportedMore(w: World, profiles: map<string, AuthProfile>, todo: set<string>, n: string)
    requires n in profiles && n in todo
    ensures ExportedBut(w, profiles, todo - {n}) == ExportedBut(w, profiles, todo)[n := ExportProfile(w, profiles[n])]
  {
    hide ExportProfile;
  }

  lemma NamesKnown(db: Database, nameById: map<int, string>)
    requires Integrity(db) && forall n :: n in db.profiles ==> db.profiles[n].id in nameById
    requires forall id :: id in nameById ==> nameById[id] in db.profiles && db.profiles[nameById[id]].id == id
    ensures forall id :: (if id in nameById then nameById[id] else "") == ProfileName(db, id)
  {
    forall id ensures (if id in nameById then nameById[id] else "") == ProfileName(db, id) {
      if id in nameById {
        assert HasProfile(db, id);
      }
    }
  }

  /** No import has finished, and there is no pool and no profile. */
  ghost predicate NeedsSeed(db: Database) {
    Lookup(db.settings, "seed_imported") != Some("true") && db.pools == map[] && db.profiles == map[]
  }

  datatype ImportOutcome = NoEncryptor | Refused | Broken | Unmarked | Done

  class Store {
    var db: Database
    const hasEncryptor: bool

    constructor (initial: Database, encryptor: bool)
      ensures db == initial && hasEncryptor == encryptor
    {
      db := initial;
      hasEncryptor := encryptor;
    }

    /** The profiles by name, and the name of each id. */
    method ExportProfiles(w: World) returns (out: map<string, SeedProfile>, nameById: map<int, string>)
      requires Integrity(db)
      ensures out == map n | n in db.profiles :: ExportProfile(w, db.profiles[n])
      ensures forall id :: (if id in nameById then nameById[id] else "") == ProfileName(db, id)
    {
      hide ExportProfile, ProfileName, ExportedBut;
      out, nameById := map[], map[];
      var todo := db.profiles.Keys;
      ExportedEnds(w, db.profiles);
      while todo != {}
        invariant todo <= db.profiles.Keys
        invariant out == ExportedBut(w, db.profiles, todo)
        invariant forall n :: n in db.profiles && n !in todo ==> db.profiles[n].id in nameById
        invariant forall id :: id in nameById ==> nameById[id] in db.profiles && db.profiles[nameById[id]].id == id
        decreases todo
      {
        var n :| n in todo;
        ExportedMore(w, db.profiles, todo, n);
        nameById := nameById[db.profiles[n].id := db.profiles[n].name];
        var s := SanitizeProfile(w, db.profiles[n]);
        out := out[db.profiles[n].name := s];
        todo := todo - {n};
      }
      NamesKnown(db, nameById);
    }

    /** ExportSanitizedConfig. */
    method ExportSanitizedConfig(w: World) returns (cfg: Config, ghost names: seq<string>)
      requires Integrity(db)
      ensures Lists(names, db.pools.Keys) && cfg == Export(w, db, names)
    {
      hide ExportProfile, Integrity, ProfileName, ExportGlobal;
      var g := ExportSettings(w, db.settings);
      var profiles, nameById := ExportProfiles(w);
      var pools: seq<SeedPool> := [];
      names := [];
      var todo := db.pools.Keys;
      while todo != {}
        invariant todo <= db.pools.Keys && |pools| == |names|
        invariant forall n :: n in names <==> n in db.pools && n !in todo
        invariant forall i, j :: 0 <= i < j < |names| ==> names[i] != names[j]
        invariant forall i :: 0 <= i < |names| ==>
                    names[i] in db.pools && pools[i] == ExportPool(w, db, db.pools[names[i]])
        decreases todo
      {
        var n :| n in todo;
        var p := DescribePool(w, db.pools[n], nameById);
        hide ExportPool;
        pools := pools + [p];
        names := names + [n];
        todo := todo - {n};
      }
      hide ExportPool;
      cfg := Config(g, profiles, pools);
      assert cfg.pools == Export(w, db, names).pools;
    }

    method DescribePool(w: World, r: PoolRow, nameById: map<int, string>) returns (p: SeedPool)
      requires forall id :: (if id in nameById then nameById[id] else "") == ProfileName(db, id)
      ensures p == ExportPool(w, db, r)
    {
      hide ProfileName;
      var labels := [r.labels];
      if w.decodeLabels(r.labels).Some? {
        labels := w.decodeLabels(r.labels).value;
      }
      var profile := if r.authProfileId in nameById then nameById[r.authProfileId] else "";
      p := SeedPool(r.name, r.provider, r.repositoryUrl, r.scope, profile, r.minIdle, r.maxConcurrency,
                    labels, r.image, r.allowDocker, r.lifetime, Text(r.cpu), Text(r.memory), None);
      if r.id in db.renovates {
        var row := db.renovates[r.id];
        p := p.(renovate := Some(SeedRenovate(row.enabled, Text(row.cron), row.image)));
      }
    }

    /** ShouldAutoImportSeed: None if the database failed.  A seed is imported on boot only into a database with
        no pool and no profile, and never once an import has finished. */
    method ShouldAutoImportSeed() returns (needed: Option<bool>)
      ensures needed.Some? ==> needed.value == NeedsSeed(db)
      ensures Lookup(db.settings, "seed_imported") == Some("true") ==> needed == Some(false)
    {
      if "seed_imported" in db.settings && db.settings["seed_imported"] == "true" {
        return Some(false);
      }
      var faulty: bool := *;
      if faulty {
        return None;
      }
      needed := Some(|db.pools| == 0 && |db.profiles| == 0);
    }

    /** ImportSeedConfig in merge mode.  Refused: the file itself; Broken: the database failed before the
        commit; Unmarked: it failed after. */
    method ImportSeedConfig(w: World, cfg: Config) returns (outcome: ImportOutcome, ghost order: seq<string>)
      modifies this
      ensures hasEncryptor <==> outcome != NoEncryptor
      ensures outcome in {NoEncryptor, Refused, Broken} ==> db == old(db)
      ensures outcome == Refused ==> !Importable(w, old(db), cfg)
      ensures outcome == Done ==> !NeedsSeed(db)
      ensures outcome in {Unmarked, Done} ==>
                && Lists(order, cfg.profiles.Keys) && Import(w, old(db), cfg, order).Some?
                && db == if outcome == Done then Marked(Import(w, old(db), cfg, order).value)
                   else Import(w, old(db), cfg, order).value
    {
      hide ImportGlobal, Marked;
      order := [];
      if !hasEncryptor {
        return NoEncryptor, order;
      }
      var valid := Validate(w, cfg);
      if !valid {
        return Refused, order;
      }
      var tx := db.(settings := ImportGlobal(w, db.settings, cfg.global));
      var ok, ids;
      ok, tx, ids, order := MergeProfiles(w, cfg, tx);
      var faulty: bool := *;
      if faulty {
        return Broken, order;
      }
      if !ok {
        return Refused, order;
      }
      hide ValidConfig;
      var base := tx;
      ok, tx := MergePools(w, cfg.pools, tx, ids);
      faulty := *;
      if faulty {
        return Broken, order;
      }
      if !ok {
        ImportMerges(w, db, cfg, order);
        return Refused, order;
      }
      db := tx;
      faulty := *;
      if faulty {
        return Unmarked, order;
      }
      db := Marked(db);
      MarkedNeedsNoSeed(tx);
      return Done, order;
    }
  }

  lemma MarkedNeedsNoSeed(db: Database)
    ensures !NeedsSeed(Marked(db))
  {
  }

  /** The profile loop: the transaction's database and the id of every profile met. */
  method MergeProfiles(w: World, cfg: Config, base: Database)
    returns (ok: bool, tx: Database, ids: map<string, int>, ghost order: seq<string>)
    ensures forall n :: n in order ==> n in cfg.profiles
    ensures ok ==> Lists(order, cfg.profiles.Keys) && ImportProfiles(w, base, cfg, order) == Some(tx)
    ensures ok ==> forall n :: n in ids ==> n in tx.profiles && tx.profiles[n].id == ids[n]
    ensures !ok ==> exists n :: n in cfg.profiles && !Readable(w, cfg.profiles[n])
  {
    hide Readable, ImportProfile;
    tx, ids, order := base, map[], [];
    var todo := cfg.profiles.Keys;
    while todo != {}
      invariant todo <= cfg.profiles.Keys
      invariant forall n :: n in order <==> n in cfg.profiles && n !in todo
      invariant forall i, j :: 0 <= i < j < |order| ==> order[i] != order[j]
      invariant ImportProfiles(w, base, cfg, order) == Some(tx)
      invariant forall n :: n in ids ==> n in tx.profiles && tx.profiles[n].id == ids[n]
      decreases todo
    {
      var n :| n in todo;
      var next := MergeProfile(w, tx, n, cfg.profiles[n]);
      ProfileStep(w, tx, n, cfg.profiles[n]);
      if next.None? {
        return false, tx, ids, order;
      }
      ghost var last := |order|;
      assert (order + [n])[..last] == order;
      ids := KeepIds(ids, tx, next.value, n);
      tx, order, todo := next.value, order + [n], todo - {n};
    }
    ok := true;
  }

  function KeepIds(ids: map<string, int>, before: Database, after: Database, name: string): (r: map<string, int>)
    requires name in after.profiles
    requires forall n :: n in ids ==> n in before.profiles && before.profiles[n].id == ids[n]
    requires forall n :: n in before.profiles && n != name ==>
               n in after.profiles && after.profiles[n] == before.profiles[n]
    ensures forall n :: n in r ==> n in after.profiles && after.profiles[n].id == r[n]
  {
    ids[name := after.profiles[name].id]
  }

  /** One profile: resolve, encrypt, then update the row of that name or insert one. */
  method MergeProfile(w: World, tx: Database, name: string, p: SeedProfile) returns (next: Option<Database>)
    ensures next == ImportProfile(w, tx, name, p)
  {
    var plain := ResolvePrivateKey(w, p);
    if plain.None? {
      return None;
    }
    var key := Sealed(w, plain.value);
    if key.None? {
      return None;
    }
    var tok := Sealed(w, ResolveToken(w, p));
    if tok.None? {
      return None;
    }
    hide ResolvePrivateKey, ResolveToken, Sealed;
    var encKey, encTok := key.value, tok.value;
    var appId := if p.appId > 0 then Some(p.appId) else None;
    if name in tx.profiles {
      var existing := tx.profiles[name];
      if encKey.None? && existing.privateKey.Some? {
        encKey := existing.privateKey;
      }
      if encTok.None? && existing.token.Some? {
        encTok := existing.token;
      }
      next := Some(tx.(profiles :=
                       tx.profiles[name := AuthProfile(existing.id, name, p.authMethod, appId, encKey, encTok)]));
    } else {
      next := Some(tx.(profiles :=
                       tx.profiles[name := AuthProfile(tx.nextProfileId, name, p.authMethod, appId, encKey, encTok)],
                       nextProfileId := tx.nextProfileId + 1));
    }
  }

  /** The pool loop. */
  method MergePools(w: World, pools: seq<SeedPool>, base: Database, ids: map<string, int>)
    returns (ok: bool, tx: Database)
    requires forall n :: n in ids ==> n in base.profiles && base.profiles[n].id == ids[n]
    ensures ok ==> ImportPools(w, base, pools) == Some(tx)
    ensures !ok ==> ImportPools(w, base, pools).None?
  {
    hide ImportPool;
    tx := base;
    for i := 0 to |pools|
      invariant ImportPools(w, base, pools[..i]) == Some(tx)
      invariant tx.profiles == base.profiles
    {
      assert pools[..i + 1][..i] == pools[..i];
      PoolStep(w, tx, pools[i]);
      var next := MergePool(w, tx, pools[i], ids);
      if next.None? {
        NoneStays(w, base, pools, i + 1);
        return false, tx;
      }
      tx := next.value;
    }
    assert pools[..|pools|] == pools;
    ok := true;
  }

  lemma {:induction false} NoneStays(w: World, base: Database, pools: seq<SeedPool>, i: nat)
    requires i <= |pools| && ImportPools(w, base, pools[..i]).None?
    ensures ImportPools(w, base, pools).None?
    decreases |pools|
  {
    hide ImportPool;
    if i < |pools| {
      var n := |pools| - 1;
      assert pools[..n][..i] == pools[..i];
      NoneStays(w, base, pools[..n], i);
    } else {
      assert pools[..i] == pools;
    }
  }

  method MergePool(w: World, tx: Database, p: SeedPool, ids: map<string, int>) returns (next: Option<Database>)
    requires forall n :: n in ids ==> n in tx.profiles && tx.profiles[n].id == ids[n]
    ensures next == ImportPool(w, tx, p)
  {
    var authId;
    if p.authProfile in ids {
      authId := ids[p.authProfile];
    } else if p.authProfile in tx.profiles {
      authId := tx.profiles[p.authProfile].id;
    } else {
      return None;
    }
    var row := PoolRowOf(w, p, authId);
    hide RowFor, RenovateFor;
    var d, id := tx, 0;
    if p.name in tx.pools {
      id := tx.pools[p.name].id;
    } else {
      id := tx.nextPoolId;
      d := d.(nextPoolId := d.nextPoolId + 1);
    }
    RowWithId(w, id, authId, p);
    d := d.(pools := d.pools[p.name := row.(id := id)]);
    var urls := EnsureTarget(TargetsOf(tx, id), p.repositoryUrl);
    d := d.(targets := d.targets[id := urls]);
    if p.renovate.Some? {
      d := d.(renovates := d.renovates[id := RenovateFor(p.renovate.value)]);
    }
    next := Some(d);
  }

  method EnsureTarget(targets: set<string>, url: string) returns (r: set<string>)
    ensures r == targets + (if url == "" then {} else {url})
  {
    r := targets;
    if url != "" && url !in targets {
      r := r + {url};
    }
  }

  method PoolRowOf(w: World, p: SeedPool, authId: int) returns (row: PoolRow)
    ensures row == RowFor(w, 0, authId, p)
  {
    var scope, minIdle, maxConc, lifetime := p.scope, p.minIdle, p.maxConcurrency, p.lifetime;
    if scope == "" {
      scope := "repo";
    }
    if minIdle <= 0 {
      minIdle := 1;
    }
    if maxConc <= 0 {
      maxConc := 5;
    }
    if lifetime <= 0 {
      lifetime := 7200;
    }
    row := PoolRow(0, p.name, p.provider, p.repositoryUrl, scope, authId, minIdle, maxConc, w.encodeLabels(p.labels),
                   p.image, p.allowDocker, lifetime, Nullable(p.cpu), Nullable(p.memory));
  }

  lemma RowWithId(w: World, id: int, authId: int, p: SeedPool)
    ensures RowFor(w, 0, authId, p).(id := id) == RowFor(w, id, authId, p)
  {
  }
}
