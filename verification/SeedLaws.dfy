/** What exporting and merge-importing promise (internal/db/seed.go). */
module SeedLaws {
  import opened Basics
  import opened Seed

  /** The environment variables an export refers to are empty. */
  ghost predicate EnvEmpty(w: World, db: Database) {
    forall n :: n in db.profiles ==> w.getenv(TokenEnv(w, db.profiles[n].name)) == ""
  }

  // ---------------------------------------------------------------- validity of an export

  lemma ProfileNameFound(db: Database, id: int)
    requires HasProfile(db, id)
    ensures ProfileName(db, id) in db.profiles && db.profiles[ProfileName(db, id)].id == id
  {
  }

  lemma ExportedProfileValid(w: World, p: AuthProfile)
    ensures ValidProfile(w, p.name, ExportProfile(w, p)) <==> ExportableProfile(w, p)
  {
    hide TokenEnv;
  }

  lemma ExportedPoolValid(w: World, db: Database, r: PoolRow)
    ensures ValidPool(w, ExportPool(w, db, r)) <==> ExportablePool(w, r) && !w.blank(ProfileName(db, r.authProfileId))
    ensures ExportPool(w, db, r).name == r.name
  {
    hide ProfileName, LabelsOf;
  }

  lemma ExportAt(w: World, db: Database, names: seq<string>)
    requires forall n :: n in names ==> n in db.pools
    ensures var cfg := Export(w, db, names);
            && cfg.profiles.Keys == db.profiles.Keys && |cfg.pools| == |names|
            && (forall n :: n in db.profiles ==> cfg.profiles[n] == ExportProfile(w, db.profiles[n]))
            && (forall i :: 0 <= i < |names| ==> cfg.pools[i] == ExportPool(w, db, db.pools[names[i]]))
  {
    hide ExportProfile, ExportPool, ExportGlobal;
  }

  lemma ExportableIsValid(w: World, db: Database, names: seq<string>)
    requires Integrity(db) && Lists(names, db.pools.Keys) && Exportable(w, db)
    ensures ValidConfig(w, Export(w, db, names))
  {
    ExportAt(w, db, names);
    hide Export, ExportProfile, ExportPool, ValidProfile, ValidPool, ProfileName, ExportablePool;
    var cfg := Export(w, db, names);
    forall n | n in cfg.profiles ensures ValidProfile(w, n, cfg.profiles[n]) {
      ExportedProfileValid(w, db.profiles[n]);
    }
    forall i | 0 <= i < |names| ensures ValidPool(w, cfg.pools[i]) && cfg.pools[i].name == names[i] {
      assert names[i] in names;
      var r := db.pools[names[i]];
      ProfileNameFound(db, r.authProfileId);
      assert ExportableProfile(w, db.profiles[ProfileName(db, r.authProfileId)]);
      ExportedPoolValid(w, db, r);
    }
  }

  lemma ValidMeansExportable(w: World, db: Database, names: seq<string>)
    requires Integrity(db) && Lists(names, db.pools.Keys) && ValidConfig(w, Export(w, db, names))
    ensures Exportable(w, db)
  {
    ExportAt(w, db, names);
    hide Export, ExportProfile, ExportPool, ValidProfile, ValidPool, ProfileName, ExportablePool, ExportableProfile;
    var cfg := Export(w, db, names);
    forall n | n in db.profiles ensures ExportableProfile(w, db.profiles[n]) {
      assert ValidProfile(w, n, cfg.profiles[n]);
      ExportedProfileValid(w, db.profiles[n]);
    }
    forall n | n in db.pools ensures ExportablePool(w, db.pools[n]) {
      var i :| 0 <= i < |names| && names[i] == n;
      assert ValidPool(w, cfg.pools[i]);
      ExportedPoolValid(w, db, db.pools[n]);
    }
  }

  // ---------------------------------------------------------------- settings

  /** Writing back the number read under one more key. */
  lemma SettingStep(w: World, s: map<string, string>, keys: set<string>, k: string)
    requires k !in keys
    ensures WithSetting(w, Renumbered(w, s, keys), k, Setting(w, s, k)) == Renumbered(w, s, keys + {k})
  {
  }

  lemma FourSettings(w: World, s: map<string, string>, a: string, b: string, c: string, d: string)
    requires a != b && a != c && a != d && b != c && b != d && c != d
    ensures WithSetting(w, WithSetting(w, WithSetting(w, WithSetting(w, s,
              a, Setting(w, s, a)), b, Setting(w, s, b)), c, Setting(w, s, c)), d, Setting(w, s, d)) ==
            Renumbered(w, s, {a, b, c, d})
  {
    assert s == Renumbered(w, s, {});
    hide WithSetting, Setting, Renumbered;
    SettingStep(w, s, {}, a);
    SettingStep(w, s, {a}, b);
    SettingStep(w, s, {a, b}, c);
    SettingStep(w, s, {a, b, c}, d);
    assert {} + {a} == {a} && {a} + {b} == {a, b} && {a, b} + {c} == {a, b, c} && {a, b, c} + {d} == {a, b, c, d};
  }

  lemma GlobalRoundTrip(w: World, settings: map<string, string>)
    ensures ImportGlobal(w, settings, ExportGlobal(w, settings)) == NormalSettings(w, settings)
  {
    hide WithSetting, Setting, Renumbered;
    var a, b, c, d := "total_allowed_runners", "total_idle_warm_pool", "shutdown_timeout_seconds", "job_retention_days";
    assert |a| == 21 && |b| == 20 && |c| == 24 && |d| == 18;
    FourSettings(w, settings, a, b, c, d);
  }

  // ---------------------------------------------------------------- profiles

  lemma ProfileRoundTrip(w: World, d: Database, name: string, p: AuthProfile)
    requires name in d.profiles && d.profiles[name] == p && p.name == name
    requires w.getenv(TokenEnv(w, name)) == ""
    ensures ImportProfile(w, d, name, ExportProfile(w, p)) == Some(d.(profiles := d.profiles[name := NormalProfile(p)]))
  {
    hide TokenEnv;
    var sp := ExportProfile(w, p);
    assert ResolvePrivateKey(w, sp) == Some("");
    assert ResolveToken(w, sp) == "";
  }

  ghost function SetOf(order: seq<string>): set<string> {
    set n | n in order
  }

  lemma SetOfSnoc(order: seq<string>)
    ensures SetOf([]) == {}
    ensures order != [] ==> SetOf(order) == SetOf(order[..|order| - 1]) + {order[|order| - 1]}
  {
    if order != [] {
      assert order == order[..|order| - 1] + [order[|order| - 1]];
    }
  }

  lemma NormalProfilesStep(profiles: map<string, AuthProfile>, done: set<string>, n: string)
    ensures NormalProfiles(profiles, {}) == profiles
    ensures n in profiles ==>
              NormalProfiles(profiles, done + {n}) == NormalProfiles(profiles, done)[n := NormalProfile(profiles[n])]
  {
    hide NormalProfile;
  }

  lemma {:induction false} ProfilesRoundTrip(w: World, db: Database, cfg: Config, order: seq<string>)
    requires cfg.profiles.Keys == db.profiles.Keys
    requires forall n :: n in db.profiles ==> cfg.profiles[n] == ExportProfile(w, db.profiles[n])
    requires forall n :: n in db.profiles ==> db.profiles[n].name == n
    requires EnvEmpty(w, db)
    requires (forall n :: n in order ==> n in db.profiles) &&
             (forall i, j :: 0 <= i < j < |order| ==> order[i] != order[j])
    ensures ImportProfiles(w, db, cfg, order) == Some(db.(profiles := NormalProfiles(db.profiles, SetOf(order))))
  {
    hide ImportProfile, ExportProfile, TokenEnv, NormalProfile, SetOf;
    SetOfSnoc(order);
    if order == [] {
      NormalProfilesStep(db.profiles, {}, "");
    } else {
      var n := |order| - 1;
      var init, name := order[..n], order[n];
      ProfilesRoundTrip(w, db, cfg, init);
      var d := db.(profiles := NormalProfiles(db.profiles, SetOf(init)));
      NotYet(order);
      assert d.profiles[name] == db.profiles[name];
      ProfileRoundTrip(w, d, name, db.profiles[name]);
      NormalProfilesStep(db.profiles, SetOf(init), name);
    }
  }

  lemma NotYet(order: seq<string>)
    requires order != [] && forall i, j :: 0 <= i < j < |order| ==> order[i] != order[j]
    ensures order[|order| - 1] !in SetOf(order[..|order| - 1])
  {
  }

  // ---------------------------------------------------------------- pools

  lemma RowRoundTrip(w: World, db: Database, r: PoolRow)
    requires HasProfile(db, r.authProfileId)
    ensures RowFor(w, r.id, r.authProfileId, ExportPool(w, db, r)) == NormalPool(w, r)
    ensures r.id in db.renovates ==>
              ExportPool(w, db, r).renovate.Some? &&
              RenovateFor(ExportPool(w, db, r).renovate.value) == NormalRenovate(db.renovates[r.id])
    ensures r.id !in db.renovates ==> ExportPool(w, db, r).renovate.None?
  {
    hide ProfileName, LabelsOf;
  }

  lemma OthersApart(pools: map<string, PoolRow>, done: set<string>, n: string)
    requires n in pools && n !in done && done <= pools.Keys
    requires forall m, k :: m in pools && k in pools && pools[m].id == pools[k].id ==> m == k
    ensures !Owned(pools, done, pools[n].id) && Owned(pools, done + {n}, pools[n].id)
    ensures Urls(pools, done, pools[n].id) == {} && Urls(pools, done + {n}, pools[n].id) == {pools[n].repositoryUrl}
  {
  }

  lemma OthersSame(pools: map<string, PoolRow>, done: set<string>, n: string, id: int)
    requires n in pools && pools[n].id != id
    ensures Urls(pools, done + {n}, id) == Urls(pools, done, id)
    ensures Owned(pools, done + {n}, id) <==> Owned(pools, done, id)
  {
  }

  lemma NormalPoolsStep(w: World, pools: map<string, PoolRow>, done: set<string>, n: string)
    requires n in pools
    ensures NormalPools(w, pools, done + {n}) == NormalPools(w, pools, done)[n := NormalPool(w, pools[n])]
  {
    hide NormalPool;
  }

  lemma NormalTargetsStep(pools: map<string, PoolRow>, targets: map<int, set<string>>, done: set<string>, n: string)
    requires n in pools && n !in done && done <= pools.Keys && pools[n].id in targets
    requires forall m, k :: m in pools && k in pools && pools[m].id == pools[k].id ==> m == k
    ensures var id := pools[n].id; var before := NormalTargets(pools, targets, done);
            NormalTargets(pools, targets, done + {n}) == before[id := before[id] + {pools[n].repositoryUrl}]
  {
    OthersApart(pools, done, n);
    forall id | id in targets && id != pools[n].id ensures Urls(pools, done + {n}, id) == Urls(pools, done, id) {
      OthersSame(pools, done, n, id);
    }
    hide Urls;
    assert targets[pools[n].id] + {} == targets[pools[n].id];
  }

  lemma NormalRenovatesStep(pools: map<string, PoolRow>, rows: map<int, RenovateRow>, done: set<string>, n: string)
    requires n in pools && n !in done && done <= pools.Keys
    requires forall m, k :: m in pools && k in pools && pools[m].id == pools[k].id ==> m == k
    ensures var id := pools[n].id; var before := NormalRenovates(pools, rows, done);
            NormalRenovates(pools, rows, done + {n}) == if id in rows then before[id := NormalRenovate(rows[id])]
                else before
  {
    OthersApart(pools, done, n);
    forall id | id in rows && id != pools[n].id ensures Owned(pools, done + {n}, id) <==> Owned(pools, done, id) {
      OthersSame(pools, done, n, id);
    }
    hide Owned, NormalRenovate;
  }

  /** Importing one exported pool normalises exactly that pool. */
  lemma PoolRoundTrip(w: World, src: Database, db: Database, done: set<string>, n: string)
    requires Integrity(db) && n in db.pools && n !in done && done <= db.pools.Keys
    requires src.renovates == db.renovates && db.pools[n].repositoryUrl != ""
    requires HasProfile(src, db.pools[n].authProfileId) && ProfileName(src, db.pools[n].authProfileId) in db.profiles
    requires db.profiles[ProfileName(src, db.pools[n].authProfileId)].id == db.pools[n].authProfileId
    ensures ImportPool(w, WithPools(w, db, done), ExportPool(w, src, db.pools[n])) == Some(WithPools(w, db, done + {n}))
  {
    hide ProfileName, RowFor, NormalPool, NormalRenovate, RenovateFor, LabelsOf, HasProfile;
    var r := db.pools[n];
    var d := WithPools(w, db, done);
    var p := ExportPool(w, src, r);
    RowRoundTrip(w, src, r);
    assert d.pools[n] == r && p.name == n && p.repositoryUrl == r.repositoryUrl;
    assert p.authProfile == ProfileName(src, r.authProfileId);
    NormalPoolsStep(w, db.pools, done, n);
    NormalTargetsStep(db.pools, db.targets, done, n);
    NormalRenovatesStep(db.pools, db.renovates, done, n);
    hide ExportPool, NormalPools, NormalTargets, NormalRenovates;
  }

  lemma NoPools(w: World, db: Database)
    ensures WithPools(w, db, {}) == db
  {
    hide NormalPool, NormalRenovate;
    assert NormalPools(w, db.pools, {}) == db.pools;
    forall id ensures Urls(db.pools, {}, id) == {} && !Owned(db.pools, {}, id) {
    }
    hide Urls, Owned;
    forall id | id in db.targets ensures NormalTargets(db.pools, db.targets, {})[id] == db.targets[id] {
      assert db.targets[id] + {} == db.targets[id];
    }
    assert NormalTargets(db.pools, db.targets, {}) == db.targets;
    assert NormalRenovates(db.pools, db.renovates, {}) == db.renovates;
  }

  ghost function ExportPools(w: World, db: Database, names: seq<string>): (r: seq<SeedPool>)
    requires forall n :: n in names ==> n in db.pools
    ensures |r| == |names|
  {
    seq(|names|, i requires 0 <= i < |names| => ExportPool(w, db, db.pools[names[i]]))
  }

  lemma ExportPoolsSnoc(w: World, db: Database, names: seq<string>)
    requires names != [] && forall n :: n in names ==> n in db.pools
    ensures var n := |names| - 1;
            ExportPools(w, db, names)[..n] == ExportPools(w, db, names[..n]) &&
            ExportPools(w, db, names)[n] == ExportPool(w, db, db.pools[names[n]])
  {
    hide ExportPool;
  }

  lemma {:induction false} PoolsRoundTrip(w: World, src: Database, db: Database, names: seq<string>)
    requires Integrity(db) && Integrity(src) && src.renovates == db.renovates && src.pools == db.pools
    requires forall n :: n in src.profiles ==> n in db.profiles && db.profiles[n].id == src.profiles[n].id
    requires (forall n :: n in names ==> n in db.pools) &&
             (forall i, j :: 0 <= i < j < |names| ==> names[i] != names[j])
    requires forall n :: n in db.pools ==> db.pools[n].repositoryUrl != ""
    ensures ImportPools(w, db, ExportPools(w, src, names)) == Some(WithPools(w, db, SetOf(names)))
  {
    hide ImportPool, ExportPool, ProfileName, WithPools, SetOf, ExportPools;
    SetOfSnoc(names);
    if names == [] {
      NoPools(w, db);
    } else {
      var n := |names| - 1;
      var init, name := names[..n], names[n];
      PoolsRoundTrip(w, src, db, init);
      ExportPoolsSnoc(w, src, names);
      assert name in names;
      NotYet(names);
      Known(w, src, db, name);
      assert SetOf(init) <= db.pools.Keys by { SetOfWithin(init, db.pools.Keys); }
      hide Integrity, HasProfile;
      PoolRoundTrip(w, src, db, SetOf(init), name);
    }
  }

  lemma SetOfWithin(order: seq<string>, all: set<string>)
    requires forall n :: n in order ==> n in all
    ensures SetOf(order) <= all
  {
  }

  lemma Known(w: World, src: Database, db: Database, name: string)
    requires Integrity(src) && src.pools == db.pools && name in db.pools
    requires forall n :: n in src.profiles ==> n in db.profiles && db.profiles[n].id == src.profiles[n].id
    ensures HasProfile(src, db.pools[name].authProfileId)
    ensures ProfileName(src, db.pools[name].authProfileId) in db.profiles
    ensures db.profiles[ProfileName(src, db.pools[name].authProfileId)].id == db.pools[name].authProfileId
  {
    ProfileNameFound(src, db.pools[name].authProfileId);
  }

  // ---------------------------------------------------------------- import after export

  /** Merge-importing an export, with the referenced environment variables empty, succeeds exactly when
      the database is exportable, and then yields its normal form. */
  lemma ImportOfExport(w: World, db: Database, names: seq<string>, order: seq<string>)
    requires Lawful(w) && Integrity(db) && EnvEmpty(w, db)
    requires Lists(names, db.pools.Keys) && Lists(order, db.profiles.Keys)
    ensures Import(w, db, Export(w, db, names), order) == if Exportable(w, db) then Some(Normalised(w, db)) else None
  {
    var cfg := Export(w, db, names);
    ExportAt(w, db, names);
    if !Exportable(w, db) {
      if ValidConfig(w, cfg) {
        ValidMeansExportable(w, db, names);
      }
    } else {
      ExportableIsValid(w, db, names);
      ExportableImports(w, db, names, order);
    }
  }

  lemma ExportableImports(w: World, db: Database, names: seq<string>, order: seq<string>)
    requires Lawful(w) && Integrity(db) && EnvEmpty(w, db) && Exportable(w, db)
    requires Lists(names, db.pools.Keys) && Lists(order, db.profiles.Keys)
    requires ValidConfig(w, Export(w, db, names))
    ensures forall n :: n in order ==> n in Export(w, db, names).profiles
    ensures Import(w, db, Export(w, db, names), order) == Some(Normalised(w, db))
  {
    hide ValidConfig, ImportGlobal, NormalSettings, ImportProfiles, ImportPools, WithPools, ExportGlobal, ExportProfile,
         NormalProfiles, ExportPools, ExportPool, Export, SetOf, Lists;
    ListsApart(order, db.profiles.Keys);
    ListsApart(names, db.pools.Keys);
    var cfg := Export(w, db, names);
    ExportAt(w, db, names);
    ExportParts(w, db, names);
    SetOfAll(order, db.profiles.Keys);
    SetOfAll(names, db.pools.Keys);
    GlobalRoundTrip(w, db.settings);
    var d0 := db.(settings := NormalSettings(w, db.settings));
    assert EnvEmpty(w, d0);
    NonBlankUrls(w, db);
    hide Lawful, Exportable, EnvEmpty;
    ProfilesRoundTrip(w, d0, cfg, order);
    var d1 := d0.(profiles := NormalProfiles(db.profiles, db.profiles.Keys));
    NormalIntegrity(db, d1);
    hide Integrity;
    PoolsRoundTrip(w, db, d1, names);
  }

  lemma ExportParts(w: World, db: Database, names: seq<string>)
    requires forall n :: n in names ==> n in db.pools
    ensures Export(w, db, names).pools == ExportPools(w, db, names) &&
            Export(w, db, names).global == ExportGlobal(w, db.settings)
  {
    hide ExportPool, ExportGlobal, ExportProfile;
  }

  lemma SetOfAll(order: seq<string>, all: set<string>)
    requires Lists(order, all)
    ensures SetOf(order) == all
  {
  }

  lemma ListsApart(order: seq<string>, all: set<string>)
    requires Lists(order, all)
    ensures (forall n :: n in order ==> n in all) && (forall i, j :: 0 <= i < j < |order| ==> order[i] != order[j])
  {
  }

  lemma NonBlankUrls(w: World, db: Database)
    requires Lawful(w) && Exportable(w, db)
    ensures forall n :: n in db.pools ==> db.pools[n].repositoryUrl != ""
  {
    forall n | n in db.pools ensures db.pools[n].repositoryUrl != "" {
      assert ExportablePool(w, db.pools[n]);
    }
  }

  lemma NormalIntegrity(db: Database, d: Database)
    requires Integrity(db) &&
             d == db.(settings := d.settings, profiles := NormalProfiles(db.profiles, db.profiles.Keys))
    ensures Integrity(d)
    ensures forall n :: n in db.profiles ==> n in d.profiles && d.profiles[n].id == db.profiles[n].id
  {
    forall n | n in d.pools ensures HasProfile(d, d.pools[n].authProfileId) {
      var m :| m in db.profiles && db.profiles[m].id == db.pools[n].authProfileId;
      assert d.profiles[m].id == db.pools[n].authProfileId;
    }
  }

  // ---------------------------------------------------------------- the normal form is final

  lemma SettingsTwice(w: World, s: map<string, string>, keys: set<string>)
    requires Lawful(w)
    ensures Renumbered(w, Renumbered(w, s, keys), keys) == Renumbered(w, s, keys)
  {
  }

  lemma PoolTwice(w: World, r: PoolRow)
    requires Lawful(w)
    ensures NormalPool(w, NormalPool(w, r)) == NormalPool(w, r)
    ensures LabelsOf(w, NormalPool(w, r).labels) == LabelsOf(w, r.labels)
  {
  }

  lemma PoolsTwice(w: World, pools: map<string, PoolRow>)
    requires Lawful(w)
    ensures NormalPools(w, NormalPools(w, pools, pools.Keys), pools.Keys) == NormalPools(w, pools, pools.Keys)
  {
    forall n | n in pools ensures NormalPool(w, NormalPool(w, pools[n])) == NormalPool(w, pools[n]) {
      PoolTwice(w, pools[n]);
    }
    hide NormalPool, Lawful;
  }

  lemma ProfilesTwice(profiles: map<string, AuthProfile>)
    ensures NormalProfiles(NormalProfiles(profiles, profiles.Keys), profiles.Keys) ==
            NormalProfiles(profiles, profiles.Keys)
  {
  }

  /** Normalising leaves every pool's id and repository alone. */
  lemma SameOwners(w: World, pools: map<string, PoolRow>, id: int)
    ensures var p := NormalPools(w, pools, pools.Keys);
            Urls(p, pools.Keys, id) == Urls(pools, pools.Keys, id) &&
                (Owned(p, pools.Keys, id) <==> Owned(pools, pools.Keys, id))
  {
    var p := NormalPools(w, pools, pools.Keys);
    assert p.Keys == pools.Keys;
    assert forall n :: n in pools ==> p[n].id == pools[n].id && p[n].repositoryUrl == pools[n].repositoryUrl;
    hide NormalPools;
  }

  lemma TargetsTwice(w: World, pools: map<string, PoolRow>, targets: map<int, set<string>>)
    ensures var t := NormalTargets(pools, targets, pools.Keys);
            NormalTargets(NormalPools(w, pools, pools.Keys), t, pools.Keys) == t
  {
    var t := NormalTargets(pools, targets, pools.Keys);
    forall id | id in targets
      ensures NormalTargets(NormalPools(w, pools, pools.Keys), t, pools.Keys)[id] == t[id]
    {
      SameOwners(w, pools, id);
      hide Urls, NormalPools;
    }
  }

  lemma RenovatesTwice(w: World, pools: map<string, PoolRow>, rows: map<int, RenovateRow>)
    ensures var t := NormalRenovates(pools, rows, pools.Keys);
            NormalRenovates(NormalPools(w, pools, pools.Keys), t, pools.Keys) == t
  {
    var t := NormalRenovates(pools, rows, pools.Keys);
    forall id | id in rows
      ensures NormalRenovates(NormalPools(w, pools, pools.Keys), t, pools.Keys)[id] == t[id]
    {
      SameOwners(w, pools, id);
      hide Owned, NormalPools;
    }
  }

  /** Normalising is idempotent. */
  lemma NormalTwice(w: World, db: Database)
    requires Lawful(w)
    ensures Normalised(w, Normalised(w, db)) == Normalised(w, db)
  {
    SettingsTwice(w, db.settings,
                  {"total_allowed_runners", "total_idle_warm_pool", "shutdown_timeout_seconds", "job_retention_days"});
    hide Renumbered;
    ProfilesTwice(db.profiles);
    PoolsTwice(w, db.pools);
    TargetsTwice(w, db.pools, db.targets);
    RenovatesTwice(w, db.pools, db.renovates);
    assert NormalPools(w, db.pools, db.pools.Keys).Keys == db.pools.Keys;
    assert NormalProfiles(db.profiles, db.profiles.Keys).Keys == db.profiles.Keys;
    hide NormalSettings, NormalProfiles, NormalPools, NormalTargets, NormalRenovates, Lawful;
  }

  /** Ids, names, methods and ciphertexts of every profile, ids and profiles of every pool survive. */
  lemma NormalKeepsSecrets(w: World, db: Database)
    ensures var d := Normalised(w, db);
            && d.profiles.Keys == db.profiles.Keys && d.pools.Keys == db.pools.Keys
            && d.nextProfileId == db.nextProfileId && d.nextPoolId == db.nextPoolId
            && (forall n :: n in db.profiles ==>
                  && d.profiles[n].id == db.profiles[n].id && d.profiles[n].name == db.profiles[n].name
                  && d.profiles[n].authMethod == db.profiles[n].authMethod
                  && d.profiles[n].privateKey == db.profiles[n].privateKey &&
                     d.profiles[n].token == db.profiles[n].token
                  && (d.profiles[n].appId.Some? ==>
                        d.profiles[n].appId == db.profiles[n].appId && d.profiles[n].appId.value > 0))
            && (forall n :: n in db.pools ==>
                  && d.pools[n].id == db.pools[n].id && d.pools[n].name == db.pools[n].name
                  && d.pools[n].authProfileId == db.pools[n].authProfileId && d.pools[n].minIdle > 0 &&
                     d.pools[n].maxConcurrency > 0
                  && d.pools[n].lifetime > 0)
            && d.targets.Keys == db.targets.Keys
            && (forall n :: n in db.pools && db.pools[n].id in d.targets ==>
                  db.pools[n].repositoryUrl in d.targets[db.pools[n].id])
  {
    var d := Normalised(w, db);
    assert d.pools == NormalPools(w, db.pools, db.pools.Keys);
    forall n | n in db.pools && db.pools[n].id in d.targets
      ensures db.pools[n].repositoryUrl in d.targets[db.pools[n].id] {
      assert db.pools[n].repositoryUrl in Urls(db.pools, db.pools.Keys, db.pools[n].id);
    }
  }

  lemma NormalHasIntegrity(w: World, db: Database)
    requires Integrity(db)
    ensures Integrity(Normalised(w, db))
  {
    hide Normalised, Integrity;
    NormalKeepsSecrets(w, db);
    SameKeysIntegrity(db, Normalised(w, db));
  }

  /** Integrity is a matter of ids, names and references. */
  lemma SameKeysIntegrity(db: Database, d: Database)
    requires Integrity(db)
    requires d.profiles.Keys == db.profiles.Keys && d.pools.Keys == db.pools.Keys && d.targets.Keys == db.targets.Keys
    requires d.nextProfileId == db.nextProfileId && d.nextPoolId == db.nextPoolId
    requires forall n :: n in db.profiles ==>
               d.profiles[n].id == db.profiles[n].id && d.profiles[n].name == db.profiles[n].name
    requires forall n :: n in db.pools ==> d.pools[n].id == db.pools[n].id && d.pools[n].name == db.pools[n].name
    requires forall n :: n in db.pools ==> d.pools[n].authProfileId == db.pools[n].authProfileId
    ensures Integrity(d)
  {
    forall n | n in d.pools ensures HasProfile(d, d.pools[n].authProfileId) {
      var m :| m in db.profiles && db.profiles[m].id == db.pools[n].authProfileId;
      assert d.profiles[m].id == db.pools[n].authProfileId;
    }
  }

  /** Every GitHub app profile has a positive app id. */
  ghost predicate AppIdsPositive(db: Database) {
    forall n :: n in db.profiles && db.profiles[n].authMethod == "github_app" ==>
        db.profiles[n].appId.Some? && db.profiles[n].appId.value > 0
  }

  lemma NormalProfileExportable(w: World, p: AuthProfile)
    requires ExportableProfile(w, p)
    ensures ExportableProfile(w, NormalProfile(p)) <==> (p.authMethod == "github_app" ==> p.appId.value > 0)
  {
    hide ValidMethod;
  }

  lemma NormalPoolExportable(w: World, r: PoolRow)
    requires Lawful(w) && ExportablePool(w, r)
    ensures ExportablePool(w, NormalPool(w, r))
  {
    PoolTwice(w, r);
    hide LabelsOf, Lawful;
  }

  lemma NormalExportable(w: World, db: Database)
    requires Lawful(w) && Exportable(w, db)
    ensures Exportable(w, Normalised(w, db)) <==> AppIdsPositive(db)
  {
    var d := Normalised(w, db);
    assert d.profiles.Keys == db.profiles.Keys && d.pools.Keys == db.pools.Keys;
    forall n | n in db.profiles
      ensures ExportableProfile(w, d.profiles[n]) <==>
                (db.profiles[n].authMethod == "github_app" ==> db.profiles[n].appId.value > 0)
    {
      assert d.profiles[n] == NormalProfile(db.profiles[n]);
      NormalProfileExportable(w, db.profiles[n]);
    }
    forall n | n in db.pools ensures ExportablePool(w, d.pools[n]) {
      assert d.pools[n] == NormalPool(w, db.pools[n]);
      NormalPoolExportable(w, db.pools[n]);
    }
    hide Normalised, ExportablePool;
    assert forall n :: n in db.profiles ==> ExportableProfile(w, db.profiles[n]);
  }

  /** The mark of a finished import takes no part in exporting and normalising. */
  lemma MarkIsInert(w: World, db: Database)
    ensures Normalised(w, Marked(db)) == Marked(Normalised(w, db))
  {
    var s := db.settings;
    var keys := {"total_allowed_runners", "total_idle_warm_pool", "shutdown_timeout_seconds", "job_retention_days"};
    assert |"seed_imported"| == 13;
    assert "seed_imported" !in keys;
    MarkStep(w, s, keys, "seed_imported", "true");
    hide Renumbered, WithPools, NormalProfiles;
    assert NormalSettings(w, s["seed_imported" := "true"]) == NormalSettings(w, s)["seed_imported" := "true"];
    MarkPools(w, db.(settings := NormalSettings(w, s), profiles := NormalProfiles(db.profiles, db.profiles.Keys)),
              db.pools.Keys);
  }

  lemma MarkStep(w: World, s: map<string, string>, keys: set<string>, k: string, v: string)
    requires k !in keys
    ensures Renumbered(w, s[k := v], keys) == Renumbered(w, s, keys)[k := v]
  {
  }

  lemma MarkPools(w: World, db: Database, done: set<string>)
    ensures WithPools(w, Marked(db), done) == Marked(WithPools(w, db, done))
  {
  }

  /** What a second export and import does, in terms of the app ids before the first. */
  lemma SecondImport(w: World, db: Database, names: seq<string>, order: seq<string>)
    requires Lawful(w) && Integrity(db) && EnvEmpty(w, db) && Exportable(w, db)
    requires Lists(names, db.pools.Keys) && Lists(order, db.profiles.Keys)
    ensures var d := Marked(Normalised(w, db));
            && d.pools.Keys == db.pools.Keys && d.profiles.Keys == db.profiles.Keys
            && Import(w, d, Export(w, d, names), order) == if AppIdsPositive(db) then Some(d) else None
  {
    var n := Normalised(w, db);
    NormalReady(w, db);
    NormalTwice(w, db);
    MarkIsInert(w, n);
    hide Normalised, Integrity, Exportable, Export, Import, Lists, Marked, EnvEmpty, AppIdsPositive;
    ImportOfExport(w, Marked(n), names, order);
  }

  /** The normal form, marked, meets every demand of a round trip but one. */
  lemma NormalReady(w: World, db: Database)
    requires Lawful(w) && Integrity(db) && EnvEmpty(w, db) && Exportable(w, db)
    ensures var d := Marked(Normalised(w, db));
            && d.pools.Keys == db.pools.Keys && d.profiles.Keys == db.profiles.Keys
            && Integrity(d) && EnvEmpty(w, d) && (Exportable(w, d) <==> AppIdsPositive(db))
  {
    NormalKeepsSecrets(w, db);
    NormalHasIntegrity(w, db);
    NormalExportable(w, db);
    hide Normalised, Integrity, Exportable, Lawful, AppIdsPositive, TokenEnv;
    MarkIntegrity(Normalised(w, db));
    MarkExportable(w, Normalised(w, db));
  }

  lemma MarkExportable(w: World, db: Database)
    ensures Exportable(w, Marked(db)) <==> Exportable(w, db)
  {
    hide ExportableProfile, ExportablePool;
  }

  lemma MarkIntegrity(db: Database)
    requires Integrity(db)
    ensures Integrity(Marked(db))
  {
    forall n | n in db.pools ensures HasProfile(Marked(db), db.pools[n].authProfileId) {
      assert HasProfile(db, db.pools[n].authProfileId);
    }
  }
}
