/** What merging any configuration into the database keeps and does (internal/db/seed.go:195-464). */
module SeedMerge {
  import opened Basics
  import opened Seed

  // ---------------------------------------------------------------- profiles

  /** The environment variable a profile names: the Gitea one first, then the Forgejo one, then the plain one. */
  function EnvName(p: SeedProfile): string {
    if p.giteaEnv != "" then p.giteaEnv else if p.forgejoEnv != "" then p.forgejoEnv else p.tokenEnv
  }

  /** The key can be encrypted, or its file read and the content encrypted. */
  predicate KeyReadable(w: World, p: SeedProfile) {
    if p.privateKey != "" then w.encrypt(p.privateKey).Some?
    else if p.privateKeyPath == "" || p.privateKeyPath == "${REDACTED}" then true
    else
      var content := w.readFile(p.privateKeyPath);
      content.Some? && (content.value == "" || w.encrypt(content.value).Some?)
  }

  predicate TokenReadable(w: World, p: SeedProfile) {
    if p.token != "" then w.encrypt(p.token).Some?
    else EnvName(p) == "" || w.getenv(EnvName(p)) == "" || w.encrypt(w.getenv(EnvName(p))).Some?
  }

  predicate Readable(w: World, p: SeedProfile) {
    KeyReadable(w, p) && TokenReadable(w, p)
  }

  /** The key stored after an import: the one in the file, else the content of the file it names unless that is
      redacted, else the one stored before; nothing empty replaces it. */
  ghost predicate KeyWritten(w: World, p: SeedProfile, stored: Option<string>, now: Option<string>) {
    if p.privateKey != "" then now.Some? && now == w.encrypt(p.privateKey)
    else if p.privateKeyPath == "" || p.privateKeyPath == "${REDACTED}" then now == stored
    else
      var content := w.readFile(p.privateKeyPath);
      && content.Some?
      && (if content.value == "" then now == stored else now.Some? && now == w.encrypt(content.value))
  }

  /** The token stored after an import: the one in the file, else the value of the environment variable it
      names, else the one stored before; nothing empty replaces it. */
  ghost predicate TokenWritten(w: World, p: SeedProfile, stored: Option<string>, now: Option<string>) {
    if p.token != "" then now.Some? && now == w.encrypt(p.token)
    else if EnvName(p) == "" || w.getenv(EnvName(p)) == "" then now == stored
    else now.Some? && now == w.encrypt(w.getenv(EnvName(p)))
  }

  /** What the row of an imported profile says. */
  ghost predicate Written(w: World, p: SeedProfile, was: Option<AuthProfile>, now: AuthProfile) {
    && now.authMethod == p.authMethod && now.appId == (if p.appId > 0 then Some(p.appId) else None)
    && (was.Some? ==> now.id == was.value.id)
    && KeyWritten(w, p, if was.Some? then was.value.privateKey else None, now.privateKey)
    && TokenWritten(w, p, if was.Some? then was.value.token else None, now.token)
  }

  /** The helper functions of the import in these terms. */
  lemma KeyMeans(w: World, p: SeedProfile, stored: Option<string>)
    ensures var plain := ResolvePrivateKey(w, p);
            && (plain.Some? && Sealed(w, plain.value).Some? <==> KeyReadable(w, p))
            && (plain.Some? && Sealed(w, plain.value).Some? ==>
                  KeyWritten(w, p, stored, Keep(Sealed(w, plain.value).value, stored)))
  {
  }

  lemma TokenMeans(w: World, p: SeedProfile, stored: Option<string>)
    ensures var sealed := Sealed(w, ResolveToken(w, p));
            && (sealed.Some? <==> TokenReadable(w, p))
            && (sealed.Some? ==> TokenWritten(w, p, stored, Keep(sealed.value, stored)))
  {
  }

  function Lookup<K, V>(m: map<K, V>, k: K): Option<V> {
    if k in m then Some(m[k]) else None
  }

  lemma ProfileStep(w: World, db: Database, name: string, p: SeedProfile)
    ensures ImportProfile(w, db, name, p).Some? <==> Readable(w, p)
    ensures Readable(w, p) ==>
              var d := ImportProfile(w, db, name, p).value;
              && d.profiles.Keys == db.profiles.Keys + {name} &&
                 d == db.(profiles := d.profiles, nextProfileId := d.nextProfileId)
              && (forall n :: n in db.profiles && n != name ==> d.profiles[n] == db.profiles[n])
              && Written(w, p, Lookup(db.profiles, name), d.profiles[name])
  {
    KeyMeans(w, p, None);
    TokenMeans(w, p, None);
    hide ResolvePrivateKey, ResolveToken, Sealed, Written, Keep, KeyReadable, TokenReadable, KeyWritten, TokenWritten;
    if Readable(w, p) {
      ProfileWritten(w, db, name, p);
    }
  }

  lemma ProfileWritten(w: World, db: Database, name: string, p: SeedProfile)
    requires ImportProfile(w, db, name, p).Some? && name in ImportProfile(w, db, name, p).value.profiles
    ensures Written(w, p, Lookup(db.profiles, name), ImportProfile(w, db, name, p).value.profiles[name])
  {
    var was := Lookup(db.profiles, name);
    KeyMeans(w, p, if was.Some? then was.value.privateKey else None);
    TokenMeans(w, p, if was.Some? then was.value.token else None);
    hide ResolvePrivateKey, ResolveToken, Sealed, KeyReadable, TokenReadable, KeyWritten, TokenWritten;
  }

  ghost predicate ProfilesMerged(w: World, cfg: Config, order: seq<string>, db: Database, d: Database)
    requires forall n :: n in order ==> n in cfg.profiles
  {
    && d == db.(profiles := d.profiles, nextProfileId := d.nextProfileId)
    && (forall n :: n in d.profiles <==> n in db.profiles || n in order)
    && (forall n :: n in db.profiles && n !in order ==> d.profiles[n] == db.profiles[n])
    && (forall n :: n in order ==> Written(w, cfg.profiles[n], Lookup(db.profiles, n), d.profiles[n]))
  }

  lemma {:induction false} ImportProfilesMerges(w: World, db: Database, cfg: Config, order: seq<string>)
    requires forall n :: n in order ==> n in cfg.profiles
    requires forall i, j :: 0 <= i < j < |order| ==> order[i] != order[j]
    ensures ImportProfiles(w, db, cfg, order).Some? <==> forall n :: n in order ==> Readable(w, cfg.profiles[n])
    ensures ImportProfiles(w, db, cfg, order).Some? ==>
              ProfilesMerged(w, cfg, order, db, ImportProfiles(w, db, cfg, order).value)
  {
    hide ImportProfile, Written, Readable;
    if order != [] {
      var n := |order| - 1;
      var init, name := order[..n], order[n];
      assert forall m :: m in order <==> m in init || m == name;
      ImportProfilesMerges(w, db, cfg, init);
      hide ProfilesMerged;
      var e := ImportProfiles(w, db, cfg, init);
      if e.Some? {
        ProfileStep(w, e.value, name, cfg.profiles[name]);
        if Readable(w, cfg.profiles[name]) {
          ProfilesMergedStep(w, db, cfg, order, e.value, ImportProfile(w, e.value, name, cfg.profiles[name]).value);
        }
      }
    }
  }

  lemma ProfilesMergedStep(w: World, db: Database, cfg: Config, order: seq<string>, e: Database, d: Database)
    requires order != [] && (forall n :: n in order ==> n in cfg.profiles)
    requires forall i, j :: 0 <= i < j < |order| ==> order[i] != order[j]
    requires ProfilesMerged(w, cfg, order[..|order| - 1], db, e)
    requires var name := order[|order| - 1];
             && d.profiles.Keys == e.profiles.Keys + {name} &&
                d == e.(profiles := d.profiles, nextProfileId := d.nextProfileId)
             && (forall n :: n in e.profiles && n != name ==> d.profiles[n] == e.profiles[n])
             && Written(w, cfg.profiles[name], Lookup(e.profiles, name), d.profiles[name])
    ensures ProfilesMerged(w, cfg, order, db, d)
  {
    hide Written;
    var n := |order| - 1;
    var init, name := order[..n], order[n];
    assert forall m :: m in order <==> m in init || m == name;
    assert name !in init;
    assert Lookup(e.profiles, name) == Lookup(db.profiles, name);
  }

  // ---------------------------------------------------------------- pools

  /** The row of an imported pool: as the file says, with repository scope, one idle runner, five at most and
      two hours of life by default, and no limit where the file gives none. */
  ghost predicate RowWritten(w: World, p: SeedPool, authId: int, r: PoolRow) {
    && r.name == p.name && r.provider == p.provider && r.repositoryUrl == p.repositoryUrl
    && r.scope == (if p.scope == "" then "repo" else p.scope) && r.authProfileId == authId
    && r.minIdle == (if p.minIdle <= 0 then 1 else p.minIdle)
    && r.maxConcurrency == (if p.maxConcurrency <= 0 then 5 else p.maxConcurrency)
    && r.labels == w.encodeLabels(p.labels) && r.image == p.image && r.allowDocker == p.allowDocker
    && r.lifetime == (if p.lifetime <= 0 then 7200 else p.lifetime)
    && r.cpu == (if p.cpu == "" then None else Some(p.cpu))
    && r.memory == (if p.memory == "" then None else Some(p.memory))
  }

  lemma RowFields(w: World, id: int, authId: int, p: SeedPool)
    ensures RowFor(w, id, authId, p).id == id && RowWritten(w, p, authId, RowFor(w, id, authId, p))
  {
  }

  /** What the rows of an imported pool say. */
  ghost predicate PoolWritten(w: World, p: SeedPool, db: Database, d: Database) {
    && p.name in d.pools && p.authProfile in d.profiles
    && RowWritten(w, p, d.profiles[p.authProfile].id, d.pools[p.name])
    && (p.name in db.pools ==> d.pools[p.name].id == db.pools[p.name].id)
    && (p.repositoryUrl != "" ==> p.repositoryUrl in TargetsOf(d, d.pools[p.name].id))
  }

  /** Nothing but the named pool changes, and its targets only grow. */
  lemma PoolStep(w: World, db: Database, p: SeedPool)
    ensures ImportPool(w, db, p).Some? <==> p.authProfile in db.profiles
    ensures p.authProfile in db.profiles ==>
              var d := ImportPool(w, db, p).value;
              && d.pools.Keys == db.pools.Keys + {p.name}
              && d.profiles == db.profiles && d.settings == db.settings && d.nextProfileId == db.nextProfileId
              && (forall n :: n in db.pools && n != p.name ==> d.pools[n] == db.pools[n])
              && PoolWritten(w, p, db, d)
              && TargetsGrow(db, d) && db.renovates.Keys <= d.renovates.Keys
  {
    hide RowFor, RenovateFor, RowWritten;
    if p.authProfile in db.profiles {
      RowFields(w, if p.name in db.pools then db.pools[p.name].id else db.nextPoolId, db.profiles[p.authProfile].id, p);
    }
  }

  lemma RowId(w: World, id: int, authId: int, p: SeedPool)
    ensures RowFor(w, id, authId, p).id == id && RowFor(w, id, authId, p).authProfileId == authId &&
            RowFor(w, id, authId, p).name == p.name
  {
  }

  ghost predicate TargetsGrow(db: Database, d: Database) {
    forall id :: id in db.targets ==> id in d.targets && db.targets[id] <= d.targets[id]
  }

  ghost predicate PoolsMerged(w: World, pools: seq<SeedPool>, db: Database, d: Database) {
    && d.profiles == db.profiles && d.settings == db.settings && d.nextProfileId == db.nextProfileId
    && TargetsGrow(db, d) && db.renovates.Keys <= d.renovates.Keys
    && (forall n :: n in d.pools <==> n in db.pools || Names(pools, n))
    && (forall n :: n in db.pools && !Names(pools, n) ==> d.pools[n] == db.pools[n])
    && (forall i :: 0 <= i < |pools| ==> PoolWritten(w, pools[i], db, d))
  }

  ghost predicate Names(pools: seq<SeedPool>, n: string) {
    exists i :: 0 <= i < |pools| && pools[i].name == n
  }

  lemma NamesSnoc(pools: seq<SeedPool>, n: string)
    requires pools != []
    ensures Names(pools, n) <==> Names(pools[..|pools| - 1], n) || pools[|pools| - 1].name == n
  {
    var k := |pools| - 1;
    if Names(pools, n) && pools[k].name != n {
      var i :| 0 <= i < |pools| && pools[i].name == n;
      assert pools[..k][i].name == n;
    }
    if Names(pools[..k], n) {
      var i :| 0 <= i < k && pools[..k][i].name == n;
      assert pools[i].name == n;
    }
    if pools[k].name == n {
      assert 0 <= k < |pools| && pools[k].name == n;
    }
  }

  lemma WrittenStays(w: World, p: SeedPool, q: SeedPool, db: Database, e: Database, d: Database)
    requires PoolWritten(w, p, db, e) && q.name != p.name
    requires d.profiles == e.profiles && TargetsGrow(e, d) && p.name in d.pools && d.pools[p.name] == e.pools[p.name]
    ensures PoolWritten(w, p, db, d)
  {
    hide RowWritten;
  }

  lemma {:induction false} ImportPoolsMerges(w: World, db: Database, pools: seq<SeedPool>)
    requires forall i, j :: 0 <= i < j < |pools| ==> pools[i].name != pools[j].name
    ensures ImportPools(w, db, pools).Some? <==> forall i :: 0 <= i < |pools| ==> pools[i].authProfile in db.profiles
    ensures ImportPools(w, db, pools).Some? ==> PoolsMerged(w, pools, db, ImportPools(w, db, pools).value)
  {
    if pools == [] {
      assert forall n :: !Names(pools, n);
    } else {
      hide ImportPool, PoolsMerged;
      var k := |pools| - 1;
      var init, p := pools[..k], pools[k];
      ImportPoolsMerges(w, db, init);
      var e := ImportPools(w, db, init);
      assert forall i :: 0 <= i < k ==> init[i] == pools[i];
      if e.Some? {
        PoolImports(w, e.value, p);
        MergedProfiles(w, init, db, e.value);
        if p.authProfile in e.value.profiles {
          NextPool(w, pools, db, e.value);
        }
      }
    }
  }

  lemma MergedProfiles(w: World, pools: seq<SeedPool>, db: Database, d: Database)
    requires PoolsMerged(w, pools, db, d)
    ensures d.profiles == db.profiles
  {
  }

  lemma NextPool(w: World, pools: seq<SeedPool>, db: Database, e: Database)
    requires forall i, j :: 0 <= i < j < |pools| ==> pools[i].name != pools[j].name
    requires pools != [] && PoolsMerged(w, pools[..|pools| - 1], db, e)
    requires pools[|pools| - 1].authProfile in e.profiles
    ensures PoolsMerged(w, pools, db, ImportPool(w, e, pools[|pools| - 1]).value)
  {
    hide ImportPool, PoolWritten, PoolsMerged, TargetsGrow;
    var p := pools[|pools| - 1];
    PoolImports(w, e, p);
    PoolStep(w, e, p);
    PoolsMergedStep(w, pools, db, e, ImportPool(w, e, p).value);
  }

  lemma PoolsMergedStep(w: World, pools: seq<SeedPool>, db: Database, e: Database, d: Database)
    requires forall i, j :: 0 <= i < j < |pools| ==> pools[i].name != pools[j].name
    requires pools != [] && PoolsMerged(w, pools[..|pools| - 1], db, e)
    requires var p := pools[|pools| - 1];
             && d.pools.Keys == e.pools.Keys + {p.name}
             && d.profiles == e.profiles && d.settings == e.settings && d.nextProfileId == e.nextProfileId
             && (forall n :: n in e.pools && n != p.name ==> d.pools[n] == e.pools[n])
             && PoolWritten(w, p, e, d)
             && TargetsGrow(e, d) && e.renovates.Keys <= d.renovates.Keys
    ensures PoolsMerged(w, pools, db, d)
  {
    hide Names, PoolWritten, TargetsGrow;
    var k := |pools| - 1;
    var init, p := pools[..k], pools[k];
    forall n ensures Names(pools, n) <==> Names(init, n) || p.name == n {
      NamesSnoc(pools, n);
    }
    NotNamed(pools);
    forall i | 0 <= i < k ensures PoolWritten(w, pools[i], db, d) {
      assert PoolWritten(w, init[i], db, e);
      WrittenNamed(w, pools[i], db, e);
      WrittenStays(w, pools[i], p, db, e, d);
    }
    WrittenAgain(w, p, db, e, d);
    Grows(db, e, d);
  }

  lemma NotNamed(pools: seq<SeedPool>)
    requires pools != [] && forall i, j :: 0 <= i < j < |pools| ==> pools[i].name != pools[j].name
    ensures !Names(pools[..|pools| - 1], pools[|pools| - 1].name)
  {
  }

  lemma WrittenNamed(w: World, p: SeedPool, db: Database, d: Database)
    requires PoolWritten(w, p, db, d)
    ensures p.name in d.pools
  {
  }

  lemma WrittenAgain(w: World, p: SeedPool, db: Database, e: Database, d: Database)
    requires PoolWritten(w, p, e, d) &&
             (p.name in db.pools ==> p.name in e.pools && e.pools[p.name] == db.pools[p.name])
    ensures PoolWritten(w, p, db, d)
  {
    hide RowWritten;
  }

  lemma Grows(db: Database, e: Database, d: Database)
    requires TargetsGrow(db, e) && TargetsGrow(e, d)
    ensures TargetsGrow(db, d)
  {
  }

  // ---------------------------------------------------------------- the whole import

  /** Exactly which merge imports succeed. */
  ghost predicate Importable(w: World, db: Database, cfg: Config) {
    && ValidConfig(w, cfg)
    && (forall n :: n in cfg.profiles ==> Readable(w, cfg.profiles[n]))
    && (forall i :: 0 <= i < |cfg.pools| ==>
          cfg.pools[i].authProfile in db.profiles || cfg.pools[i].authProfile in cfg.profiles)
  }

  /** Merging never drops a row, an id or a secret, writes every profile and pool of the file, and leaves
      the others alone. */
  lemma ImportMerges(w: World, db: Database, cfg: Config, order: seq<string>)
    requires Lists(order, cfg.profiles.Keys)
    ensures Import(w, db, cfg, order).Some? <==> Importable(w, db, cfg)
    ensures Import(w, db, cfg, order).Some? ==>
              var d := Import(w, db, cfg, order).value;
              && (forall n :: n in d.profiles <==> n in db.profiles || n in cfg.profiles)
              && (forall n :: n in db.profiles && n !in cfg.profiles ==> d.profiles[n] == db.profiles[n])
              && (forall n :: n in cfg.profiles ==> Written(w, cfg.profiles[n], Lookup(db.profiles, n), d.profiles[n]))
              && (forall n :: n in d.pools <==> n in db.pools || Names(cfg.pools, n))
              && (forall n :: n in db.pools && !Names(cfg.pools, n) ==> d.pools[n] == db.pools[n])
              && (forall i :: 0 <= i < |cfg.pools| ==> PoolWritten(w, cfg.pools[i], db, d))
              && TargetsGrow(db, d) && db.renovates.Keys <= d.renovates.Keys
              && d.settings == ImportGlobal(w, db.settings, cfg.global)
  {
    hide ImportProfiles, ImportPools, ImportGlobal, Written, Readable, Names, ValidPool, ValidProfile;
    if ValidConfig(w, cfg) {
      var d0 := db.(settings := ImportGlobal(w, db.settings, cfg.global));
      ImportProfilesMerges(w, d0, cfg, order);
      var d1 := ImportProfiles(w, d0, cfg, order);
      if d1.Some? {
        ImportPoolsMerges(w, d1.value, cfg.pools);
        var d2 := ImportPools(w, d1.value, cfg.pools);
        if d2.Some? {
          forall i | 0 <= i < |cfg.pools| ensures PoolWritten(w, cfg.pools[i], db, d2.value) {
            assert PoolWritten(w, cfg.pools[i], d1.value, d2.value);
            hide RowWritten;
          }
        }
      }
    }
  }

  // ---------------------------------------------------------------- integrity

  lemma ProfileKeepsIntegrity(w: World, db: Database, name: string, p: SeedProfile)
    requires Integrity(db) && ImportProfile(w, db, name, p).Some?
    ensures Integrity(ImportProfile(w, db, name, p).value)
  {
    ProfileFiled(w, db, name, p);
    hide ImportProfile;
    var d := ImportProfile(w, db, name, p).value;
    FilingKeepsIntegrity(db, d, d.profiles[name]);
  }

  lemma ProfileFiled(w: World, db: Database, name: string, p: SeedProfile)
    requires ImportProfile(w, db, name, p).Some?
    ensures var d := ImportProfile(w, db, name, p).value;
            && name in d.profiles && d.profiles[name].name == name
            && Filed(db, d, d.profiles[name])
  {
    hide ResolvePrivateKey, ResolveToken, Sealed, Keep;
  }

  /** The row replaces the one of its name, or is new under the next id. */
  ghost predicate Filed(db: Database, d: Database, row: AuthProfile) {
    && d == db.(profiles := db.profiles[row.name := row], nextProfileId := d.nextProfileId)
    && (row.name in db.profiles ==> row.id == db.profiles[row.name].id && d.nextProfileId == db.nextProfileId)
    && (row.name !in db.profiles ==> row.id == db.nextProfileId && d.nextProfileId == db.nextProfileId + 1)
  }

  lemma FilingKeepsIntegrity(db: Database, d: Database, row: AuthProfile)
    requires Integrity(db) && Filed(db, d, row)
    ensures Integrity(d)
  {
    hide HasProfile;
    forall n | n in d.pools ensures HasProfile(d, d.pools[n].authProfileId) {
      StillThere(db, d, d.pools[n].authProfileId);
    }
  }

  lemma StillThere(db: Database, d: Database, id: int)
    requires HasProfile(db, id) && forall n :: n in db.profiles ==>
               n in d.profiles && d.profiles[n].id == db.profiles[n].id
    ensures HasProfile(d, id)
  {
    var n :| n in db.profiles && db.profiles[n].id == id;
    assert d.profiles[n].id == id;
  }

  lemma {:induction false} ProfilesKeepIntegrity(w: World, db: Database, cfg: Config, order: seq<string>)
    requires Integrity(db) && forall n :: n in order ==> n in cfg.profiles
    ensures ImportProfiles(w, db, cfg, order).Some? ==> Integrity(ImportProfiles(w, db, cfg, order).value)
  {
    hide Integrity, ImportProfile;
    if order != [] {
      var n := |order| - 1;
      ProfilesKeepIntegrity(w, db, cfg, order[..n]);
      var d := ImportProfiles(w, db, cfg, order[..n]);
      if d.Some? && ImportProfile(w, d.value, order[n], cfg.profiles[order[n]]).Some? {
        ProfileKeepsIntegrity(w, d.value, order[n], cfg.profiles[order[n]]);
      }
    }
  }

  lemma PoolKeepsIntegrity(w: World, db: Database, p: SeedPool)
    requires Integrity(db) && p.authProfile in db.profiles
    ensures Integrity(ImportPool(w, db, p).value)
  {
    hide RowFor, RenovateFor, HasProfile, TargetsOf;
    var id := if p.name !in db.pools then db.nextPoolId else db.pools[p.name].id;
    RowId(w, id, db.profiles[p.authProfile].id, p);
    var d := ImportPool(w, db, p).value;
    assert d.profiles == db.profiles;
    forall n | n in d.pools ensures HasProfile(d, d.pools[n].authProfileId) {
      if n == p.name {
        Named(d, p.authProfile);
      } else {
        StillThere(db, d, d.pools[n].authProfileId);
      }
    }
  }

  lemma Named(db: Database, n: string)
    requires n in db.profiles
    ensures HasProfile(db, db.profiles[n].id)
  {
  }

  lemma {:induction false} PoolsKeepIntegrity(w: World, db: Database, pools: seq<SeedPool>)
    requires Integrity(db)
    ensures ImportPools(w, db, pools).Some? ==> Integrity(ImportPools(w, db, pools).value)
  {
    hide Integrity;
    if pools != [] {
      var n := |pools| - 1;
      PoolsKeepIntegrity(w, db, pools[..n]);
      var d := ImportPools(w, db, pools[..n]);
      if d.Some? && pools[n].authProfile in d.value.profiles {
        PoolKeepsIntegrity(w, d.value, pools[n]);
      }
    }
  }

  lemma SettingsKeepIntegrity(db: Database, d: Database)
    requires Integrity(db) && d == db.(settings := d.settings)
    ensures Integrity(d)
  {
    hide HasProfile;
    forall n | n in db.pools ensures HasProfile(d, db.pools[n].authProfileId) {
      StillThere(db, d, db.pools[n].authProfileId);
    }
  }

  /** Every import keeps keys unique and every pool's profile in the database. */
  lemma ImportKeepsIntegrity(w: World, db: Database, cfg: Config, order: seq<string>)
    requires Integrity(db) && forall n :: n in order ==> n in cfg.profiles
    ensures Import(w, db, cfg, order).Some? ==> Integrity(Import(w, db, cfg, order).value)
  {
    var d0 := db.(settings := ImportGlobal(w, db.settings, cfg.global));
    SettingsKeepIntegrity(db, d0);
    hide Integrity, ValidConfig, ImportProfiles, ImportPools;
    ProfilesKeepIntegrity(w, d0, cfg, order);
    var d1 := ImportProfiles(w, d0, cfg, order);
    if d1.Some? {
      PoolsKeepIntegrity(w, d1.value, cfg.pools);
    }
  }

  // ---------------------------------------------------------------- settings

  /** A setting is overwritten by a positive number and otherwise left as it was. */
  ghost predicate SettingWritten(w: World, s: map<string, string>, t: map<string, string>, key: string, value: int) {
    Lookup(t, key) == if value > 0 then Some(w.itoa(value)) else Lookup(s, key)
  }

  lemma FourWritten(w: World, s: map<string, string>, a: string, b: string, c: string, d: string, g: Global)
    requires a != b && a != c && a != d && b != c && b != d && c != d
    ensures var t := WithSetting(w, WithSetting(w, WithSetting(w, WithSetting(w, s, a, g.totalAllowed), b, g.idleWarm),
                                                c, g.shutdownTimeout), d, g.retention);
            && SettingWritten(w, s, t, a, g.totalAllowed) && SettingWritten(w, s, t, b, g.idleWarm)
            && SettingWritten(w, s, t, c, g.shutdownTimeout) && SettingWritten(w, s, t, d, g.retention)
            && forall k :: k != a && k != b && k != c && k != d ==> Lookup(t, k) == Lookup(s, k)
  {
  }

  predicate IsGlobalKey(k: string) {
    k in {"total_allowed_runners", "total_idle_warm_pool", "shutdown_timeout_seconds", "job_retention_days"}
  }

  /** The four global settings of a file are written if positive; every other setting stays. */
  lemma GlobalWritten(w: World, s: map<string, string>, g: Global)
    ensures var t := ImportGlobal(w, s, g);
            && SettingWritten(w, s, t, "total_allowed_runners", g.totalAllowed)
            && SettingWritten(w, s, t, "total_idle_warm_pool", g.idleWarm)
            && SettingWritten(w, s, t, "shutdown_timeout_seconds", g.shutdownTimeout)
            && SettingWritten(w, s, t, "job_retention_days", g.retention)
            && forall k :: !IsGlobalKey(k) ==> Lookup(t, k) == Lookup(s, k)
  {
    hide WithSetting, SettingWritten, Lookup;
    var a, b, c, d := "total_allowed_runners", "total_idle_warm_pool", "shutdown_timeout_seconds", "job_retention_days";
    assert |a| == 21 && |b| == 20 && |c| == 24 && |d| == 18;
    FourWritten(w, s, a, b, c, d, g);
  }

  // ---------------------------------------------------------------- renovate rows

  /** The renovate row of an imported pool: as the file says, or untouched if the file says nothing. */
  ghost predicate RenovateWritten(p: SeedPool, db: Database, d: Database) {
    && p.name in d.pools
    && Lookup(d.renovates, d.pools[p.name].id) ==
       (if p.renovate.None? then Lookup(db.renovates, d.pools[p.name].id)
        else
          var r := p.renovate.value;
          Some(RenovateRow(r.enabled, if r.cron == "" then None else Some(r.cron),
                           if r.image == "" then "renovate/renovate:latest" else r.image)))
  }

  /** `id` is the pool id of one of these pools. */
  ghost predicate Touched(pools: seq<SeedPool>, d: Database, id: int) {
    exists i :: 0 <= i < |pools| && pools[i].name in d.pools && d.pools[pools[i].name].id == id
  }

  ghost predicate RenovatesMerged(pools: seq<SeedPool>, db: Database, d: Database) {
    && (forall i :: 0 <= i < |pools| ==> RenovateWritten(pools[i], db, d))
    && (forall id :: !Touched(pools, d, id) ==> Lookup(d.renovates, id) == Lookup(db.renovates, id))
  }

  /** Importing one pool changes the renovate row of that pool only. */
  lemma PoolRenovate(w: World, e: Database, p: SeedPool)
    requires p.authProfile in e.profiles
    ensures var d := ImportPool(w, e, p).value;
            && p.name in d.pools && RenovateWritten(p, e, d)
            && (forall n :: n in e.pools && n != p.name ==> n in d.pools && d.pools[n] == e.pools[n])
            && (forall id :: id != d.pools[p.name].id ==> Lookup(d.renovates, id) == Lookup(e.renovates, id))
  {
    hide RowFor;
    RowId(w, if p.name in e.pools then e.pools[p.name].id else e.nextPoolId, e.profiles[p.authProfile].id, p);
  }

  lemma PoolImports(w: World, db: Database, p: SeedPool)
    ensures ImportPool(w, db, p).Some? <==> p.authProfile in db.profiles
  {
  }

  lemma {:induction false} ImportPoolsRenovates(w: World, db: Database, pools: seq<SeedPool>)
    requires Integrity(db) && forall i, j :: 0 <= i < j < |pools| ==> pools[i].name != pools[j].name
    ensures ImportPools(w, db, pools).Some? ==> RenovatesMerged(pools, db, ImportPools(w, db, pools).value)
  {
    if pools != [] {
      hide ImportPool, RenovatesMerged, Integrity, RenovateWritten, Lookup;
      var k := |pools| - 1;
      var init, p := pools[..k], pools[k];
      ImportPoolsRenovates(w, db, init);
      PoolsKeepIntegrity(w, db, init);
      var e := ImportPools(w, db, init);
      if e.Some? {
        PoolImports(w, e.value, p);
        if p.authProfile in e.value.profiles {
          NextRenovate(w, pools, db, e.value);
        }
      }
    }
  }

  lemma NextRenovate(w: World, pools: seq<SeedPool>, db: Database, e: Database)
    requires Integrity(e) && forall i, j :: 0 <= i < j < |pools| ==> pools[i].name != pools[j].name
    requires pools != [] && RenovatesMerged(pools[..|pools| - 1], db, e)
    requires pools[|pools| - 1].authProfile in e.profiles
    ensures RenovatesMerged(pools, db, ImportPool(w, e, pools[|pools| - 1]).value)
  {
    hide ImportPool, RenovatesMerged, Integrity, RenovateWritten, Lookup;
    var p := pools[|pools| - 1];
    PoolImports(w, e, p);
    PoolRenovate(w, e, p);
    PoolKeepsIntegrity(w, e, p);
    RenovatesStep(pools, db, e, ImportPool(w, e, p).value);
  }

  lemma RenovatesStep(pools: seq<SeedPool>, db: Database, e: Database, d: Database)
    requires pools != [] && Integrity(d)
    requires forall i, j :: 0 <= i < j < |pools| ==> pools[i].name != pools[j].name
    requires RenovatesMerged(pools[..|pools| - 1], db, e)
    requires var p := pools[|pools| - 1];
             && p.name in d.pools && RenovateWritten(p, e, d)
             && (forall n :: n in e.pools && n != p.name ==> n in d.pools && d.pools[n] == e.pools[n])
             && (forall id :: id != d.pools[p.name].id ==> Lookup(d.renovates, id) == Lookup(e.renovates, id))
    ensures RenovatesMerged(pools, db, d)
  {
    hide Lookup;
    var k := |pools| - 1;
    var init, p := pools[..k], pools[k];
    forall i | 0 <= i < k ensures RenovateWritten(pools[i], db, d) {
      assert RenovateWritten(init[i], db, e);
      ApartFrom(d, pools[i].name, p.name);
    }
    forall id | Touched(init, e, id) ensures Touched(pools, d, id) && id != d.pools[p.name].id {
      var i :| 0 <= i < |init| && init[i].name in e.pools && e.pools[init[i].name].id == id;
      ApartFrom(d, pools[i].name, p.name);
      assert d.pools[pools[i].name].id == id;
    }
    assert Touched(pools, d, d.pools[p.name].id);
  }

  lemma ApartFrom(d: Database, m: string, n: string)
    requires Integrity(d) && m in d.pools && n in d.pools && m != n
    ensures d.pools[m].id != d.pools[n].id
  {
  }

  /** Every renovate section of a file is written to its pool's row; every other renovate row stays. */
  lemma ImportWritesRenovates(w: World, db: Database, cfg: Config, order: seq<string>)
    requires Integrity(db) && Lists(order, cfg.profiles.Keys)
    ensures Import(w, db, cfg, order).Some? ==> RenovatesMerged(cfg.pools, db, Import(w, db, cfg, order).value)
  {
    hide ImportProfiles, ImportPools, ImportGlobal, RenovatesMerged, ValidPool, ValidProfile;
    var d0 := db.(settings := ImportGlobal(w, db.settings, cfg.global));
    SettingsKeepIntegrity(db, d0);
    hide Integrity;
    ProfilesKeepIntegrity(w, d0, cfg, order);
    ImportProfilesMerges(w, d0, cfg, order);
    var d1 := ImportProfiles(w, d0, cfg, order);
    if ValidConfig(w, cfg) && d1.Some? {
      assert d1.value.renovates == db.renovates;
      ImportPoolsRenovates(w, d1.value, cfg.pools);
      var d2 := ImportPools(w, d1.value, cfg.pools);
      if d2.Some? {
        SameRenovates(cfg.pools, d1.value, db, d2.value);
      }
    }
  }

  lemma SameRenovates(pools: seq<SeedPool>, e: Database, db: Database, d: Database)
    requires RenovatesMerged(pools, e, d) && e.renovates == db.renovates
    ensures RenovatesMerged(pools, db, d)
  {
    hide Lookup, Touched;
    forall i | 0 <= i < |pools| ensures RenovateWritten(pools[i], db, d) {
      assert RenovateWritten(pools[i], e, d);
    }
  }

  // ---------------------------------------------------------------- what an export says

  /** An exported profile: its method and app id, a placeholder for a stored key, and for a stored token the
      name of an environment variable made from the profile's name, in the field of its method. */
  lemma ExportedProfile(w: World, p: AuthProfile)
    ensures var e := ExportProfile(w, p);
            var env := if p.token.Some? && p.token.value != "" then "SUPERVISOR_" + w.upper(p.name) + "_TOKEN" else "";
            && e.authMethod == p.authMethod && e.appId == (if p.appId.Some? then p.appId.value else 0)
            && e.privateKeyPath == (if p.privateKey.Some? && p.privateKey.value != "" then "${REDACTED}" else "")
            && e.giteaEnv == (if p.authMethod == "gitea_token" then env else "")
            && e.forgejoEnv == (if p.authMethod == "forgejo_token" then env else "")
            && e.tokenEnv == (if p.authMethod == "gitea_token" || p.authMethod == "forgejo_token" then "" else env)
            && e.privateKey == "" && e.token == ""
  {
  }

  /** An exported pool: its columns, its profile by name, its labels decoded if they can be, an absent limit as
      an empty one, and its renovate row if it has one. */
  lemma ExportedPool(w: World, db: Database, r: PoolRow)
    requires Integrity(db)
    ensures var e := ExportPool(w, db, r);
            && e.name == r.name && e.provider == r.provider && e.repositoryUrl == r.repositoryUrl && e.scope == r.scope
            && e.minIdle == r.minIdle && e.maxConcurrency == r.maxConcurrency && e.lifetime == r.lifetime
            && e.image == r.image && e.allowDocker == r.allowDocker
            && e.labels == (if w.decodeLabels(r.labels).Some? then w.decodeLabels(r.labels).value else [r.labels])
            && e.cpu == (if r.cpu.Some? then r.cpu.value else "")
            && e.memory == (if r.memory.Some? then r.memory.value else "")
            && (forall n :: n in db.profiles && db.profiles[n].id == r.authProfileId ==> e.authProfile == n)
    ensures var e := ExportPool(w, db, r);
            if r.id !in db.renovates then e.renovate.None?
            else
              var row := db.renovates[r.id];
              e.renovate == Some(SeedRenovate(row.enabled, if row.cron.Some? then row.cron.value else "", row.image))
  {
    forall n | n in db.profiles && db.profiles[n].id == r.authProfileId ensures ProfileName(db, r.authProfileId) == n {
      assert HasProfile(db, r.authProfileId);
    }
    hide ProfileName, Integrity;
  }

  /** The exported global numbers: what the four settings read as, nothing for one that is absent. */
  lemma ExportedGlobal(w: World, s: map<string, string>)
    ensures var g := ExportGlobal(w, s);
            && g.totalAllowed == (if "total_allowed_runners" in s then w.atoi(s["total_allowed_runners"]) else 0)
            && g.idleWarm == (if "total_idle_warm_pool" in s then w.atoi(s["total_idle_warm_pool"]) else 0)
            && g.shutdownTimeout ==
               (if "shutdown_timeout_seconds" in s then w.atoi(s["shutdown_timeout_seconds"]) else 0)
            && g.retention == (if "job_retention_days" in s then w.atoi(s["job_retention_days"]) else 0)
  {
  }

  // ---------------------------------------------------------------- nothing secret leaves

  /** The database with every ciphertext replaced by another of its presence. */
  ghost function Scrubbed(db: Database, cover: string): Database {
    db.(profiles := map n | n in db.profiles :: db.profiles[n].(
          privateKey := if HasSecret(db.profiles[n].privateKey) then Some(cover) else db.profiles[n].privateKey,
          token := if HasSecret(db.profiles[n].token) then Some(cover) else db.profiles[n].token))
  }

  lemma SameNames(db: Database, d: Database, id: int)
    requires Integrity(db) && d.profiles.Keys == db.profiles.Keys
    requires forall n :: n in db.profiles ==> d.profiles[n].id == db.profiles[n].id
    ensures ProfileName(d, id) == ProfileName(db, id)
  {
    if HasProfile(db, id) {
      StillThere(db, d, id);
    }
    if HasProfile(d, id) {
      StillThere(d, db, id);
    }
  }

  /** An export says which secrets exist and nothing else about them: no part of it depends on one. */
  lemma ExportHidesSecrets(w: World, db: Database, names: seq<string>, cover: string)
    requires Integrity(db) && cover != "" && forall n :: n in names ==> n in db.pools
    ensures Export(w, Scrubbed(db, cover), names) == Export(w, db, names)
    ensures forall n :: n in db.profiles ==>
              Export(w, db, names).profiles[n].privateKey == "" && Export(w, db, names).profiles[n].token == ""
  {
    var d := Scrubbed(db, cover);
    hide TokenEnv, LabelsOf, ProfileName, Integrity;
    forall n | n in db.profiles
      ensures ExportProfile(w, d.profiles[n]) == ExportProfile(w, db.profiles[n])
      ensures d.profiles[n].id == db.profiles[n].id
      ensures ExportProfile(w, db.profiles[n]).privateKey == ExportProfile(w, db.profiles[n]).token == ""
    {
    }
    hide Scrubbed, ExportProfile;
    forall i | 0 <= i < |names| ensures ExportPool(w, d, d.pools[names[i]]) == ExportPool(w, db, db.pools[names[i]]) {
      assert names[i] in names;
      SameNames(db, d, db.pools[names[i]].authProfileId);
    }
    SameExport(w, db, d, names);
  }

  lemma SameExport(w: World, db: Database, d: Database, names: seq<string>)
    requires d.settings == db.settings && d.profiles.Keys == db.profiles.Keys && d.pools == db.pools
    requires forall n :: n in names ==> n in db.pools
    requires forall n :: n in db.profiles ==> ExportProfile(w, d.profiles[n]) == ExportProfile(w, db.profiles[n])
    requires forall i :: 0 <= i < |names| ==>
               ExportPool(w, d, d.pools[names[i]]) == ExportPool(w, db, db.pools[names[i]])
    ensures Export(w, d, names) == Export(w, db, names)
  {
    hide ExportProfile, ExportPool, ExportGlobal;
    assert Export(w, d, names).profiles == Export(w, db, names).profiles;
    assert Export(w, d, names).pools == Export(w, db, names).pools;
  }
}
