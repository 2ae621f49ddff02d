/** What becomes of a file: whether what was imported can be exported and imported again
    (internal/db/seed.go). */
module SeedRounds {
  import opened Basics
  import opened Seed
  import opened SeedLaws
  import opened SeedMerge

  // ---------------------------------------------------------------- stored app ids

  /** Import, and the server when it creates or updates a profile, store an app id only if it is
      positive. */
  ghost predicate AppIdsStored(db: Database) {
    forall n :: n in db.profiles ==> db.profiles[n].appId.None? || db.profiles[n].appId.value > 0
  }

  /** Every import keeps stored app ids null or positive. */
  lemma ImportKeepsAppIds(w: World, db: Database, cfg: Config, order: seq<string>)
    requires AppIdsStored(db) && Lists(order, cfg.profiles.Keys) && Import(w, db, cfg, order).Some?
    ensures AppIdsStored(Import(w, db, cfg, order).value)
  {
    ImportMerges(w, db, cfg, order);
    hide Import, Readable, KeyWritten, TokenWritten, Names, PoolWritten;
    var d := Import(w, db, cfg, order).value;
    forall n | n in d.profiles ensures d.profiles[n].appId.None? || d.profiles[n].appId.value > 0 {
      if n in cfg.profiles {
        assert Written(w, cfg.profiles[n], Lookup(db.profiles, n), d.profiles[n]);
      }
    }
  }

  lemma StoredMeansPositive(w: World, db: Database)
    requires AppIdsStored(db) && Exportable(w, db)
    ensures AppIdsPositive(db)
  {
    hide ValidMethod, ExportablePool;
    forall n | n in db.profiles && db.profiles[n].authMethod == "github_app"
      ensures db.profiles[n].appId.Some? && db.profiles[n].appId.value > 0
    {
      assert ExportableProfile(w, db.profiles[n]);
    }
  }

  /** A second export and import is the identity. */
  lemma SecondRoundTrip(w: World, db: Database, names: seq<string>, order: seq<string>)
    requires Lawful(w) && Integrity(db) && AppIdsStored(db) && EnvEmpty(w, db) && Exportable(w, db)
    requires Lists(names, db.pools.Keys) && Lists(order, db.profiles.Keys)
    ensures var d := Marked(Normalised(w, db));
            && d.pools.Keys == db.pools.Keys && d.profiles.Keys == db.profiles.Keys
            && Import(w, d, Export(w, d, names), order) == Some(d)
  {
    StoredMeansPositive(w, db);
    hide Integrity, Exportable, Lawful, EnvEmpty, AppIdsPositive, Export, Import, Normalised;
    SecondImport(w, db, names, order);
  }

  // ---------------------------------------------------------------- files that do not come back

  /** Every GitHub app profile of the file has a positive app id; validation asks only that it is not zero. */
  ghost predicate FileAppIdsPositive(cfg: Config) {
    forall n :: n in cfg.profiles && cfg.profiles[n].authMethod == "github_app" ==> cfg.profiles[n].appId > 0
  }

  /** The rows the file does not mention are exportable. */
  ghost predicate RestExportable(w: World, db: Database, cfg: Config) {
    && (forall n :: n in db.profiles && n !in cfg.profiles ==> ExportableProfile(w, db.profiles[n]))
    && (forall n :: n in db.pools && !Names(cfg.pools, n) ==> ExportablePool(w, db.pools[n]))
  }

  lemma ImportedProfileExportable(w: World, p: SeedProfile, was: Option<AuthProfile>, now: AuthProfile)
    requires ValidProfile(w, now.name, p) && Written(w, p, was, now)
    ensures ExportableProfile(w, now) <==> (p.authMethod == "github_app" ==> p.appId > 0)
  {
    hide KeyWritten, TokenWritten;
  }

  lemma ImportedPoolExportable(w: World, p: SeedPool, authId: int, r: PoolRow)
    requires Lawful(w) && ValidPool(w, p) && RowWritten(w, p, authId, r)
    ensures ExportablePool(w, r)
  {
    assert w.decodeLabels(w.encodeLabels(p.labels)) == Some(p.labels);
    hide Lawful;
  }

  /** What a file leaves behind can be exported and imported again exactly if its GitHub app ids are all
      positive and the rows it did not mention could be. */
  lemma ImportedExportableExactly(w: World, db: Database, cfg: Config, order: seq<string>)
    requires Lawful(w) && Integrity(db) && Lists(order, cfg.profiles.Keys) && Import(w, db, cfg, order).Some?
    ensures Exportable(w, Import(w, db, cfg, order).value) <==> FileAppIdsPositive(cfg) && RestExportable(w, db, cfg)
  {
    var d := Import(w, db, cfg, order).value;
    assert ValidConfig(w, cfg);
    ImportMerges(w, db, cfg, order);
    ImportKeepsIntegrity(w, db, cfg, order);
    hide Import, Written, Names, ExportableProfile, ExportablePool, ValidProfile, ValidPool, RowWritten, Lawful,
        ImportGlobal;
    forall n | n in d.profiles
      ensures n in cfg.profiles ==>
                (ExportableProfile(w, d.profiles[n]) <==>
                 (cfg.profiles[n].authMethod == "github_app" ==> cfg.profiles[n].appId > 0))
    {
      if n in cfg.profiles {
        assert ValidProfile(w, n, cfg.profiles[n]);
        assert d.profiles[n].name == n;
        ImportedProfileExportable(w, cfg.profiles[n], Lookup(db.profiles, n), d.profiles[n]);
      }
    }
    forall n | n in d.pools && Names(cfg.pools, n) ensures ExportablePool(w, d.pools[n]) {
      NamedPoolExportable(w, db, d, cfg, n);
    }
    ExportableParts(w, db, d, cfg);
  }

  lemma NamedPoolExportable(w: World, db: Database, d: Database, cfg: Config, n: string)
    requires Lawful(w) && ValidConfig(w, cfg) && n in d.pools && Names(cfg.pools, n)
    requires forall i :: 0 <= i < |cfg.pools| ==> PoolWritten(w, cfg.pools[i], db, d)
    ensures ExportablePool(w, d.pools[n])
  {
    hide Lawful, ValidPool, RowWritten, ExportablePool;
    var i :| 0 <= i < |cfg.pools| && cfg.pools[i].name == n;
    assert PoolWritten(w, cfg.pools[i], db, d);
    ImportedPoolExportable(w, cfg.pools[i], d.profiles[cfg.pools[i].authProfile].id, d.pools[n]);
  }

  lemma ExportableParts(w: World, db: Database, d: Database, cfg: Config)
    requires forall n :: n in d.profiles <==> n in db.profiles || n in cfg.profiles
    requires forall n :: n in db.profiles && n !in cfg.profiles ==> d.profiles[n] == db.profiles[n]
    requires forall n :: n in d.pools <==> n in db.pools || Names(cfg.pools, n)
    requires forall n :: n in db.pools && !Names(cfg.pools, n) ==> d.pools[n] == db.pools[n]
    requires forall n :: n in cfg.profiles ==>
                           (ExportableProfile(w, d.profiles[n]) <==>
                            (cfg.profiles[n].authMethod == "github_app" ==> cfg.profiles[n].appId > 0))
    requires forall n :: n in d.pools && Names(cfg.pools, n) ==> ExportablePool(w, d.pools[n])
    ensures Exportable(w, d) <==> FileAppIdsPositive(cfg) && RestExportable(w, db, cfg)
  {
    hide ExportableProfile, ExportablePool, Names;
    if Exportable(w, d) {
      forall n | n in db.profiles && n !in cfg.profiles ensures ExportableProfile(w, db.profiles[n]) {
        assert ExportableProfile(w, d.profiles[n]);
      }
      forall n | n in db.pools && !Names(cfg.pools, n) ensures ExportablePool(w, db.pools[n]) {
        assert ExportablePool(w, d.pools[n]);
      }
      forall n | n in cfg.profiles && cfg.profiles[n].authMethod == "github_app" ensures cfg.profiles[n].appId > 0 {
        assert ExportableProfile(w, d.profiles[n]);
      }
    }
  }

  const NOTHING: Database := Database(map[], map[], map[], map[], map[], 1, 1)

  const BAD_PROFILE: SeedProfile := SeedProfile("github_app", -7, "", "", "", "", "", "")

  const BAD_FILE: Config := Config(Global(0, 0, 0, 0), map["gh" := BAD_PROFILE], [])

  /** A file with GitHub app id -7 imports into an empty database; what it leaves behind is refused when
      exported and imported again. */
  lemma NegativeAppIdFile(w: World)
    requires Lawful(w) && !w.blank("gh")
    ensures var first := Import(w, NOTHING, BAD_FILE, ["gh"]);
            && first.Some? && first.value.pools == map[] && "gh" in first.value.profiles
            && !Exportable(w, first.value)
            && Import(w, first.value, Export(w, first.value, []), ["gh"]).None?
  {
    BadFileImports(w);
    hide Import;
    ImportMerges(w, NOTHING, BAD_FILE, ["gh"]);
    ImportKeepsIntegrity(w, NOTHING, BAD_FILE, ["gh"]);
    ImportedExportableExactly(w, NOTHING, BAD_FILE, ["gh"]);
    var d := Import(w, NOTHING, BAD_FILE, ["gh"]).value;
    assert !FileAppIdsPositive(BAD_FILE) by { assert "gh" in BAD_FILE.profiles; }
    NoPoolsNamed();
    assert d.pools.Keys == {};
    hide Integrity, Exportable, ValidConfig, Written, Names, PoolWritten, Lawful;
    Unreturnable(w, d);
  }

  lemma NoPoolsNamed()
    ensures forall n :: !Names([], n)
  {
  }

  lemma BadFileImports(w: World)
    requires Lawful(w) && !w.blank("gh")
    ensures Lists(["gh"], BAD_FILE.profiles.Keys) && Importable(w, NOTHING, BAD_FILE) && Integrity(NOTHING)
  {
    assert ["gh"][0] in ["gh"];
    assert ValidProfile(w, "gh", BAD_PROFILE);
    assert Readable(w, BAD_PROFILE);
  }

  lemma Unreturnable(w: World, d: Database)
    requires Integrity(d) && d.pools.Keys == {} && "gh" in d.profiles && !Exportable(w, d)
    ensures d.pools == map[] && Import(w, d, Export(w, d, []), ["gh"]).None?
  {
    hide Exportable, Integrity;
    if ValidConfig(w, Export(w, d, [])) {
      ValidMeansExportable(w, d, []);
    }
  }
}
