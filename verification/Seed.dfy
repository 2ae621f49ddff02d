/** internal/db/seed.go: exporting the database as a sanitized configuration and importing a
    configuration in merge mode. */
module Seed {
  import opened Basics

  const MAX_INT := 0x7fff_ffff_ffff_ffff
  const REDACTED := "${REDACTED}"
  const DEFAULT_RENOVATE_IMAGE := "renovate/renovate:latest"

  // ---------------------------------------------------------------- the database

  /** Tables keyed by their UNIQUE columns; ciphertexts are opaque. */
  datatype AuthProfile = AuthProfile(
    id: int, name: string, authMethod: string, appId: Option<int>,
    privateKey: Option<string>, token: Option<string>)

  datatype PoolRow = PoolRow(
    id: int, name: string, provider: string, repositoryUrl: string, scope: string, authProfileId: int,
    minIdle: int, maxConcurrency: int, labels: string, image: string, allowDocker: bool, lifetime: int,
    cpu: Option<string>, memory: Option<string>)

  datatype RenovateRow = RenovateRow(enabled: bool, cron: Option<string>, image: string)

  datatype Database = Database(
    settings: map<string, string>, profiles: map<string, AuthProfile>, pools: map<string, PoolRow>,
    targets: map<int, set<string>>, renovates: map<int, RenovateRow>, nextProfileId: int, nextPoolId: int)

  /** Keys, uniqueness and foreign keys, as the schema enforces them. */
  ghost predicate Integrity(db: Database) {
    && (forall n :: n in db.profiles ==> db.profiles[n].name == n && db.profiles[n].id < db.nextProfileId)
    && (forall m, n :: m in db.profiles && n in db.profiles && db.profiles[m].id == db.profiles[n].id ==> m == n)
    && (forall n :: n in db.pools ==> db.pools[n].name == n && db.pools[n].id < db.nextPoolId)
    && (forall m, n :: m in db.pools && n in db.pools && db.pools[m].id == db.pools[n].id ==> m == n)
    && (forall n :: n in db.pools ==> HasProfile(db, db.pools[n].authProfileId))
    && (forall n :: n in db.pools ==> db.pools[n].id in db.targets)
  }

  ghost predicate HasProfile(db: Database, id: int) {
    exists n :: n in db.profiles && db.profiles[n].id == id
  }

  // ---------------------------------------------------------------- the configuration

  datatype Global = Global(totalAllowed: int, idleWarm: int, shutdownTimeout: int, retention: int)

  datatype SeedProfile = SeedProfile(
    authMethod: string, appId: int, privateKeyPath: string, privateKey: string,
    giteaEnv: string, forgejoEnv: string, tokenEnv: string, token: string)

  datatype SeedRenovate = SeedRenovate(enabled: bool, cron: string, image: string)

  datatype SeedPool = SeedPool(
    name: string, provider: string, repositoryUrl: string, scope: string, authProfile: string,
    minIdle: int, maxConcurrency: int, labels: seq<string>, image: string, allowDocker: bool, lifetime: int,
    cpu: string, memory: string, renovate: Option<SeedRenovate>)

  datatype Config = Config(global: Global, profiles: map<string, SeedProfile>, pools: seq<SeedPool>)

  /** Library code and the outside world: blank strings, upper-casing, number and label codecs, files,
      the environment, encryption (None on error). */
  datatype World = World(
    blank: string -> bool, upper: string -> string, atoi: string -> int, itoa: int -> string,
    encodeLabels: seq<string> -> string, decodeLabels: string -> Option<seq<string>>,
    readFile: string -> Option<string>, getenv: string -> string, encrypt: string -> Option<string>)

  ghost predicate Lawful(w: World) {
    && w.blank("")
    && (forall s :: w.atoi(s) <= MAX_INT)
    && (forall n :: 0 < n <= MAX_INT ==> w.atoi(w.itoa(n)) == n)
    && (forall ls :: w.decodeLabels(w.encodeLabels(ls)) == Some(ls))
  }

  predicate ValidMethod(m: string) {
    m in {"github_app", "gitea_token", "forgejo_token", "pat"}
  }

  predicate ValidProfile(w: World, name: string, p: SeedProfile) {
    !w.blank(name) && ValidMethod(p.authMethod) && (p.authMethod == "github_app" ==> p.appId != 0)
  }

  predicate ValidPool(w: World, p: SeedPool) {
    && !w.blank(p.name)
    && p.provider in {"github", "gitea", "forgejo"}
    && !w.blank(p.repositoryUrl)
    && p.scope in {"", "repo", "org", "global"}
    && p.labels != []
    && !w.blank(p.image)
    && !w.blank(p.authProfile)
  }

  ghost predicate ValidConfig(w: World, cfg: Config) {
    && (forall n :: n in cfg.profiles ==> ValidProfile(w, n, cfg.profiles[n]))
    && (forall i :: 0 <= i < |cfg.pools| ==> ValidPool(w, cfg.pools[i]))
    && (forall i, j :: 0 <= i < j < |cfg.pools| ==> cfg.pools[i].name != cfg.pools[j].name)
  }

  // ---------------------------------------------------------------- import, merge mode

  function WithSetting(w: World, settings: map<string, string>, key: string, value: int): map<string, string> {
    if value > 0 then settings[key := w.itoa(value)] else settings
  }

  function ImportGlobal(w: World, settings: map<string, string>, g: Global): map<string, string> {
    var s1 := WithSetting(w, settings, "total_allowed_runners", g.totalAllowed);
    var s2 := WithSetting(w, s1, "total_idle_warm_pool", g.idleWarm);
    var s3 := WithSetting(w, s2, "shutdown_timeout_seconds", g.shutdownTimeout);
    WithSetting(w, s3, "job_retention_days", g.retention)
  }

  /** resolveCredentials: None if a key file cannot be read. */
  function ResolvePrivateKey(w: World, p: SeedProfile): Option<string> {
    if p.privateKey != "" then Some(p.privateKey)
    else if p.privateKeyPath != "" && p.privateKeyPath != REDACTED then w.readFile(p.privateKeyPath)
    else Some("")
  }

  function ResolveToken(w: World, p: SeedProfile): string {
    if p.token != "" then p.token
    else if p.giteaEnv != "" then w.getenv(p.giteaEnv)
    else if p.forgejoEnv != "" then w.getenv(p.forgejoEnv)
    else if p.tokenEnv != "" then w.getenv(p.tokenEnv)
    else ""
  }

  /** EncryptNullString: nothing to encrypt is null; None is an encryption error. */
  function Sealed(w: World, plain: string): Option<Option<string>> {
    if plain == "" then Some(None)
    else match w.encrypt(plain)
      case None => None
      case Some(c) => Some(Some(c))
  }

  /** An incoming secret replaces the stored one; an empty one keeps it. */
  function Keep(incoming: Option<string>, stored: Option<string>): Option<string> {
    if incoming.Some? then incoming else stored
  }

  function ImportProfile(w: World, db: Database, name: string, p: SeedProfile): Option<Database> {
    var plain := ResolvePrivateKey(w, p);
    if plain.None? then None
    else
      var key, tok := Sealed(w, plain.value), Sealed(w, ResolveToken(w, p));
      if key.None? || tok.None? then None
      else
        var appId := if p.appId > 0 then Some(p.appId) else None;
        if name in db.profiles then
          var was := db.profiles[name];
          Some(db.(profiles := db.profiles[name := AuthProfile(
                       was.id, name, p.authMethod, appId, Keep(key.value, was.privateKey),
                           Keep(tok.value, was.token))]))
        else
          Some(db.(profiles := db.profiles[name := AuthProfile(
                       db.nextProfileId, name, p.authMethod, appId, key.value, tok.value)],
                   nextProfileId := db.nextProfileId + 1))
  }

  ghost function ImportProfiles(w: World, db: Database, cfg: Config, order: seq<string>): Option<Database>
    requires forall n :: n in order ==> n in cfg.profiles
  {
    if order == [] then Some(db)
    else
      var n := |order| - 1;
      var d := ImportProfiles(w, db, cfg, order[..n]);
      if d.None? then None else ImportProfile(w, d.value, order[n], cfg.profiles[order[n]])
  }

  function Defaulted(value: int, default: int): int {
    if value <= 0 then default else value
  }

  function Nullable(s: string): Option<string> {
    if s == "" then None else Some(s)
  }

  function RowFor(w: World, id: int, authId: int, p: SeedPool): PoolRow {
    PoolRow(id, p.name, p.provider, p.repositoryUrl, if p.scope == "" then "repo" else p.scope, authId,
            Defaulted(p.minIdle, 1), Defaulted(p.maxConcurrency, 5), w.encodeLabels(p.labels), p.image, p.allowDocker,
            Defaulted(p.lifetime, 7200), Nullable(p.cpu), Nullable(p.memory))
  }

  function RenovateFor(r: SeedRenovate): RenovateRow {
    RenovateRow(r.enabled, Nullable(r.cron), if r.image == "" then DEFAULT_RENOVATE_IMAGE else r.image)
  }

  function TargetsOf(db: Database, id: int): set<string> {
    if id in db.targets then db.targets[id] else {}
  }

  /** None if the pool names a profile that neither the file nor the database has. */
  function ImportPool(w: World, db: Database, p: SeedPool): Option<Database> {
    if p.authProfile !in db.profiles then None
    else
      var isNew := p.name !in db.pools;
      var id := if isNew then db.nextPoolId else db.pools[p.name].id;
      Some(db.(pools := db.pools[p.name := RowFor(w, id, db.profiles[p.authProfile].id, p)],
               nextPoolId := if isNew then db.nextPoolId + 1 else db.nextPoolId,
               targets :=
                   db.targets[id := TargetsOf(db, id) + (if p.repositoryUrl == "" then {} else {p.repositoryUrl})],
               renovates := if p.renovate.Some? then db.renovates[id := RenovateFor(p.renovate.value)]
                   else db.renovates))
  }

  ghost function ImportPools(w: World, db: Database, pools: seq<SeedPool>): Option<Database> {
    if pools == [] then Some(db)
    else
      var n := |pools| - 1;
      var d := ImportPools(w, db, pools[..n]);
      if d.None? then None else ImportPool(w, d.value, pools[n])
  }

  /** ImportSeedConfig in merge mode up to the commit; `order` is the order the profiles were met in. */
  ghost function Import(w: World, db: Database, cfg: Config, order: seq<string>): Option<Database>
    requires forall n :: n in order ==> n in cfg.profiles
  {
    if !ValidConfig(w, cfg) then None
    else
      var d := ImportProfiles(w, db.(settings := ImportGlobal(w, db.settings, cfg.global)), cfg, order);
      if d.None? then None else ImportPools(w, d.value, cfg.pools)
  }

  /** MarkSeedImported. */
  function Marked(db: Database): Database {
    db.(settings := db.settings["seed_imported" := "true"])
  }

  // ---------------------------------------------------------------- export

  function Setting(w: World, settings: map<string, string>, key: string): int {
    if key in settings then w.atoi(settings[key]) else 0
  }

  function ExportGlobal(w: World, settings: map<string, string>): Global {
    Global(Setting(w, settings, "total_allowed_runners"), Setting(w, settings, "total_idle_warm_pool"),
           Setting(w, settings, "shutdown_timeout_seconds"), Setting(w, settings, "job_retention_days"))
  }

  function TokenEnv(w: World, name: string): string {
    "SUPERVISOR_" + w.upper(name) + "_TOKEN"
  }

  predicate HasSecret(s: Option<string>) {
    s.Some? && s.value != ""
  }

  function ExportProfile(w: World, p: AuthProfile): SeedProfile {
    var env := if HasSecret(p.token) then TokenEnv(w, p.name) else "";
    SeedProfile(p.authMethod, if p.appId.Some? then p.appId.value else 0,
                if HasSecret(p.privateKey) then REDACTED else "", "",
                if p.authMethod == "gitea_token" then env else "",
                if p.authMethod == "forgejo_token" then env else "",
                if p.authMethod != "gitea_token" && p.authMethod != "forgejo_token" then env else "", "")
  }

  function LabelsOf(w: World, raw: string): seq<string> {
    match w.decodeLabels(raw)
    case Some(ls) => ls
    case None => [raw]
  }

  function Text(s: Option<string>): string {
    if s.Some? then s.value else ""
  }

  ghost function ProfileName(db: Database, id: int): string {
    if HasProfile(db, id) then var n :| n in db.profiles && db.profiles[n].id == id; n else ""
  }

  ghost function ExportPool(w: World, db: Database, r: PoolRow): SeedPool {
    SeedPool(r.name, r.provider, r.repositoryUrl, r.scope, ProfileName(db, r.authProfileId), r.minIdle,
             r.maxConcurrency,
             LabelsOf(w, r.labels), r.image, r.allowDocker, r.lifetime, Text(r.cpu), Text(r.memory),
             if r.id in db.renovates
             then Some(SeedRenovate(db.renovates[r.id].enabled, Text(db.renovates[r.id].cron),
                                    db.renovates[r.id].image))
             else None)
  }

  /** ExportSanitizedConfig; `names` lists the pools in the order they are written. */
  ghost function Export(w: World, db: Database, names: seq<string>): Config
    requires forall n :: n in names ==> n in db.pools
  {
    Config(ExportGlobal(w, db.settings),
           map n | n in db.profiles :: ExportProfile(w, db.profiles[n]),
           seq(|names|, i requires 0 <= i < |names| => ExportPool(w, db, db.pools[names[i]])))
  }

  // ---------------------------------------------------------------- the normal form

  function NormalProfile(p: AuthProfile): AuthProfile {
    p.(appId := if p.appId.Some? && p.appId.value > 0 then p.appId else None)
  }

  function NormalText(s: Option<string>): Option<string> {
    if s == Some("") then None else s
  }

  function NormalPool(w: World, r: PoolRow): PoolRow {
    r.(scope := if r.scope == "" then "repo" else r.scope,
       minIdle := Defaulted(r.minIdle, 1), maxConcurrency := Defaulted(r.maxConcurrency, 5),
       lifetime := Defaulted(r.lifetime, 7200), labels := w.encodeLabels(LabelsOf(w, r.labels)),
       cpu := NormalText(r.cpu), memory := NormalText(r.memory))
  }

  function NormalRenovate(r: RenovateRow): RenovateRow {
    RenovateRow(r.enabled, NormalText(r.cron), if r.image == "" then DEFAULT_RENOVATE_IMAGE else r.image)
  }

  /** Positive numbers under these keys in their canonical spelling. */
  ghost function Renumbered(w: World, s: map<string, string>, keys: set<string>): map<string, string> {
    map k | k in s :: if k in keys && w.atoi(s[k]) > 0 then w.itoa(w.atoi(s[k])) else s[k]
  }

  ghost function NormalSettings(w: World, settings: map<string, string>): map<string, string> {
    Renumbered(w, settings,
               {"total_allowed_runners", "total_idle_warm_pool", "shutdown_timeout_seconds", "job_retention_days"})
  }

  ghost function NormalProfiles(profiles: map<string, AuthProfile>, done: set<string>): map<string, AuthProfile> {
    map n | n in profiles :: if n in done then NormalProfile(profiles[n]) else profiles[n]
  }

  ghost function NormalPools(w: World, pools: map<string, PoolRow>, done: set<string>): map<string, PoolRow> {
    map n | n in pools :: if n in done then NormalPool(w, pools[n]) else pools[n]
  }

  /** Some pool in `done` has this id. */
  ghost predicate Owned(pools: map<string, PoolRow>, done: set<string>, id: int) {
    exists n :: n in done && n in pools && pools[n].id == id
  }

  ghost function Urls(pools: map<string, PoolRow>, done: set<string>, id: int): set<string> {
    set n | n in done && n in pools && pools[n].id == id :: pools[n].repositoryUrl
  }

  ghost function NormalTargets(pools: map<string, PoolRow>, targets: map<int, set<string>>, done: set<string>)
    : map<int, set<string>>
  {
    map id | id in targets :: targets[id] + Urls(pools, done, id)
  }

  ghost function NormalRenovates(pools: map<string, PoolRow>, rows: map<int, RenovateRow>, done: set<string>)
    : map<int, RenovateRow>
  {
    map id | id in rows :: if Owned(pools, done, id) then NormalRenovate(rows[id]) else rows[id]
  }

  /** The database with the pools in `done`, their targets and their renovate rows in normal form. */
  ghost function WithPools(w: World, db: Database, done: set<string>): Database {
    db.(pools := NormalPools(w, db.pools, done), targets := NormalTargets(db.pools, db.targets, done),
        renovates := NormalRenovates(db.pools, db.renovates, done))
  }

  /** The normal form: app ids null or positive, positive limits, re-encoded labels, no empty-string
      nulls, the repository among the targets.  Ids and ciphertexts stay. */
  ghost function Normalised(w: World, db: Database): Database {
    WithPools(w, db.(settings := NormalSettings(w, db.settings),
                     profiles := NormalProfiles(db.profiles, db.profiles.Keys)), db.pools.Keys)
  }

  /** What the importer demands of an exported database. */
  predicate ExportableProfile(w: World, p: AuthProfile) {
    && !w.blank(p.name) && p.authMethod in {"github_app", "gitea_token", "forgejo_token", "pat"}
    && (p.authMethod == "github_app" ==> p.appId.Some? && p.appId.value != 0)
  }

  predicate ExportablePool(w: World, r: PoolRow) {
    && !w.blank(r.name) && r.provider in {"github", "gitea", "forgejo"}
    && !w.blank(r.repositoryUrl) && r.scope in {"", "repo", "org", "global"}
    && LabelsOf(w, r.labels) != [] && !w.blank(r.image)
  }

  ghost predicate Exportable(w: World, db: Database) {
    && (forall n :: n in db.profiles ==> ExportableProfile(w, db.profiles[n]))
    && (forall n :: n in db.pools ==> ExportablePool(w, db.pools[n]))
  }
}
