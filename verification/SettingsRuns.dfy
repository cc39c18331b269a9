/** The running configuration over start-up, saves and restarts. */
module SettingsRuns {
  import opened Text
  import opened Decimal
  import opened Settings

  // ---------- the environment ----------

  /** The variables the program reads; an empty one counts as unset. */
  datatype Environment = Environment(
    supabaseURL: string, serviceKey: string, dbURL: string,
    s3Endpoint: string, s3Region: string, s3Bucket: string, s3AccessKeyID: string, s3SecretAccessKey: string,
    localPath: string, port: Option<int>, staticDir: string, storePath: string)

  function Pick(v: string, base: string): string {
    if v != "" then v else base
  }

  /** `applyEnv`; `port` is the number read from PORT, if there is one. */
  function ApplyEnv(c: Config, e: Environment): Config {
    Config(
      SupabaseConfig(
        Pick(e.supabaseURL, c.supabase.url), Pick(e.serviceKey, c.supabase.serviceKey), Pick(e.dbURL, c.supabase.databaseURL)),
      c.backup,
      c.destination.(
        localPath := Pick(e.localPath, c.destination.localPath),
        s3 := c.destination.s3.(
          endpoint := Pick(e.s3Endpoint, c.destination.s3.endpoint),
          region := Pick(e.s3Region, c.destination.s3.region),
          bucket := Pick(e.s3Bucket, c.destination.s3.bucket),
          accessKeyID := Pick(e.s3AccessKeyID, c.destination.s3.accessKeyID),
          secretAccessKey := Pick(e.s3SecretAccessKey, c.destination.s3.secretAccessKey))),
      Pick(e.storePath, c.storePath),
      ServerConfig(if e.port.Some? then e.port.value else c.server.port, c.server.host, Pick(e.staticDir, c.server.staticDir)))
  }

  const ENV_KEYS: set<Key> := {
    SupabaseURL, SupabaseServiceKey, SupabaseDBURL, S3Endpoint, S3Region, S3Bucket, S3AccessKeyID, S3SecretAccessKey, LocalPath}

  function VariableOf(e: Environment, k: Key): string {
    match k
    case SupabaseURL => e.supabaseURL
    case SupabaseServiceKey => e.serviceKey
    case SupabaseDBURL => e.dbURL
    case S3Endpoint => e.s3Endpoint
    case S3Region => e.s3Region
    case S3Bucket => e.s3Bucket
    case S3AccessKeyID => e.s3AccessKeyID
    case S3SecretAccessKey => e.s3SecretAccessKey
    case LocalPath => e.localPath
    case _ => ""
  }

  /** `EnvOverrides`. */
  function Overrides(e: Environment): (m: Rows)
    ensures NoneEmpty(m)
  {
    map k | k in ENV_KEYS && VariableOf(e, k) != "" :: VariableOf(e, k)
  }

  lemma OverrideRow(e: Environment, k: Key)
    ensures k in Overrides(e) <==> VariableOf(e, k) != ""
    ensures k in Overrides(e) ==> Overrides(e)[k] == VariableOf(e, k)
  {
    assert VariableOf(e, k) != "" ==> k in ENV_KEYS;
  }

  ghost predicate HoldsOverrides(m: Rows, e: Environment) {
    forall k :: (k in m <==> VariableOf(e, k) != "") && (k in m ==> m[k] == VariableOf(e, k))
  }

  lemma S3HasRows(c: S3Config, m: Rows)
    requires S3Endpoint in m ==> m[S3Endpoint] == c.endpoint
    requires S3Region in m ==> m[S3Region] == c.region
    requires S3Bucket in m ==> m[S3Bucket] == c.bucket
    requires S3AccessKeyID in m ==> m[S3AccessKeyID] == c.accessKeyID
    requires S3SecretAccessKey in m ==> m[S3SecretAccessKey] == c.secretAccessKey
    requires S3Prefix !in m && S3ForcePathStyle !in m
    ensures MergeS3(c, m) == c
  {
  }

  lemma S3HasOverrides(file: Config, e: Environment, m: Rows)
    requires HoldsOverrides(m, e)
    ensures var c := ApplyEnv(file, e); MergeS3(c.destination.s3, m) == c.destination.s3
  {
    S3HasRows(ApplyEnv(file, e).destination.s3, m);
  }

  lemma SupabaseHasOverrides(file: Config, e: Environment, m: Rows)
    requires HoldsOverrides(m, e)
    ensures var c := ApplyEnv(file, e);
            MergeSupabase(c.supabase, m) == c.supabase
            && Over(m, DestType, c.destination.kind) == c.destination.kind
            && Over(m, LocalPath, c.destination.localPath) == c.destination.localPath
  {
  }

  /** Keys that no environment variable covers. */
  lemma UncoveredUntouched(c: Config, e: Environment, m: Rows)
    requires HoldsOverrides(m, e)
    ensures MergeBackup(c.backup, m) == c.backup
    ensures MergeSFTP(c.destination.sftp, m) == c.destination.sftp
  {
    assert IncludeDatabase !in m && IncludeStorage !in m && Compress !in m && Buckets !in m;
    assert RetentionKeepLast !in m && RetentionKeepDays !in m;
    assert SFTPHost !in m && SFTPPort !in m && SFTPUser !in m && SFTPPassword !in m && SFTPKeyPath !in m && SFTPRemotePath !in m;
    assert MergeRetention(c.backup.retention, m) == c.backup.retention;
  }

  /** The file config with the environment applied already holds every override. */
  lemma EnvAlreadyApplied(file: Config, e: Environment)
    ensures Merge(ApplyEnv(file, e), Overrides(e)) == ApplyEnv(file, e)
  {
    forall k {
      OverrideRow(e, k);
    }
    S3HasOverrides(file, e, Overrides(e));
    SupabaseHasOverrides(file, e, Overrides(e));
    UncoveredUntouched(ApplyEnv(file, e), e, Overrides(e));
  }

  // ---------- the store ----------

  function Without(settings: Rows, left: set<Key>): Rows {
    map k | k in settings && k !in left :: settings[k]
  }

  lemma StoreOneMore(rows: Rows, settings: Rows, left: set<Key>, k: Key)
    requires k in left && left <= settings.Keys
    ensures rows + Stored(Without(settings, left - {k})) ==
              if settings[k] != "" then (rows + Stored(Without(settings, left)))[k := settings[k]]
              else rows + Stored(Without(settings, left))
  {
    var before, after := Stored(Without(settings, left)), Stored(Without(settings, left - {k}));
    assert after == if settings[k] != "" then before[k := settings[k]] else before;
  }

  class SettingsStore {
    var rows: Rows

    constructor (rows: Rows)
      ensures this.rows == rows
    {
      this.rows := rows;
    }

    /** `SetSettings`: upserts of the non-empty values in one transaction, committed at the end or not at all. */
    method SetSettings(settings: Rows, fails: bool) returns (ok: bool)
      modifies this
      ensures ok == !fails
      ensures rows == if fails then old(rows) else old(rows) + Stored(settings)
    {
      var tx := rows;
      var left := settings.Keys;
      assert Without(settings, left) == map[] && rows + Stored(map[]) == rows;
      while left != {}
        invariant left <= settings.Keys
        invariant rows == old(rows) && tx == rows + Stored(Without(settings, left))
        decreases |left|
      {
        var k :| k in left;
        StoreOneMore(rows, settings, left, k);
        left := left - {k};
        if settings[k] != "" {
          tx := tx[k := settings[k]];
        }
      }
      assert Without(settings, {}) == settings;
      if fails {
        return false;
      }
      rows := tx;
      return true;
    }
  }

  // ---------- start-up and saves, as functions of the state ----------

  /** The stored rows, the config in use, and the destination settings its destination was built from. */
  datatype App = App(rows: Rows, cfg: Config, dest: DestinationConfig)

  const FALLBACK :=
    DestinationConfig("local", "./backups", S3Config("", "", "", "", "", "", false), SFTPConfig("", 0, "", "", "", ""))

  /** The built-in config. */
  const DEFAULTS := Config(
    SupabaseConfig("", "", ""),
    BackupConfig(true, true, [], true, RetentionConfig(0, 0)),
    FALLBACK,
    "./supaback.db",
    ServerConfig(8080, "0.0.0.0", ""))

  /** The start-up order of `main`: config file and environment, stored rows, environment again, written back; then
      the destination, or the fallback when it cannot be opened. */
  function Started(base: Config, rows: Rows, env: Rows, readFails: bool, writeFails: bool, opens: bool): App {
    var loaded := if readFails then base else Merge(base, rows);
    var cfg := if env == map[] then loaded else Merge(loaded, env);
    App(if env == map[] || writeFails then rows else rows + Stored(env), cfg,
        if opens then cfg.destination else FALLBACK)
  }

  /** One request to save settings, with the store calls that fail during it, and whether the destination of the
      merged settings can be opened this time: a server that is down now may be up at the next save. */
  datatype Save = Save(incoming: Rows, writeFails: bool, readFails: bool, opens: bool)

  predicate IsComplete(q: Save) {
    !q.writeFails && !q.readFails
  }

  /** `UpdateSettings`. */
  function Saved(a: App, q: Save): App {
    if q.writeFails then a
    else
      var rows := a.rows + Stored(q.incoming);
      if q.readFails then a.(rows := rows)
      else
        var cfg := Merge(a.cfg, rows);
        App(rows, cfg, if q.opens then cfg.destination else a.dest)
  }

  class Server {
    const store: SettingsStore
    var cfg: Config
    var dest: DestinationConfig

    constructor (store: SettingsStore, cfg: Config, dest: DestinationConfig)
      ensures this.store == store && this.cfg == cfg && this.dest == dest
    {
      this.store := store;
      this.cfg := cfg;
      this.dest := dest;
    }

    function State(): App
      reads this, store
    {
      App(store.rows, cfg, dest)
    }

    /** `State.Update`. */
    method Update(cfg: Config, dest: DestinationConfig)
      modifies this
      ensures this.cfg == cfg && this.dest == dest
    {
      this.cfg := cfg;
      this.dest := dest;
    }

    /** `UpdateSettings`: store, read all rows back, merge them over the running config, rebuild the destination. */
    method UpdateSettings(q: Save) returns (status: nat)
      modifies this, store
      ensures State() == Saved(old(State()), q)
      ensures status == if q.writeFails || q.readFails then 500 else 200
      ensures status == 200 ==> Follows(cfg, q.incoming) && dest == if q.opens then cfg.destination else old(dest)
      ensures status != 200 ==> cfg == old(cfg) && dest == old(dest)
    {
      ghost var was := State();
      if IsComplete(q) {
        SaveReaches(was, q);
      }
      var written := store.SetSettings(q.incoming, q.writeFails);
      if !written || q.readFails {
        return 500;
      }
      var newCfg := Merge(cfg, store.rows);
      Update(newCfg, if q.opens then newCfg.destination else dest);
      return 200;
    }
  }

  /** `main` up to the running state. The environment is written back only when it overrides something. */
  method Start(store: SettingsStore, file: Config, e: Environment, readFails: bool, writeFails: bool, opens: bool)
    returns (server: Server)
    modifies store
    ensures fresh(server) && server.store == store
    ensures server.State() == Started(ApplyEnv(file, e), old(store.rows), Overrides(e), readFails, writeFails, opens)
  {
    var cfg := ApplyEnv(file, e);
    if !readFails {
      cfg := Merge(cfg, store.rows);
    }
    var env := Overrides(e);
    if env != map[] {
      cfg := Merge(cfg, env);
      var _ := store.SetSettings(env, writeFails);
    }
    server := new Server(store, cfg, if opens then cfg.destination else FALLBACK);
  }

  // ---------- what a save and a variable set ----------

  /** A complete save puts every value that it sends into its own field of the config in use; a setting that it does
      not send, and that has no stored row, stays as it was. */
  lemma SaveReaches(a: App, q: Save)
    requires IsComplete(q)
    ensures Follows(Saved(a, q).cfg, q.incoming)
    ensures forall k :: Given(q.incoming, k) ==> Given(Saved(a, q).rows, k) && Saved(a, q).rows[k] == q.incoming[k]
    ensures forall k :: k !in a.rows && !Given(q.incoming, k) ==> ShownAt(Saved(a, q).cfg, k) == ShownAt(a.cfg, k)
  {
    var rows := a.rows + Stored(q.incoming);
    RowsReachFields(a.cfg, rows);
    FollowsPart(Saved(a, q).cfg, rows, q.incoming);
    forall k | k !in a.rows && !Given(q.incoming, k) ensures ShownAt(Saved(a, q).cfg, k) == ShownAt(a.cfg, k) {
      UntoldStays(a.cfg, rows, k);
    }
  }

  /** The retention counts that a complete save sends are the ones in use, whatever was stored before. */
  lemma SavedCounts(a: App, q: Save, last: int, days: int)
    requires IsComplete(q) && MIN_INT <= last <= MAX_INT && MIN_INT <= days <= MAX_INT
    requires Given(q.incoming, RetentionKeepLast) && q.incoming[RetentionKeepLast] == Itoa(last)
    requires Given(q.incoming, RetentionKeepDays) && q.incoming[RetentionKeepDays] == Itoa(days)
    ensures Saved(a, q).cfg.backup.retention == RetentionConfig(last, days)
  {
    SaveReaches(a, q);
    AtoiItoa(last);
    AtoiItoa(days);
  }

  /** What a variable sets in the config, and what no variable sets. */
  lemma EnvSets(c: Config, e: Environment)
    ensures var d := ApplyEnv(c, e);
            && (e.port.Some? ==> d.server.port == e.port.value)
            && (e.port.None? ==> d.server.port == c.server.port)
            && (e.staticDir != "" ==> d.server.staticDir == e.staticDir)
            && (e.staticDir == "" ==> d.server.staticDir == c.server.staticDir)
            && (e.storePath != "" ==> d.storePath == e.storePath)
            && (e.storePath == "" ==> d.storePath == c.storePath)
            && d.server.host == c.server.host && d.backup == c.backup
            && d.destination.kind == c.destination.kind && d.destination.sftp == c.destination.sftp
    ensures forall k :: ShownAt(ApplyEnv(c, e), k) == if VariableOf(e, k) != "" then VariableOf(e, k) else ShownAt(c, k)
  {
  }

  /** The config has the value of each variable that is set, in the field the variable names. */
  predicate HoldsEnv(c: Config, e: Environment) {
    && HoldsSupabase(c.supabase, e)
    && HoldsS3(c.destination.s3, e)
    && (e.localPath != "" ==> c.destination.localPath == e.localPath)
    && (e.port.Some? ==> c.server.port == e.port.value)
    && (e.staticDir != "" ==> c.server.staticDir == e.staticDir)
    && (e.storePath != "" ==> c.storePath == e.storePath)
  }

  predicate HoldsSupabase(c: SupabaseConfig, e: Environment) {
    && (e.supabaseURL != "" ==> c.url == e.supabaseURL)
    && (e.serviceKey != "" ==> c.serviceKey == e.serviceKey)
    && (e.dbURL != "" ==> c.databaseURL == e.dbURL)
  }

  predicate HoldsS3(c: S3Config, e: Environment) {
    && (e.s3Endpoint != "" ==> c.endpoint == e.s3Endpoint)
    && (e.s3Region != "" ==> c.region == e.s3Region)
    && (e.s3Bucket != "" ==> c.bucket == e.s3Bucket)
    && (e.s3AccessKeyID != "" ==> c.accessKeyID == e.s3AccessKeyID)
    && (e.s3SecretAccessKey != "" ==> c.secretAccessKey == e.s3SecretAccessKey)
  }

  lemma SupabaseRows(c: SupabaseConfig, e: Environment)
    requires SupabaseFollows(c, Overrides(e))
    ensures HoldsSupabase(c, e)
  {
    OverrideRow(e, SupabaseURL);
    OverrideRow(e, SupabaseServiceKey);
    OverrideRow(e, SupabaseDBURL);
  }

  lemma S3EnvRows(c: S3Config, e: Environment)
    requires S3Follows(c, Overrides(e))
    ensures HoldsS3(c, e)
  {
    OverrideRow(e, S3Endpoint);
    OverrideRow(e, S3Region);
    OverrideRow(e, S3Bucket);
    OverrideRow(e, S3AccessKeyID);
    OverrideRow(e, S3SecretAccessKey);
  }

  lemma LoadedHoldsEnv(loaded: Config, file: Config, e: Environment)
    requires loaded.server == ApplyEnv(file, e).server && loaded.storePath == ApplyEnv(file, e).storePath
    ensures HoldsEnv(Merge(loaded, Overrides(e)), e)
  {
    var cfg := Merge(loaded, Overrides(e));
    RowsReachFields(loaded, Overrides(e));
    EnvSets(file, e);
    SupabaseRows(cfg.supabase, e);
    S3EnvRows(cfg.destination.s3, e);
    OverrideRow(e, LocalPath);
  }

  /** After any start-up, whatever is stored and whichever store call failed, every variable that is set has its value
      in the config in use, and every stored row that was read and that no variable covers has its own. */
  lemma StartReaches(file: Config, e: Environment, rows: Rows, readFails: bool, writeFails: bool, opens: bool)
    ensures var a := Started(ApplyEnv(file, e), rows, Overrides(e), readFails, writeFails, opens);
            HoldsEnv(a.cfg, e) && (!readFails ==> Follows(a.cfg, rows - Overrides(e).Keys))
  {
    var base, env := ApplyEnv(file, e), Overrides(e);
    var loaded := if readFails then base else Merge(base, rows);
    MergeNothing(loaded);
    LoadedHoldsEnv(loaded, file, e);
    if !readFails {
      MergeTwice(base, rows, env);
      RowsReachFields(base, rows + env);
      FollowsPart(Merge(loaded, env), rows + env, rows - env.Keys);
    }
  }

  // ---------- the running config over whole runs ----------

  function After(a: App, qs: seq<Save>): App {
    if qs == [] then a else Saved(After(a, qs[..|qs|-1]), qs[|qs|-1])
  }

  /** The config in use is one merge of the base with the current rows. */
  ghost predicate InSync(a: App, base: Config) {
    NoneEmpty(a.rows) && a.cfg == Merge(base, a.rows)
  }

  /** What `rows` has lost of `seen` only repeats the environment. */
  ghost predicate LosesOnlyEnv(seen: Rows, rows: Rows, env: Rows) {
    forall k :: k in seen && k !in rows ==> k in env && seen[k] == env[k]
  }

  /** The config in use is one merge of the base with rows seen earlier. */
  ghost predicate Behind(a: App, base: Config, env: Rows, seen: Rows) {
    NoneEmpty(a.rows) && NoneEmpty(seen) && LosesOnlyEnv(seen, a.rows, env) && a.cfg == Merge(base, seen)
  }

  lemma OverlayNoneEmpty(a: Rows, b: Rows)
    requires NoneEmpty(a) && NoneEmpty(b)
    ensures NoneEmpty(a + b)
  {
  }

  lemma NothingToDrop(m: Rows)
    requires NoneEmpty(m)
    ensures Stored(m) == m
  {
  }

  lemma BaseTakesEnv(base: Config, env: Rows, m: Rows)
    requires Merge(base, env) == base && NoneEmpty(m)
    ensures Merge(base, m) == Merge(base, env + m)
  {
    MergeTwice(base, env, m);
  }

  lemma SameOverlay(env: Rows, seen: Rows, rows: Rows)
    requires LosesOnlyEnv(seen, rows, env)
    ensures env + (seen + rows) == env + rows
  {
  }

  lemma LostRowsVanish(base: Config, env: Rows, seen: Rows, rows: Rows)
    requires Merge(base, env) == base && NoneEmpty(seen + rows) && NoneEmpty(rows)
    requires env + (seen + rows) == env + rows
    ensures Merge(base, seen + rows) == Merge(base, rows)
  {
    BaseTakesEnv(base, env, seen + rows);
    BaseTakesEnv(base, env, rows);
  }

  /** Merging all present rows over the running config forgets what the running config was built from. */
  lemma SeenRowsVanish(base: Config, env: Rows, seen: Rows, rows: Rows)
    requires Merge(base, env) == base && NoneEmpty(seen) && NoneEmpty(rows) && LosesOnlyEnv(seen, rows, env)
    ensures Merge(Merge(base, seen), rows) == Merge(base, rows)
  {
    OverlayNoneEmpty(seen, rows);
    SameOverlay(env, seen, rows);
    LostRowsVanish(base, env, seen, rows);
    MergeTwice(base, seen, rows);
  }

  lemma MergeNothing(c: Config)
    ensures Merge(c, map[]) == c
  {
  }

  /** After start-up, whatever failed, the config in use is one merge of the base; it is in step with the rows
      when both store calls succeeded. */
  lemma StartBehind(file: Config, e: Environment, rows: Rows, readFails: bool, writeFails: bool, opens: bool)
    requires NoneEmpty(rows)
    ensures var base, env := ApplyEnv(file, e), Overrides(e);
            var a := Started(base, rows, env, readFails, writeFails, opens);
            && Behind(a, base, env, (if readFails then map[] else rows) + env)
            && (!readFails && !writeFails ==> InSync(a, base))
  {
    var base, env := ApplyEnv(file, e), Overrides(e);
    NothingToDrop(env);
    if readFails {
      assert map[] + env == env;
      MergeNothing(base);
    } else if env == map[] {
      assert rows + env == rows;
    } else {
      MergeTwice(base, rows, env);
    }
  }

  /** A complete save brings the config in step with the rows, whatever failed before it. */
  lemma CompleteSaveSyncs(a: App, file: Config, e: Environment, seen: Rows, q: Save)
    requires Behind(a, ApplyEnv(file, e), Overrides(e), seen)
    requires IsComplete(q)
    ensures InSync(Saved(a, q), ApplyEnv(file, e))
  {
    EnvAlreadyApplied(file, e);
    OverlayNoneEmpty(a.rows, Stored(q.incoming));
    SeenRowsVanish(ApplyEnv(file, e), Overrides(e), seen, a.rows + Stored(q.incoming));
  }

  /** The rows the config in use was merged from, after one more save. */
  function SeenAfter(a: App, seen: Rows, q: Save): Rows {
    if !IsComplete(q) then seen else a.rows + Stored(q.incoming)
  }

  lemma SavedBehind(a: App, file: Config, e: Environment, seen: Rows, q: Save)
    requires Behind(a, ApplyEnv(file, e), Overrides(e), seen)
    ensures Behind(Saved(a, q), ApplyEnv(file, e), Overrides(e), SeenAfter(a, seen, q))
  {
    if !q.writeFails {
      OverlayNoneEmpty(a.rows, Stored(q.incoming));
      if !q.readFails {
        CompleteSaveSyncs(a, file, e, seen, q);
      }
    }
  }

  lemma {:induction false} RunBehind(a: App, file: Config, e: Environment, seen: Rows, qs: seq<Save>)
    returns (last: Rows)
    requires Behind(a, ApplyEnv(file, e), Overrides(e), seen)
    ensures Behind(After(a, qs), ApplyEnv(file, e), Overrides(e), last)
  {
    last := seen;
    if qs != [] {
      var before := RunBehind(a, file, e, seen, qs[..|qs|-1]);
      SavedBehind(After(a, qs[..|qs|-1]), file, e, before, qs[|qs|-1]);
      last := SeenAfter(After(a, qs[..|qs|-1]), before, qs[|qs|-1]);
    }
  }

  /** The rows were read back after the last write that reached the store; `start` speaks for start-up. */
  predicate ReadBack(start: bool, qs: seq<Save>) {
    if qs == [] then start
    else if qs[|qs|-1].writeFails then ReadBack(start, qs[..|qs|-1])
    else !qs[|qs|-1].readFails
  }

  /** The k-th save is the last one whose write reached the store. */
  predicate LastWritten(qs: seq<Save>, k: nat) {
    k < |qs| && !qs[k].writeFails && forall j :: k < j < |qs| ==> qs[j].writeFails
  }

  /** The rows have been read back exactly when the last save whose write reached the store read them, or, without such a
      save, when start-up did. */
  lemma {:induction false} ReadBackMeans(start: bool, qs: seq<Save>)
    ensures forall k: nat :: LastWritten(qs, k) ==> (ReadBack(start, qs) <==> !qs[k].readFails)
    ensures (forall j :: 0 <= j < |qs| ==> qs[j].writeFails) ==> ReadBack(start, qs) == start
  {
    if qs != [] {
      var init := qs[..|qs|-1];
      ReadBackMeans(start, init);
      forall k: nat | LastWritten(qs, k) ensures ReadBack(start, qs) <==> !qs[k].readFails {
        if k < |qs| - 1 {
          assert qs[|qs|-1].writeFails;
          assert LastWritten(init, k) && init[k] == qs[k];
        }
      }
      if forall j :: 0 <= j < |qs| ==> qs[j].writeFails {
        assert forall j :: 0 <= j < |init| ==> init[j] == qs[j];
      }
    }
  }

  /** From start-up through any run of saves, with any pattern of store failures, the config in use is one merge
      of the base config with the current rows, as long as the last write was read back. */
  lemma {:induction false} RunInSync(
      file: Config, e: Environment, rows: Rows, readFails: bool, writeFails: bool, opens: bool, qs: seq<Save>)
    requires NoneEmpty(rows) && ReadBack(!readFails && !writeFails, qs)
    ensures var started := Started(ApplyEnv(file, e), rows, Overrides(e), readFails, writeFails, opens);
            InSync(After(started, qs), ApplyEnv(file, e))
  {
    var a := Started(ApplyEnv(file, e), rows, Overrides(e), readFails, writeFails, opens);
    StartBehind(file, e, rows, readFails, writeFails, opens);
    if qs != [] {
      var init, q := qs[..|qs|-1], qs[|qs|-1];
      if q.writeFails {
        RunInSync(file, e, rows, readFails, writeFails, opens, init);
      } else {
        var seen := RunBehind(a, file, e, (if readFails then map[] else rows) + Overrides(e), init);
        CompleteSaveSyncs(After(a, init), file, e, seen, q);
      }
    }
  }

  /** The opening that the destination in use comes from: 0 for start-up, k for the k-th save; None while nothing has
      been opened. Only a complete save tries. */
  function LastOpening(atStart: bool, qs: seq<Save>): Option<nat> {
    if qs == [] then if atStart then Some(0) else None
    else if IsComplete(qs[|qs|-1]) && qs[|qs|-1].opens then Some(|qs|)
    else LastOpening(atStart, qs[..|qs|-1])
  }

  /** The last attempt to open the configured destination succeeded. */
  predicate Opened(atStart: bool, qs: seq<Save>) {
    if qs == [] then atStart
    else if IsComplete(qs[|qs|-1]) then qs[|qs|-1].opens
    else Opened(atStart, qs[..|qs|-1])
  }

  /** The k-th save is the last complete one. */
  predicate LastComplete(qs: seq<Save>, k: nat) {
    k < |qs| && IsComplete(qs[k]) && forall j :: k < j < |qs| ==> !IsComplete(qs[j])
  }

  /** The last attempt succeeded exactly when the last complete save opened its destination, or, without a complete save,
      when start-up did. */
  lemma {:induction false} OpenedMeans(atStart: bool, qs: seq<Save>)
    ensures forall k: nat :: LastComplete(qs, k) ==> (Opened(atStart, qs) <==> qs[k].opens)
    ensures (forall j :: 0 <= j < |qs| ==> !IsComplete(qs[j])) ==> Opened(atStart, qs) == atStart
  {
    if qs != [] {
      var init := qs[..|qs|-1];
      OpenedMeans(atStart, init);
      forall k: nat | LastComplete(qs, k) ensures Opened(atStart, qs) <==> qs[k].opens {
        if k < |qs| - 1 {
          assert !IsComplete(qs[|qs|-1]);
          assert LastComplete(init, k) && init[k] == qs[k];
        }
      }
      if forall j :: 0 <= j < |qs| ==> !IsComplete(qs[j]) {
        assert forall j :: 0 <= j < |init| ==> init[j] == qs[j];
      }
    }
  }

  /** What a run never touches: the store path and the server section of the config, and the keys of the stored
      rows. */
  ghost predicate Steady(a: App, base: Config, rows: Rows) {
    a.cfg.storePath == base.storePath && a.cfg.server == base.server && rows.Keys <= a.rows.Keys
  }

  lemma {:induction false} RunSteady(
      base: Config, rows: Rows, env: Rows, readFails: bool, writeFails: bool, opens: bool, qs: seq<Save>)
    ensures Steady(After(Started(base, rows, env, readFails, writeFails, opens), qs), base, rows)
  {
    if qs != [] {
      RunSteady(base, rows, env, readFails, writeFails, opens, qs[..|qs|-1]);
    }
  }

  /** What `start` must say about the destination it begins with. */
  ghost predicate BeginsWith(start: App, opens: bool) {
    start.dest == if opens then start.cfg.destination else FALLBACK
  }

  /** Over any run, with any pattern of store failures and of destinations that open at one save and not at another,
      the destination in use is the one configured when a destination was last opened, or the fallback if none ever
      was; it is the configured one if the last attempt succeeded. */
  lemma {:induction false} DestinationInUse(start: App, opens: bool, qs: seq<Save>)
    requires BeginsWith(start, opens)
    ensures var a, k := After(start, qs), LastOpening(opens, qs);
            && (k.None? ==> a.dest == FALLBACK)
            && (k.Some? ==> k.value <= |qs| && a.dest == After(start, qs[..k.value]).cfg.destination)
            && (Opened(opens, qs) ==> a.dest == a.cfg.destination)
  {
    if qs == [] {
      assert qs[..0] == qs;
    } else {
      var init := qs[..|qs|-1];
      DestinationInUse(start, opens, init);
      var k := LastOpening(opens, init);
      if k.Some? { assert init[..k.value] == qs[..k.value]; }
      assert qs[..|qs|] == qs;
    }
  }

  lemma StartBegins(base: Config, rows: Rows, env: Rows, readFails: bool, writeFails: bool, opens: bool)
    ensures BeginsWith(Started(base, rows, env, readFails, writeFails, opens), opens)
  {
  }

  /** The same from start-up, whatever its store calls met. */
  lemma DestinationFromStart(
      base: Config, rows: Rows, env: Rows, readFails: bool, writeFails: bool, opens: bool, qs: seq<Save>)
    ensures var start := Started(base, rows, env, readFails, writeFails, opens);
            var a, k := After(start, qs), LastOpening(opens, qs);
            && (k.None? ==> a.dest == FALLBACK && a.dest.kind == "local" && a.dest.localPath == "./backups")
            && (k.Some? ==> k.value <= |qs| && a.dest == After(start, qs[..k.value]).cfg.destination)
            && (Opened(opens, qs) ==> a.dest == a.cfg.destination)
  {
    StartBegins(base, rows, env, readFails, writeFails, opens);
    DestinationInUse(Started(base, rows, env, readFails, writeFails, opens), opens, qs);
  }

  // ---------- restarts ----------

  lemma CoveredS3Row(c: S3Config, m: Rows)
    ensures S3Endpoint in m ==> MergeS3(c, m).endpoint == m[S3Endpoint]
    ensures S3Region in m && m[S3Region] != "" ==> MergeS3(c, m).region == m[S3Region]
    ensures S3Bucket in m && m[S3Bucket] != "" ==> MergeS3(c, m).bucket == m[S3Bucket]
    ensures S3AccessKeyID in m && m[S3AccessKeyID] != "" ==> MergeS3(c, m).accessKeyID == m[S3AccessKeyID]
    ensures S3SecretAccessKey in m && m[S3SecretAccessKey] != "" ==> MergeS3(c, m).secretAccessKey == m[S3SecretAccessKey]
  {
  }

  /** How one row covered by a variable shows in a merged config. */
  lemma CoveredRow(c: Config, m: Rows, k: Key)
    requires k in ENV_KEYS && k in m && m[k] != ""
    ensures ShownAt(Merge(c, m), k) == m[k]
  {
    CoveredS3Row(c.destination.s3, m);
    match k
    case SupabaseURL =>
    case SupabaseServiceKey =>
    case SupabaseDBURL =>
    case LocalPath =>
    case _ =>
  }

  lemma OverlayAgrees(env: Rows, rows: Rows)
    requires forall k :: k in env && k in rows ==> rows[k] == env[k]
    ensures rows + env == env + rows
  {
  }

  /** A restart from the stored rows: the config that was in use with the environment laid over it. It is the same
      config exactly when no stored row differs from the variable that covers it. */
  lemma RestartLaysEnv(a: App, file: Config, e: Environment, opens: bool)
    requires InSync(a, ApplyEnv(file, e))
    ensures var restarted := Started(ApplyEnv(file, e), a.rows, Overrides(e), false, false, opens);
            && restarted.cfg == Merge(a.cfg, Overrides(e))
            && (restarted.cfg == a.cfg <==> forall k :: k in Overrides(e) && k in a.rows ==> a.rows[k] == Overrides(e)[k])
  {
    var base, env := ApplyEnv(file, e), Overrides(e);
    MergeNothing(a.cfg);
    if forall k :: k in env && k in a.rows ==> a.rows[k] == env[k] {
      EnvAlreadyApplied(file, e);
      OverlayAgrees(env, a.rows);
      MergeTwice(base, a.rows, env);
      BaseTakesEnv(base, env, a.rows);
    } else {
      var k :| k in env && k in a.rows && a.rows[k] != env[k];
      CoveredRow(a.cfg, env, k);
      CoveredRow(base, a.rows, k);
    }
  }

  /** A concrete choice in the settings page that a restart takes back. */
  lemma RestartForgetsPage()
    ensures var e := Environment("env", "", "", "", "", "", "", "", "", None, "", "");
            var base, env := ApplyEnv(DEFAULTS, e), Overrides(e);
            var running := Saved(Started(base, map[], env, false, false, true), Save(map[SupabaseURL := "page"], false, false, true));
            && running.cfg.supabase.url == "page"
            && Started(base, running.rows, env, false, false, true).cfg.supabase.url == "env"
  {
    var e := Environment("env", "", "", "", "", "", "", "", "", None, "", "");
    OverrideRow(e, SupabaseURL);
  }

  // ---------- saving what was shown ----------

  /** Sending back what the settings page shows leaves the running config as it was, exactly when no bucket name
      holds a comma. */
  lemma SaveShown(a: App, base: Config, opens: bool)
    requires InSync(a, base) && MachineInts(base)
    ensures Saved(a, Save(Shown(a.cfg), false, false, opens)).cfg == a.cfg <==> NoCommas(a.cfg.backup.buckets)
  {
    var shown := Stored(Shown(a.cfg));
    MergeTwice(a.cfg, a.rows, shown);
    MergeAbsorbs(base, a.rows, a.rows);
    MergeKeepsMachineInts(base, a.rows);
    ShownMergesBack(a.cfg);
  }

  /** What a saved page makes of a bucket list that it does not show as empty. */
  lemma SavedBuckets(a: App, opens: bool)
    requires Join(a.cfg.backup.buckets, ',') != ""
    ensures Saved(a, Save(Shown(a.cfg), false, false, opens)).cfg.backup.buckets == Split(Join(a.cfg.backup.buckets, ','), ',')
  {
    ShownRow(a.cfg, Buckets);
    var rows := a.rows + Stored(Shown(a.cfg));
    assert rows[Buckets] == Join(a.cfg.backup.buckets, ',');
    assert Merge(a.cfg, rows).backup.buckets == MergeBuckets(rows, a.cfg.backup.buckets);
  }

  lemma OneCommaSplits()
    ensures Join(["a,b"], ',') != "" && Split(Join(["a,b"], ','), ',') == ["a", "b"]
  {
    SplitPlain("a", ',');
    SplitPlain("b", ',');
    SplitHead("a", "b", ',');
    assert Join(["a,b"], ',') == "a" + [','] + "b";
  }

  /** A concrete bucket that saving the page unchanged splits in two. */
  lemma CommaSplits()
    ensures var running := Started(DEFAULTS.(backup := DEFAULTS.backup.(buckets := ["a,b"])), map[], map[], false, false, true);
            Saved(running, Save(Shown(running.cfg), false, false, true)).cfg.backup.buckets == ["a", "b"]
  {
    var file := DEFAULTS.(backup := DEFAULTS.backup.(buckets := ["a,b"]));
    MergeNothing(file);
    OneCommaSplits();
    SavedBuckets(Started(file, map[], map[], false, false, true), true);
  }

  // ---------- fields that cannot be cleared ----------

  lemma EmptyRowDropped(m: Rows, k: Key)
    requires k in m && m[k] == ""
    ensures Stored(m) == Stored(m - {k})
  {
  }

  /** An emptied field is not stored, so the branches of the merge that clear a field are never reached: the save
      does what it would do without that field. */
  lemma EmptyValueIsIgnored(a: App, q: Save, k: Key)
    requires k in q.incoming && q.incoming[k] == ""
    ensures Saved(a, q) == Saved(a, q.(incoming := q.incoming - {k}))
  {
    EmptyRowDropped(q.incoming, k);
  }

  /** Emptying the bucket list in the settings page: the page promises that this backs up all buckets, that is, an
      empty list. After a complete save the list is empty exactly when it was empty already and no list is stored;
      a list from the config file stays as a stored one does. */
  lemma EmptiedBuckets(a: App, q: Save)
    requires NoneEmpty(a.rows) && IsComplete(q)
    requires Buckets in q.incoming && q.incoming[Buckets] == ""
    ensures Saved(a, q).cfg.backup.buckets == [] <==> Buckets !in a.rows && a.cfg.backup.buckets == []
    ensures forall base :: InSync(a, base) ==> Saved(a, q).cfg.backup.buckets == a.cfg.backup.buckets
  {
    var rows := a.rows + Stored(q.incoming);
    assert Buckets !in Stored(q.incoming);
    assert Saved(a, q).cfg.backup.buckets == MergeBuckets(rows, a.cfg.backup.buckets);
    forall base | InSync(a, base) ensures Saved(a, q).cfg.backup.buckets == a.cfg.backup.buckets {
      assert a.cfg.backup.buckets == MergeBuckets(a.rows, base.backup.buckets);
    }
  }

  /** Two configs that back up only the bucket "photos", one by a stored row and one by the config file, and go on
      doing so after the list has been emptied in the page. */
  lemma EmptiedPhotosStay()
    ensures var emptied := Save(map[Buckets := ""], false, false, true);
            var stored := Started(DEFAULTS, map[Buckets := "photos"], map[], false, false, true);
            var inFile := Started(DEFAULTS.(backup := DEFAULTS.backup.(buckets := ["photos"])), map[], map[], false, false, true);
            && Saved(stored, emptied).cfg.backup.buckets == ["photos"]
            && Saved(inFile, emptied).cfg.backup.buckets == ["photos"]
  {
    SplitPlain("photos", ',');
    assert ',' !in "photos";
    MergeNothing(DEFAULTS);
  }

  /** A bucket list is stored after the run; `chosen` speaks for the beginning. */
  predicate HasChoice(chosen: bool, qs: seq<Save>) {
    if qs == [] then chosen
    else
      var q := qs[|qs|-1];
      HasChoice(chosen, qs[..|qs|-1]) || (!q.writeFails && Buckets in q.incoming && q.incoming[Buckets] != "")
  }

  /** Some complete save of the run has merged a stored bucket list. */
  predicate MergesChoice(chosen: bool, qs: seq<Save>) {
    qs != [] && (MergesChoice(chosen, qs[..|qs|-1]) || (IsComplete(qs[|qs|-1]) && HasChoice(chosen, qs)))
  }

  /** A choice of buckets is for good: a run ends with the empty list, which stands for all buckets, exactly when it
      began with it and no complete save has merged a stored list. */
  lemma {:induction false} BucketChoiceStays(a: App, qs: seq<Save>)
    requires NoneEmpty(a.rows)
    ensures var b := After(a, qs);
            && NoneEmpty(b.rows) && (Buckets in b.rows <==> HasChoice(Buckets in a.rows, qs))
            && (b.cfg.backup.buckets == [] <==> a.cfg.backup.buckets == [] && !MergesChoice(Buckets in a.rows, qs))
  {
    if qs != [] {
      var before, q := After(a, qs[..|qs|-1]), qs[|qs|-1];
      BucketChoiceStays(a, qs[..|qs|-1]);
      OverlayNoneEmpty(before.rows, Stored(q.incoming));
      if IsComplete(q) {
        var rows := before.rows + Stored(q.incoming);
        assert Saved(before, q).cfg.backup.buckets == MergeBuckets(rows, before.cfg.backup.buckets);
      }
    }
  }
}
