/** The configuration and its flat settings map: merging stored rows over a config, and showing a config as
    rows. */
module Settings {
  import opened Text
  import opened Decimal

  /** The keys of the settings table; their strings are pairwise distinct. Any other key is stored but unread. */
  datatype Key =
    | SupabaseURL | SupabaseServiceKey | SupabaseDBURL
    | IncludeDatabase | IncludeStorage | Compress | Buckets
    | DestType | LocalPath
    | S3Endpoint | S3Region | S3Bucket | S3Prefix | S3AccessKeyID | S3SecretAccessKey | S3ForcePathStyle
    | SFTPHost | SFTPPort | SFTPUser | SFTPPassword | SFTPKeyPath | SFTPRemotePath
    | RetentionKeepLast | RetentionKeepDays
    | Other(name: string)

  type Rows = map<Key, string>

  datatype SupabaseConfig = SupabaseConfig(url: string, serviceKey: string, databaseURL: string)
  datatype RetentionConfig = RetentionConfig(keepLast: int, keepDays: int)
  datatype BackupConfig = BackupConfig(
    includeDatabase: bool, includeStorage: bool, buckets: seq<string>, compress: bool, retention: RetentionConfig)
  datatype S3Config = S3Config(
    endpoint: string, region: string, bucket: string, prefix: string,
    accessKeyID: string, secretAccessKey: string, forcePathStyle: bool)
  datatype SFTPConfig = SFTPConfig(
    host: string, port: int, user: string, password: string, keyPath: string, remotePath: string)
  datatype DestinationConfig = DestinationConfig(kind: string, localPath: string, s3: S3Config, sftp: SFTPConfig)
  datatype ServerConfig = ServerConfig(port: int, host: string, staticDir: string)
  datatype Config = Config(
    supabase: SupabaseConfig, backup: BackupConfig, destination: DestinationConfig,
    storePath: string, server: ServerConfig)

  // ---------- MergeFromMap ----------

  /** A row that overrides only when it is not empty. */
  function Over(m: Rows, k: Key, base: string): string {
    if k in m && m[k] != "" then m[k] else base
  }

  /** A row that overrides whenever it is present, also to clear the field. */
  function OverOrClear(m: Rows, k: Key, base: string): string {
    if k in m then m[k] else base
  }

  function OverBool(m: Rows, k: Key, base: bool): bool {
    if k in m && m[k] != "" then m[k] == "true" else base
  }

  function OverInt(m: Rows, k: Key, base: int): int {
    if k in m && m[k] != "" then Atoi(m[k]) else base
  }

  /** The value `strconv.ParseBool` returns beside its error: false for a malformed word. */
  function ParseBool(s: string): bool {
    s == "1" || s == "t" || s == "T" || s == "TRUE" || s == "true" || s == "True"
  }

  function MergeBuckets(m: Rows, base: seq<string>): seq<string> {
    if Buckets !in m then base else if m[Buckets] == "" then [] else Split(m[Buckets], ',')
  }

  function MergeSupabase(c: SupabaseConfig, m: Rows): SupabaseConfig {
    SupabaseConfig(Over(m, SupabaseURL, c.url), Over(m, SupabaseServiceKey, c.serviceKey), Over(m, SupabaseDBURL, c.databaseURL))
  }

  function MergeRetention(c: RetentionConfig, m: Rows): RetentionConfig {
    RetentionConfig(OverInt(m, RetentionKeepLast, c.keepLast), OverInt(m, RetentionKeepDays, c.keepDays))
  }

  function MergeBackup(c: BackupConfig, m: Rows): BackupConfig {
    BackupConfig(
      OverBool(m, IncludeDatabase, c.includeDatabase),
      OverBool(m, IncludeStorage, c.includeStorage),
      MergeBuckets(m, c.buckets),
      OverBool(m, Compress, c.compress),
      MergeRetention(c.retention, m))
  }

  function MergeS3(c: S3Config, m: Rows): S3Config {
    S3Config(
      OverOrClear(m, S3Endpoint, c.endpoint),
      Over(m, S3Region, c.region),
      Over(m, S3Bucket, c.bucket),
      OverOrClear(m, S3Prefix, c.prefix),
      Over(m, S3AccessKeyID, c.accessKeyID),
      Over(m, S3SecretAccessKey, c.secretAccessKey),
      if S3ForcePathStyle in m && m[S3ForcePathStyle] != "" then ParseBool(m[S3ForcePathStyle]) else c.forcePathStyle)
  }

  function MergeSFTP(c: SFTPConfig, m: Rows): SFTPConfig {
    SFTPConfig(
      Over(m, SFTPHost, c.host),
      OverInt(m, SFTPPort, c.port),
      Over(m, SFTPUser, c.user),
      Over(m, SFTPPassword, c.password),
      OverOrClear(m, SFTPKeyPath, c.keyPath),
      Over(m, SFTPRemotePath, c.remotePath))
  }

  function MergeDestination(c: DestinationConfig, m: Rows): DestinationConfig {
    DestinationConfig(Over(m, DestType, c.kind), Over(m, LocalPath, c.localPath), MergeS3(c.s3, m), MergeSFTP(c.sftp, m))
  }

  /** `MergeFromMap`. */
  function Merge(c: Config, m: Rows): Config {
    c.(supabase := MergeSupabase(c.supabase, m),
       backup := MergeBackup(c.backup, m),
       destination := MergeDestination(c.destination, m))
  }

  // ---------- ToMap, and what GetSettings shows ----------

  function FormatBool(b: bool): string {
    if b then "true" else "false"
  }

  const KEYS: set<Key> := {
    SupabaseURL, SupabaseServiceKey, SupabaseDBURL, IncludeDatabase, IncludeStorage, Compress, Buckets,
    DestType, LocalPath, S3Endpoint, S3Region, S3Bucket, S3Prefix, S3AccessKeyID, S3SecretAccessKey, S3ForcePathStyle,
    SFTPHost, SFTPPort, SFTPUser, SFTPPassword, SFTPKeyPath, SFTPRemotePath, RetentionKeepLast, RetentionKeepDays}

  /** One row of `ToMap`. */
  function ShownAt(c: Config, k: Key): string {
    match k
    case SupabaseURL => c.supabase.url
    case SupabaseServiceKey => c.supabase.serviceKey
    case SupabaseDBURL => c.supabase.databaseURL
    case IncludeDatabase => FormatBool(c.backup.includeDatabase)
    case IncludeStorage => FormatBool(c.backup.includeStorage)
    case Compress => FormatBool(c.backup.compress)
    case Buckets => Join(c.backup.buckets, ',')
    case DestType => c.destination.kind
    case LocalPath => c.destination.localPath
    case S3Endpoint => c.destination.s3.endpoint
    case S3Region => c.destination.s3.region
    case S3Bucket => c.destination.s3.bucket
    case S3Prefix => c.destination.s3.prefix
    case S3AccessKeyID => c.destination.s3.accessKeyID
    case S3SecretAccessKey => c.destination.s3.secretAccessKey
    case S3ForcePathStyle => FormatBool(c.destination.s3.forcePathStyle)
    case SFTPHost => c.destination.sftp.host
    case SFTPPort => Itoa(c.destination.sftp.port)
    case SFTPUser => c.destination.sftp.user
    case SFTPPassword => c.destination.sftp.password
    case SFTPKeyPath => c.destination.sftp.keyPath
    case SFTPRemotePath => c.destination.sftp.remotePath
    case RetentionKeepLast => Itoa(c.backup.retention.keepLast)
    case RetentionKeepDays => Itoa(c.backup.retention.keepDays)
    case Other(_) => ""
  }

  /** `ToMap`; `GetSettings` answers the same strings. */
  function Shown(c: Config): Rows {
    map k | k in KEYS :: ShownAt(c, k)
  }

  // ---------- merging is an overlay ----------

  predicate NoneEmpty(m: Rows) {
    forall k :: k in m ==> m[k] != ""
  }

  /** What `SetSettings` stores of a map. */
  function Stored(m: Rows): Rows {
    map k | k in m && m[k] != "" :: m[k]
  }

  lemma OverTwice(a: Rows, b: Rows)
    requires NoneEmpty(b)
    ensures forall k, x :: Over(b, k, Over(a, k, x)) == Over(a + b, k, x)
    ensures forall k, x :: OverOrClear(b, k, OverOrClear(a, k, x)) == OverOrClear(a + b, k, x)
    ensures forall k, x :: OverBool(b, k, OverBool(a, k, x)) == OverBool(a + b, k, x)
    ensures forall k, x :: OverInt(b, k, OverInt(a, k, x)) == OverInt(a + b, k, x)
    ensures forall x :: MergeBuckets(b, MergeBuckets(a, x)) == MergeBuckets(a + b, x)
  {
  }

  lemma BackupTwice(c: BackupConfig, a: Rows, b: Rows)
    requires NoneEmpty(b)
    ensures MergeBackup(MergeBackup(c, a), b) == MergeBackup(c, a + b)
  {
    OverTwice(a, b);
  }

  lemma S3Twice(c: S3Config, a: Rows, b: Rows)
    requires NoneEmpty(b)
    ensures MergeS3(MergeS3(c, a), b) == MergeS3(c, a + b)
  {
    OverTwice(a, b);
  }

  lemma SFTPTwice(c: SFTPConfig, a: Rows, b: Rows)
    requires NoneEmpty(b)
    ensures MergeSFTP(MergeSFTP(c, a), b) == MergeSFTP(c, a + b)
  {
    OverTwice(a, b);
  }

  /** Merging twice is merging once with the second map laid over the first. */
  lemma MergeTwice(c: Config, a: Rows, b: Rows)
    requires NoneEmpty(b)
    ensures Merge(Merge(c, a), b) == Merge(c, a + b)
  {
    OverTwice(a, b);
    BackupTwice(c.backup, a, b);
    S3Twice(c.destination.s3, a, b);
    SFTPTwice(c.destination.sftp, a, b);
  }

  /** Rows that are all overridden later leave no trace. */
  lemma MergeAbsorbs(c: Config, a: Rows, b: Rows)
    requires NoneEmpty(b) && a.Keys <= b.Keys
    ensures Merge(Merge(c, a), b) == Merge(c, b)
  {
    MergeTwice(c, a, b);
    assert a + b == b;
  }

  /** The integers of a config are machine integers. */
  predicate MachineInts(c: Config) {
    && MIN_INT <= c.destination.sftp.port <= MAX_INT
    && MIN_INT <= c.backup.retention.keepLast <= MAX_INT
    && MIN_INT <= c.backup.retention.keepDays <= MAX_INT
  }

  lemma MergeKeepsMachineInts(c: Config, m: Rows)
    requires MachineInts(c)
    ensures MachineInts(Merge(c, m))
  {
    var merged := Merge(c, m);
    assert merged.destination.sftp.port == OverInt(m, SFTPPort, c.destination.sftp.port);
    assert merged.backup.retention == MergeRetention(c.backup.retention, m);
  }

  predicate NoCommas(names: seq<string>) {
    forall b :: b in names ==> ',' !in b
  }

  /** Bucket names survive being shown and read back exactly when none holds a comma. */
  lemma BucketsSurvive(names: seq<string>)
    requires Join(names, ',') != ""
    ensures Split(Join(names, ','), ',') == names <==> NoCommas(names)
  {
    if NoCommas(names) {
      SplitJoin(names, ',');
    }
    JoinSplit(Join(names, ','), ',');
  }

  lemma EmptyJoin(names: seq<string>)
    requires Join(names, ',') == ""
    ensures NoCommas(names)
  {
    assert |names| <= 1;
  }

  /** The row of `k` is `v`, left out when that is empty. */
  predicate RowIs(m: Rows, k: Key, v: string) {
    (k in m <==> v != "") && (k in m ==> m[k] == v)
  }

  /** A row as shown, if it is stored at all. */
  lemma ShownRow(c: Config, k: Key)
    requires !k.Other?
    ensures RowIs(Stored(Shown(c)), k, ShownAt(c, k))
  {
    assert k in KEYS;
  }

  lemma IntBack(m: Rows, k: Key, i: int)
    requires MIN_INT <= i <= MAX_INT && RowIs(m, k, Itoa(i))
    ensures OverInt(m, k, i) == i
  {
    AtoiItoa(i);
  }

  lemma BucketsBack(m: Rows, names: seq<string>)
    requires RowIs(m, Buckets, Join(names, ','))
    ensures MergeBuckets(m, names) == names <==> NoCommas(names)
  {
    if Join(names, ',') == "" {
      EmptyJoin(names);
    } else {
      BucketsSurvive(names);
    }
  }

  lemma RetentionBack(c: RetentionConfig, m: Rows)
    requires MIN_INT <= c.keepLast <= MAX_INT && MIN_INT <= c.keepDays <= MAX_INT
    requires RowIs(m, RetentionKeepLast, Itoa(c.keepLast)) && RowIs(m, RetentionKeepDays, Itoa(c.keepDays))
    ensures MergeRetention(c, m) == c
  {
    IntBack(m, RetentionKeepLast, c.keepLast);
    IntBack(m, RetentionKeepDays, c.keepDays);
  }

  lemma BackupBack(c: BackupConfig, m: Rows)
    requires RowIs(m, IncludeDatabase, FormatBool(c.includeDatabase)) && RowIs(m, IncludeStorage, FormatBool(c.includeStorage))
    requires RowIs(m, Compress, FormatBool(c.compress)) && MergeRetention(c.retention, m) == c.retention
    ensures MergeBackup(c, m) == c.(buckets := MergeBuckets(m, c.buckets))
  {
  }

  lemma S3Back(c: S3Config, m: Rows)
    requires RowIs(m, S3Endpoint, c.endpoint) && RowIs(m, S3Region, c.region) && RowIs(m, S3Bucket, c.bucket)
    requires RowIs(m, S3Prefix, c.prefix) && RowIs(m, S3AccessKeyID, c.accessKeyID)
    requires RowIs(m, S3SecretAccessKey, c.secretAccessKey) && RowIs(m, S3ForcePathStyle, FormatBool(c.forcePathStyle))
    ensures MergeS3(c, m) == c
  {
  }

  lemma SFTPBack(c: SFTPConfig, m: Rows)
    requires MIN_INT <= c.port <= MAX_INT
    requires RowIs(m, SFTPHost, c.host) && RowIs(m, SFTPPort, Itoa(c.port)) && RowIs(m, SFTPUser, c.user)
    requires RowIs(m, SFTPPassword, c.password) && RowIs(m, SFTPKeyPath, c.keyPath) && RowIs(m, SFTPRemotePath, c.remotePath)
    ensures MergeSFTP(c, m) == c
  {
    IntBack(m, SFTPPort, c.port);
  }

  lemma SupabaseBack(c: SupabaseConfig, m: Rows)
    requires RowIs(m, SupabaseURL, c.url) && RowIs(m, SupabaseServiceKey, c.serviceKey) && RowIs(m, SupabaseDBURL, c.databaseURL)
    ensures MergeSupabase(c, m) == c
  {
  }

  lemma DestinationBack(c: DestinationConfig, m: Rows)
    requires RowIs(m, DestType, c.kind) && RowIs(m, LocalPath, c.localPath)
    requires MergeS3(c.s3, m) == c.s3 && MergeSFTP(c.sftp, m) == c.sftp
    ensures MergeDestination(c, m) == c
  {
  }

  /** The rows are those a config shows. */
  ghost predicate Shows(m: Rows, c: Config) {
    forall k: Key :: !k.Other? ==> RowIs(m, k, ShownAt(c, k))
  }

  lemma SupabaseShown(c: Config, m: Rows)
    requires Shows(m, c)
    ensures MergeSupabase(c.supabase, m) == c.supabase
  {
    assert ShownAt(c, SupabaseURL) == c.supabase.url;
    assert ShownAt(c, SupabaseServiceKey) == c.supabase.serviceKey;
    assert ShownAt(c, SupabaseDBURL) == c.supabase.databaseURL;
    SupabaseBack(c.supabase, m);
  }

  lemma BackupShown(c: Config, m: Rows)
    requires MachineInts(c) && Shows(m, c)
    ensures MergeBackup(c.backup, m) == c.backup.(buckets := MergeBuckets(m, c.backup.buckets))
    ensures MergeBuckets(m, c.backup.buckets) == c.backup.buckets <==> NoCommas(c.backup.buckets)
  {
    assert ShownAt(c, IncludeDatabase) == FormatBool(c.backup.includeDatabase);
    assert ShownAt(c, IncludeStorage) == FormatBool(c.backup.includeStorage);
    assert ShownAt(c, Compress) == FormatBool(c.backup.compress);
    assert ShownAt(c, Buckets) == Join(c.backup.buckets, ',');
    assert ShownAt(c, RetentionKeepLast) == Itoa(c.backup.retention.keepLast);
    assert ShownAt(c, RetentionKeepDays) == Itoa(c.backup.retention.keepDays);
    RetentionBack(c.backup.retention, m);
    BackupBack(c.backup, m);
    BucketsBack(m, c.backup.buckets);
  }

  lemma S3Shown(c: Config, m: Rows)
    requires Shows(m, c)
    ensures MergeS3(c.destination.s3, m) == c.destination.s3
  {
    assert ShownAt(c, S3Endpoint) == c.destination.s3.endpoint;
    assert ShownAt(c, S3Region) == c.destination.s3.region;
    assert ShownAt(c, S3Bucket) == c.destination.s3.bucket;
    assert ShownAt(c, S3Prefix) == c.destination.s3.prefix;
    assert ShownAt(c, S3AccessKeyID) == c.destination.s3.accessKeyID;
    assert ShownAt(c, S3SecretAccessKey) == c.destination.s3.secretAccessKey;
    assert ShownAt(c, S3ForcePathStyle) == FormatBool(c.destination.s3.forcePathStyle);
    S3Back(c.destination.s3, m);
  }

  lemma SFTPShown(c: Config, m: Rows)
    requires MachineInts(c) && Shows(m, c)
    ensures MergeSFTP(c.destination.sftp, m) == c.destination.sftp
  {
    assert ShownAt(c, SFTPHost) == c.destination.sftp.host;
    assert ShownAt(c, SFTPPort) == Itoa(c.destination.sftp.port);
    assert ShownAt(c, SFTPUser) == c.destination.sftp.user;
    assert ShownAt(c, SFTPPassword) == c.destination.sftp.password;
    assert ShownAt(c, SFTPKeyPath) == c.destination.sftp.keyPath;
    assert ShownAt(c, SFTPRemotePath) == c.destination.sftp.remotePath;
    SFTPBack(c.destination.sftp, m);
  }

  lemma DestinationShown(c: Config, m: Rows)
    requires MachineInts(c) && Shows(m, c)
    ensures MergeDestination(c.destination, m) == c.destination
  {
    S3Shown(c, m);
    SFTPShown(c, m);
    assert ShownAt(c, DestType) == c.destination.kind;
    assert ShownAt(c, LocalPath) == c.destination.localPath;
    DestinationBack(c.destination, m);
  }

  lemma MergeSections(c: Config, m: Rows)
    requires MergeSupabase(c.supabase, m) == c.supabase && MergeDestination(c.destination, m) == c.destination
    requires MergeBackup(c.backup, m) == c.backup.(buckets := MergeBuckets(m, c.backup.buckets))
    ensures Merge(c, m) == c.(backup := c.backup.(buckets := MergeBuckets(m, c.backup.buckets)))
  {
  }

  /** Merging what a config shows over the config itself changes nothing, exactly when no bucket name holds a
      comma; it never changes anything but the bucket list. */
  lemma ShownMergesBack(c: Config)
    requires MachineInts(c)
    ensures Merge(c, Stored(Shown(c))) == c <==> NoCommas(c.backup.buckets)
    ensures Merge(c, Stored(Shown(c))) == c.(backup := c.backup.(buckets := MergeBuckets(Stored(Shown(c)), c.backup.buckets)))
  {
    forall k: Key | !k.Other? ensures RowIs(Stored(Shown(c)), k, ShownAt(c, k)) { ShownRow(c, k); }
    SupabaseShown(c, Stored(Shown(c)));
    BackupShown(c, Stored(Shown(c)));
    DestinationShown(c, Stored(Shown(c)));
    MergeSections(c, Stored(Shown(c)));
  }

  // ---------- what one row does ----------

  /** The row of `k` has something to say. */
  predicate Given(m: Rows, k: Key) {
    k in m && m[k] != ""
  }

  predicate SupabaseFollows(c: SupabaseConfig, m: Rows) {
    && (Given(m, SupabaseURL) ==> c.url == m[SupabaseURL])
    && (Given(m, SupabaseServiceKey) ==> c.serviceKey == m[SupabaseServiceKey])
    && (Given(m, SupabaseDBURL) ==> c.databaseURL == m[SupabaseDBURL])
  }

  predicate BackupFollows(c: BackupConfig, m: Rows) {
    && (Given(m, IncludeDatabase) ==> c.includeDatabase == (m[IncludeDatabase] == "true"))
    && (Given(m, IncludeStorage) ==> c.includeStorage == (m[IncludeStorage] == "true"))
    && (Given(m, Compress) ==> c.compress == (m[Compress] == "true"))
    && (Given(m, Buckets) ==> Join(c.buckets, ',') == m[Buckets] && NoCommas(c.buckets))
    && (Given(m, RetentionKeepLast) ==> c.retention.keepLast == Atoi(m[RetentionKeepLast]))
    && (Given(m, RetentionKeepDays) ==> c.retention.keepDays == Atoi(m[RetentionKeepDays]))
  }

  predicate S3Follows(c: S3Config, m: Rows) {
    && (Given(m, S3Endpoint) ==> c.endpoint == m[S3Endpoint])
    && (Given(m, S3Region) ==> c.region == m[S3Region])
    && (Given(m, S3Bucket) ==> c.bucket == m[S3Bucket])
    && (Given(m, S3Prefix) ==> c.prefix == m[S3Prefix])
    && (Given(m, S3AccessKeyID) ==> c.accessKeyID == m[S3AccessKeyID])
    && (Given(m, S3SecretAccessKey) ==> c.secretAccessKey == m[S3SecretAccessKey])
    && (Given(m, S3ForcePathStyle) ==> c.forcePathStyle == ParseBool(m[S3ForcePathStyle]))
  }

  predicate SFTPFollows(c: SFTPConfig, m: Rows) {
    && (Given(m, SFTPHost) ==> c.host == m[SFTPHost])
    && (Given(m, SFTPPort) ==> c.port == Atoi(m[SFTPPort]))
    && (Given(m, SFTPUser) ==> c.user == m[SFTPUser])
    && (Given(m, SFTPPassword) ==> c.password == m[SFTPPassword])
    && (Given(m, SFTPKeyPath) ==> c.keyPath == m[SFTPKeyPath])
    && (Given(m, SFTPRemotePath) ==> c.remotePath == m[SFTPRemotePath])
  }

  /** Every field of the config is what its row says, when the row says anything. */
  predicate Follows(c: Config, m: Rows) {
    && SupabaseFollows(c.supabase, m)
    && BackupFollows(c.backup, m)
    && (Given(m, DestType) ==> c.destination.kind == m[DestType])
    && (Given(m, LocalPath) ==> c.destination.localPath == m[LocalPath])
    && S3Follows(c.destination.s3, m)
    && SFTPFollows(c.destination.sftp, m)
  }

  lemma BackupRows(c: BackupConfig, m: Rows)
    ensures BackupFollows(MergeBackup(c, m), m)
  {
    if Given(m, Buckets) {
      JoinSplit(m[Buckets], ',');
    }
  }

  lemma S3Rows(c: S3Config, m: Rows)
    ensures S3Follows(MergeS3(c, m), m)
  {
  }

  lemma SFTPRows(c: SFTPConfig, m: Rows)
    ensures SFTPFollows(MergeSFTP(c, m), m)
  {
  }

  /** Every row reaches its own field of the merged config. */
  lemma RowsReachFields(c: Config, m: Rows)
    ensures Follows(Merge(c, m), m)
  {
    BackupRows(c.backup, m);
    S3Rows(c.destination.s3, m);
    SFTPRows(c.destination.sftp, m);
  }

  /** An emptied row clears these four fields; any other row only ever sets one. */
  predicate Clearable(k: Key) {
    k.S3Endpoint? || k.S3Prefix? || k.SFTPKeyPath? || k.Buckets?
  }

  lemma SupabaseUntold(c: Config, m: Rows, k: Key)
    requires !Given(m, k) && k in {SupabaseURL, SupabaseServiceKey, SupabaseDBURL, DestType, LocalPath}
    ensures ShownAt(Merge(c, m), k) == ShownAt(c, k)
  {
  }

  lemma BackupUntold(c: Config, m: Rows, k: Key)
    requires !Given(m, k) && k in {IncludeDatabase, IncludeStorage, Compress, Buckets, RetentionKeepLast, RetentionKeepDays}
    ensures ShownAt(Merge(c, m), k) == if k in m && k == Buckets then "" else ShownAt(c, k)
  {
  }

  lemma S3Untold(c: Config, m: Rows, k: Key)
    requires !Given(m, k)
    requires k in {S3Endpoint, S3Region, S3Bucket, S3Prefix, S3AccessKeyID, S3SecretAccessKey, S3ForcePathStyle}
    ensures ShownAt(Merge(c, m), k) == if k in m && (k == S3Endpoint || k == S3Prefix) then "" else ShownAt(c, k)
  {
  }

  lemma SFTPUntold(c: Config, m: Rows, k: Key)
    requires !Given(m, k) && k in {SFTPHost, SFTPPort, SFTPUser, SFTPPassword, SFTPKeyPath, SFTPRemotePath}
    ensures ShownAt(Merge(c, m), k) == if k in m && k == SFTPKeyPath then "" else ShownAt(c, k)
  {
  }

  /** A setting without a row, or with an empty one, shows what it showed, unless the empty row clears it. */
  lemma UntoldStays(c: Config, m: Rows, k: Key)
    requires !Given(m, k)
    ensures ShownAt(Merge(c, m), k) == if k in m && Clearable(k) then "" else ShownAt(c, k)
  {
    match k
    case SupabaseURL | SupabaseServiceKey | SupabaseDBURL | DestType | LocalPath => SupabaseUntold(c, m, k);
    case IncludeDatabase | IncludeStorage | Compress | Buckets | RetentionKeepLast | RetentionKeepDays => BackupUntold(c, m, k);
    case S3Endpoint | S3Region | S3Bucket | S3Prefix | S3AccessKeyID | S3SecretAccessKey | S3ForcePathStyle => S3Untold(c, m, k);
    case SFTPHost | SFTPPort | SFTPUser | SFTPPassword | SFTPKeyPath | SFTPRemotePath => SFTPUntold(c, m, k);
    case Other(_) =>
  }

  /** The words `strconv.ParseBool` takes for true, and some it does not. */
  lemma KnownFlags()
    ensures ParseBool("1") && ParseBool("t") && ParseBool("T") && ParseBool("true") && ParseBool("True") && ParseBool("TRUE")
    ensures !ParseBool("0") && !ParseBool("f") && !ParseBool("false") && !ParseBool("") && !ParseBool("yes") && !ParseBool("tRUE")
  {
    assert "tRUE"[1] == 'R' && "true"[1] == 'r' && "TRUE"[0] == 'T';
  }

  lemma FlagShown(b: bool)
    ensures (FormatBool(b) == "true") == b && ParseBool(FormatBool(b)) == b && FormatBool(b) != ""
  {
  }

  /** What follows some rows follows any part of them. */
  lemma FollowsPart(c: Config, all: Rows, part: Rows)
    requires Follows(c, all)
    requires forall k :: Given(part, k) ==> k in all && all[k] == part[k]
    ensures Follows(c, part)
  {
  }

  lemma BackupTold(c: Config, d: Config, m: Rows, k: Key)
    requires MachineInts(c) && Given(m, k) && m[k] == ShownAt(c, k)
    requires k in {IncludeDatabase, IncludeStorage, Compress, Buckets, RetentionKeepLast, RetentionKeepDays}
    requires BackupFollows(d.backup, m)
    ensures ShownAt(d, k) == ShownAt(c, k)
  {
    match k
    case IncludeDatabase => FlagShown(c.backup.includeDatabase);
    case IncludeStorage => FlagShown(c.backup.includeStorage);
    case Compress => FlagShown(c.backup.compress);
    case RetentionKeepLast => AtoiItoa(c.backup.retention.keepLast);
    case RetentionKeepDays => AtoiItoa(c.backup.retention.keepDays);
    case Buckets =>
  }

  lemma S3Told(c: Config, d: Config, m: Rows, k: Key)
    requires Given(m, k) && m[k] == ShownAt(c, k)
    requires k in {S3Endpoint, S3Region, S3Bucket, S3Prefix, S3AccessKeyID, S3SecretAccessKey, S3ForcePathStyle}
    requires S3Follows(d.destination.s3, m)
    ensures ShownAt(d, k) == ShownAt(c, k)
  {
    FlagShown(c.destination.s3.forcePathStyle);
  }

  lemma SFTPTold(c: Config, d: Config, m: Rows, k: Key)
    requires MachineInts(c) && Given(m, k) && m[k] == ShownAt(c, k)
    requires k in {SFTPHost, SFTPPort, SFTPUser, SFTPPassword, SFTPKeyPath, SFTPRemotePath}
    requires SFTPFollows(d.destination.sftp, m)
    ensures ShownAt(d, k) == ShownAt(c, k)
  {
    AtoiItoa(c.destination.sftp.port);
  }

  /** Merged over any other config, the rows that a config shows bring each of its settings along: every setting that
      is not shown empty shows the same afterwards. */
  lemma ShownReaches(c: Config, d: Config, k: Key)
    requires MachineInts(c) && ShownAt(c, k) != ""
    ensures ShownAt(Merge(d, Stored(Shown(c))), k) == ShownAt(c, k)
  {
    var m := Stored(Shown(c));
    ShownRow(c, k);
    RowsReachFields(d, m);
    if k in {IncludeDatabase, IncludeStorage, Compress, Buckets, RetentionKeepLast, RetentionKeepDays} {
      BackupTold(c, Merge(d, m), m, k);
    } else if k in {S3Endpoint, S3Region, S3Bucket, S3Prefix, S3AccessKeyID, S3SecretAccessKey, S3ForcePathStyle} {
      S3Told(c, Merge(d, m), m, k);
    } else if k in {SFTPHost, SFTPPort, SFTPUser, SFTPPassword, SFTPKeyPath, SFTPRemotePath} {
      SFTPTold(c, Merge(d, m), m, k);
    }
  }
}
