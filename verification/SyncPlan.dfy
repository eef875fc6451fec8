/**
 What a synchronisation does, as operations on the volume: the copies and the configuration of each
 entry, and then the removal of whatever the installed entries no longer account for.
 */
module SyncPlan {
  import opened Text
  import opened Fat
  import opened Volumes
  import opened AtomicCopy
  import opened Compare
  import opened Entries
  import opened Assets
  import opened Conf

  /** A hashed entry together with its merged command line. */
  datatype Item = Item(entry: HashedEntry, options: string)

  datatype Request = Request(schema: Schema, table: Table, host: Host, items: seq<Item>)

  function EffectiveSchema(req: Request, item: Item): Schema {
    item.entry.inner.EffectiveSchema(req.schema)
  }

  // ---------------------------------------------------------------- one entry

  /** `boot_root.join_insensitive("EFI").join_insensitive(namespace)`. */
  function NamespaceDir(d: Disk, namespace: string): Path {
    JoinAt(d, JoinAt(d, [], "EFI"), namespace)
  }

  function EntriesDir(d: Disk): Path {
    JoinAt(d, JoinAt(d, [], "loader"), "entries")
  }

  /** The key of something directly inside the directory of configurations. */
  predicate InEntries(k: Path) {
    |k| == 3 && k[..2] == Key(["loader", "entries"])
  }

  /** Whether a key lies in a namespace that is cleaned. */
  ghost predicate IsCleaned(req: Request, k: Path) {
    |k| >= 2 && exists namespace | namespace in req.schema.CleanedNamespaces() :: k[..2] == Key(["EFI", namespace])
  }

  function ConfName(req: Request, item: Item): string {
    item.entry.inner.Id(req.schema) + ".conf"
  }

  function AssetPair(req: Request, d: Disk, item: Item, asset: HashedAsset): Pair {
    var schema := EffectiveSchema(req, item);
    Pair(JoinPath(item.entry.inner.sysroot, asset.path),
         JoinAll(d, NamespaceDir(d, schema.OsNamespace()), asset.InstalledName(schema, req.table)))
  }

  function AssetPairs(req: Request, d: Disk, item: Item, assets: seq<HashedAsset>): (r: seq<Pair>)
    ensures |r| == |assets|
    ensures forall i | 0 <= i < |assets| :: r[i] == AssetPair(req, d, item, assets[i])
  {
    seq(|assets|, i requires 0 <= i < |assets| => AssetPair(req, d, item, assets[i]))
  }

  ghost predicate HaveDests(pairs: seq<Pair>) {
    forall pair | pair in pairs :: pair.dest != []
  }

  /** What installing one entry is to achieve, worked out on the volume before anything is copied. */
  datatype Job = Job(changeset: seq<Pair>, conf: Path, text: Content)

  function JobOf(req: Request, d: Disk, item: Item): (job: Job)
    ensures |job.changeset| == |item.entry.Assets()| && HaveDests(job.changeset)
  {
    var schema := EffectiveSchema(req, item);
    Job(AssetPairs(req, d, item, item.entry.Assets()),
        JoinAt(d, EntriesDir(d), ConfName(req, item)),
        GenerateEntry(schema, req.table, NamespaceDir(d, schema.OsNamespace()), item.options, item.entry))
  }

  datatype InstallResult = InstallResult(loaderConf: Path, kernelDir: Path, kernelFiles: seq<Path>)

  function Dests(pairs: seq<Pair>): (r: seq<Path>)
    ensures |r| == |pairs|
    ensures forall i | 0 <= i < |pairs| :: r[i] == pairs[i].dest
  {
    seq(|pairs|, i requires 0 <= i < |pairs| => pairs[i].dest)
  }

  function ParentOf(p: Path): Path {
    if p == [] then [] else Parent(p)
  }

  function ResultOf(job: Job): InstallResult
    requires job.changeset != []
  {
    InstallResult(job.conf, ParentOf(job.changeset[0].dest), Dests(job.changeset))
  }

  // ---------------------------------------------------------------- where it goes

  /** The configuration of an entry, spelled as it is asked for. */
  function WantedConf(req: Request, item: Item): Path {
    ["loader", "entries", ConfName(req, item)]
  }

  /** The destination of an asset, spelled as it is asked for. */
  function WantedDest(req: Request, item: Item, asset: HashedAsset): Path {
    var schema := EffectiveSchema(req, item);
    ["EFI", schema.OsNamespace()] + asset.InstalledName(schema, req.table)
  }

  // ---------------------------------------------------------------- its operations

  function ContentOf(host: Host, source: Path): Content {
    if source in host.files then host.files[source] else ""
  }

  /** The operations of the first `n` copies. */
  function CopiesOps(host: Host, d: Disk, pairs: seq<Pair>, n: nat): seq<Op>
    requires HaveDests(pairs) && n <= |pairs|
  {
    if n == 0 then []
    else
      var ops := CopiesOps(host, d, pairs, n - 1);
      ops + CopyOps(Run(d, ops), ContentOf(host, pairs[n - 1].source), pairs[n - 1].dest)
  }

  function ConfOps(d: Disk, job: Job): seq<Op> {
    (if Exists(d, Key(EntriesDir(d))) then [] else MkDirs(EntriesDir(d))) + [Write(job.conf, job.text)]
  }

  function InstallOps(host: Host, d: Disk, job: Job, picked: seq<bool>): seq<Op>
    requires |picked| == |job.changeset| && HaveDests(job.changeset)
  {
    var needed := Select(job.changeset, picked);
    var copies := CopiesOps(host, d, needed, |needed|);
    copies + ConfOps(Run(d, copies), job)
  }

  /** Every differing pair is picked; only a read error picks more. */
  predicate Justified(host: Host, d: Disk, pairs: seq<Pair>, picked: seq<bool>) {
    |picked| == |pairs| && forall i | 0 <= i < |pairs| && Differs(host, d, pairs[i]) :: picked[i]
  }

  /** Exactly the differing pairs are picked. */
  predicate Exact(host: Host, d: Disk, pairs: seq<Pair>, picked: seq<bool>) {
    |picked| == |pairs| && forall i | 0 <= i < |pairs| :: picked[i] == Differs(host, d, pairs[i])
  }

  // ---------------------------------------------------------------- all entries

  /** One choice for each asset of each of the first `n` items. */
  predicate PicksFit(req: Request, picks: seq<seq<bool>>, n: nat) {
    n <= |picks| && n <= |req.items| && forall i | 0 <= i < n :: |picks[i]| == |req.items[i].entry.Assets()|
  }

  /** Operations and the disk they lead to. */
  datatype Stretch = Stretch(ops: seq<Op>, disk: Disk)

  /** Installing one more item on the disk as it is. */
  function Next(req: Request, s: Stretch, item: Item, picked: seq<bool>): Stretch
    requires |picked| == |item.entry.Assets()|
  {
    var ops := InstallOps(req.host, s.disk, JobOf(req, s.disk, item), picked);
    Stretch(s.ops + ops, Run(s.disk, ops))
  }

  /** Installing the first `n` items, each worked out on the disk the previous ones left. */
  function Installs(req: Request, d: Disk, picks: seq<seq<bool>>, n: nat): Stretch
    requires PicksFit(req, picks, n)
  {
    if n == 0 then Stretch([], d)
    else Next(req, Installs(req, d, picks, n - 1), req.items[n - 1], picks[n - 1])
  }

  function DiskAfter(req: Request, d: Disk, picks: seq<seq<bool>>, n: nat): Disk
    requires PicksFit(req, picks, n)
  {
    Installs(req, d, picks, n).disk
  }

  /** The disk is what the operations make of the first one. */
  lemma {:induction false} InstallsRun(req: Request, d: Disk, picks: seq<seq<bool>>, n: nat)
    requires PicksFit(req, picks, n)
    ensures DiskAfter(req, d, picks, n) == Run(d, Installs(req, d, picks, n).ops)
  {
    hide InstallOps, JobOf;
    if n > 0 {
      InstallsRun(req, d, picks, n - 1);
      var s := Installs(req, d, picks, n - 1);
      RunConcat(d, s.ops, InstallOps(req.host, s.disk, JobOf(req, s.disk, req.items[n - 1]), picks[n - 1]));
    }
  }

  /** The job of the `i`th item, worked out when its turn comes. */
  function JobAt(req: Request, d: Disk, picks: seq<seq<bool>>, i: nat): Job
    requires i < |req.items| && PicksFit(req, picks, i)
  {
    JobOf(req, DiskAfter(req, d, picks, i), req.items[i])
  }

  function InstallsResults(req: Request, d: Disk, picks: seq<seq<bool>>, n: nat): (r: seq<InstallResult>)
    requires PicksFit(req, picks, n)
    ensures |r| == n
    ensures forall i | 0 <= i < n :: r[i] == ResultOf(JobAt(req, d, picks, i))
  {
    seq(n, i requires 0 <= i < n => ResultOf(JobAt(req, d, picks, i)))
  }

  ghost predicate InstallsJustified(req: Request, d: Disk, picks: seq<seq<bool>>, n: nat)
    requires PicksFit(req, picks, n)
  {
    forall i | 0 <= i < n ::
      Justified(req.host, DiskAfter(req, d, picks, i), JobAt(req, d, picks, i).changeset, picks[i])
  }

  /** As above, with no read error: exactly what differs is copied. */
  ghost predicate InstallsExact(req: Request, d: Disk, picks: seq<seq<bool>>, n: nat)
    requires PicksFit(req, picks, n)
  {
    forall i | 0 <= i < n ::
      Exact(req.host, DiskAfter(req, d, picks, i), JobAt(req, d, picks, i).changeset, picks[i])
  }

  /** Later choices do not matter to what came before. */
  lemma {:induction false} PicksAgree(req: Request, d: Disk, picks: seq<seq<bool>>, others: seq<seq<bool>>, n: nat)
    requires PicksFit(req, picks, n) && PicksFit(req, others, n)
    requires forall i | 0 <= i < n :: picks[i] == others[i]
    ensures Installs(req, d, picks, n) == Installs(req, d, others, n)
  {
    hide Next;
    if n > 0 {
      PicksAgree(req, d, picks, others, n - 1);
      assert picks[n - 1] == others[n - 1];
    }
  }

  // ---------------------------------------------------------------- cleaning up

  predicate HasCleanedPrefix(schema: Schema, name: string) {
    exists prefix | prefix in schema.CleanedPrefixes() :: StartsWith(name, prefix)
  }

  /** The loader configurations whose names carry one of our prefixes. */
  function LoaderFiles(d: Disk, schema: Schema): set<Path> {
    set n | n in Children(d, Key(EntriesDir(d))) && HasCleanedPrefix(schema, n) :: EntriesDir(d) + [n]
  }

  /** Those that no installed entry wrote. */
  function StaleConfs(d: Disk, schema: Schema, results: seq<InstallResult>): set<Path> {
    set p | p in LoaderFiles(d, schema) && IsStaleConf(results, p)
  }

  predicate IsStaleConf(results: seq<InstallResult>, conf: Path) {
    forall r | r in results :: r.loaderConf != conf
  }

  /** The kernel directories of the cleaned namespaces. */
  function KernelDirs(d: Disk, schema: Schema): set<Path> {
    set namespace, n | namespace in schema.CleanedNamespaces()
                       && n in Children(d, Key(NamespaceDir(d, namespace)))
                       && IsDir(d, Key(NamespaceDir(d, namespace) + [n])) :: NamespaceDir(d, namespace) + [n]
  }

  predicate IsStaleTree(schema: Schema, results: seq<InstallResult>, dir: Path) {
    && !(FileName(dir) == Some("shared") && !schema.Legacy?)
    && forall r | r in results :: r.kernelDir != dir
  }

  function StaleTrees(d: Disk, schema: Schema, results: seq<InstallResult>): set<Path> {
    set dir | dir in KernelDirs(d, schema) && IsStaleTree(schema, results, dir)
  }

  /** The regular files directly below a directory. */
  function FilesBelow(d: Disk, dir: Path): set<Path> {
    set n | n in Children(d, Key(dir)) && IsFile(d, Key(dir + [n])) :: dir + [n]
  }

  predicate IsStaleFile(results: seq<InstallResult>, file: Path) {
    forall r | r in results :: file !in r.kernelFiles
  }

  /** The files of the kept kernel directories that no installed entry accounts for. */
  function StaleFiles(d: Disk, schema: Schema, results: seq<InstallResult>): set<Path> {
    set dir, p | dir in KernelDirs(d, schema) && !IsStaleTree(schema, results, dir)
                 && p in FilesBelow(d, dir) && IsStaleFile(results, p) :: p
  }

  ghost predicate RemovesAmong(ops: seq<Op>, paths: set<Path>) {
    forall op | op in ops :: op.Remove? && op.path in paths
  }

  ghost predicate TreesAmong(ops: seq<Op>, paths: set<Path>) {
    forall op | op in ops :: op.RemoveTree? && op.path in paths
  }

  /** Nothing stale is left. */
  ghost predicate Cleaned(d: Disk, after: Disk, schema: Schema, results: seq<InstallResult>) {
    && (forall p | p in StaleConfs(d, schema, results) :: !IsFile(after, Key(p)))
    && (forall p | p in StaleTrees(d, schema, results) :: Key(p) !in after)
    && (forall p | p in StaleFiles(d, schema, results) :: Key(p) !in after)
  }

  // ---------------------------------------------------------------- a whole run

  /** The choices of one complete run: what was copied, and what was removed in which order. */
  datatype SyncRun = SyncRun(picks: seq<seq<bool>>, confs: seq<Op>, trees: seq<Op>, files: seq<Op>)

  ghost predicate Fits(req: Request, run: SyncRun) {
    |run.picks| == |req.items| && PicksFit(req, run.picks, |req.items|)
  }

  ghost function InstallPhase(req: Request, d: Disk, run: SyncRun): Stretch
    requires Fits(req, run)
  {
    Installs(req, d, run.picks, |req.items|)
  }

  function CleanupOps(run: SyncRun): seq<Op> {
    run.confs + run.trees + run.files
  }

  ghost function SyncOps(req: Request, d: Disk, run: SyncRun): seq<Op>
    requires Fits(req, run)
  {
    InstallPhase(req, d, run).ops + CleanupOps(run)
  }

  ghost function Results(req: Request, d: Disk, run: SyncRun): seq<InstallResult>
    requires Fits(req, run)
  {
    InstallsResults(req, d, run.picks, |req.items|)
  }

  ghost predicate RemovesStale(d: Disk, schema: Schema, results: seq<InstallResult>, run: SyncRun) {
    && RemovesAmong(run.confs, StaleConfs(d, schema, results))
    && TreesAmong(run.trees, StaleTrees(d, schema, results))
    && RemovesAmong(run.files, StaleFiles(d, schema, results))
  }

  /** A complete run from the disk `d` in which no removal failed. */
  ghost predicate CompleteRun(req: Request, d: Disk, run: SyncRun) {
    && Fits(req, run)
    && InstallsJustified(req, d, run.picks, |req.items|)
    && AllCan(d, InstallPhase(req, d, run).ops)
    && var e := InstallPhase(req, d, run).disk;
       && RemovesStale(e, req.schema, Results(req, d, run), run)
       && AllCan(e, CleanupOps(run))
       && Cleaned(e, Run(e, CleanupOps(run)), req.schema, Results(req, d, run))
  }
}
