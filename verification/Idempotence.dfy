/** A second run changes nothing. */
module Idempotence {
  import opened Text
  import opened Fat
  import opened Volumes
  import opened AtomicCopy
  import opened Compare
  import opened Entries
  import opened Conf
  import opened SyncPlan
  import opened Loaders
  import opened Wanted
  import opened Convergence
  import opened Outcome
  import opened Effects
  import opened Scaffold
  import opened Turns
  import opened Exactness
  import opened Recovery

  // ---------------------------------------------------------------- volumes at rest

  /** Everything the request asks for is already there. */
  ghost predicate AtRest(req: Request, f: Disk) {
    Tree(f) && forall item | item in req.items :: JobHolds(req.host, f, JobOf(req, f, item))
  }

  /** On a volume at rest an entry needs no copy: its one operation rewrites the configuration it has. */
  lemma NothingToInstall(req: Request, f: Disk, item: Item, picked: seq<bool>)
    requires Modern(req) && Genuine(req) && AtRest(req, f) && item in req.items
    requires Exact(req.host, f, JobOf(req, f, item).changeset, picked)
    ensures var job := JobOf(req, f, item);
            && InstallOps(req.host, f, job, picked) == [Write(job.conf, job.text)]
            && Apply(f, Write(job.conf, job.text)) == f
  {
    var job := JobOf(req, f, item);
    assert JobHolds(req.host, f, job);
    hide JobOf, Modern, Genuine, AtRest, EntriesDir, Differs, Tree;
    NoneDiffers(req, f, item);
    ConfLength(req, f, item);
    EntriesExist(req, f, item);
    NoCopies(req.host, f, job, picked);
    RewriteChangesNothing(f, job.conf, job.text);
  }

  lemma NoCopies(host: Host, f: Disk, job: Job, picked: seq<bool>)
    requires HaveDests(job.changeset) && Exact(host, f, job.changeset, picked) && Exists(f, Key(EntriesDir(f)))
    requires forall pair | pair in job.changeset :: !Differs(host, f, pair)
    ensures InstallOps(host, f, job, picked) == [Write(job.conf, job.text)]
  {
    hide EntriesDir, Differs, CopyOps, Run;
    NonePicked(job.changeset, picked);
    RunNone(f);
    assert CopiesOps(host, f, [], 0) == [];
    assert ConfOps(f, job) == [Write(job.conf, job.text)];
    assert [] + ConfOps(f, job) == ConfOps(f, job);
  }

  lemma NoneDiffers(req: Request, f: Disk, item: Item)
    requires Modern(req) && Genuine(req) && AtRest(req, f) && item in req.items
    ensures forall pair | pair in JobOf(req, f, item).changeset :: !Differs(req.host, f, pair)
  {
    ModernItem(req, item);
    hide JobOf, Modern, Tree, EffectiveSchema, WantedDest;
    var job := JobOf(req, f, item);
    assert JobHolds(req.host, f, job);
    forall pair | pair in job.changeset
      ensures !Differs(req.host, f, pair)
    {
      var asset := JobPair(req, f, item, pair);
      assert IsGenuine(req, item, asset);
      assert Holds(f, Key(pair.dest), ContentOf(req.host, pair.source));
    }
  }

  lemma EntriesExist(req: Request, f: Disk, item: Item)
    requires Tree(f) && IsFile(f, Key(WantedConf(req, item)))
    ensures Exists(f, Key(EntriesDir(f)))
  {
    var k := Key(WantedConf(req, item));
    assert Placed(f, k);
    EntriesKey(f);
    assert Parent(k) == Key(["loader", "entries"]);
  }

  lemma RewriteChangesNothing(f: Disk, conf: Path, text: Content)
    requires Holds(f, Key(conf), text)
    ensures Apply(f, Write(conf, text)) == f
  {
  }

  /** The rewrites of the first `n` entries. */
  ghost function Rewrites(req: Request, f: Disk, n: nat): seq<Op>
    requires n <= |req.items|
  {
    if n == 0 then []
    else
      var job := JobOf(req, f, req.items[n - 1]);
      Rewrites(req, f, n - 1) + [Write(job.conf, job.text)]
  }

  lemma {:induction false} OnlyRewrites(req: Request, f: Disk, picks: seq<seq<bool>>, n: nat)
    requires Modern(req) && Genuine(req) && AtRest(req, f) && PicksFit(req, picks, n)
    requires InstallsExact(req, f, picks, n)
    ensures Installs(req, f, picks, n) == Stretch(Rewrites(req, f, n), f)
  {
    hide JobOf, InstallOps, AtRest, Exact, Modern, Genuine;
    if n > 0 {
      OnlyRewrites(req, f, picks, n - 1);
      var item := req.items[n - 1];
      assert DiskAfter(req, f, picks, n - 1) == f;
      assert Exact(req.host, f, JobAt(req, f, picks, n - 1).changeset, picks[n - 1]);
      NothingToInstall(req, f, item, picks[n - 1]);
      var job := JobOf(req, f, item);
      RunOne(f, Write(job.conf, job.text));
      hide Run, Apply;
    }
  }

  lemma {:induction false} RewritesKeep(req: Request, f: Disk, n: nat)
    requires AtRest(req, f) && n <= |req.items|
    ensures |Rewrites(req, f, n)| == n && Run(f, Rewrites(req, f, n)) == f
  {
    hide JobOf, Tree;
    if n > 0 {
      RewritesKeep(req, f, n - 1);
      var job := JobOf(req, f, req.items[n - 1]);
      assert JobHolds(req.host, f, job);
      RewriteChangesNothing(f, job.conf, job.text);
      RunOne(f, Write(job.conf, job.text));
      hide Apply;
      RunConcat(f, Rewrites(req, f, n - 1), [Write(job.conf, job.text)]);
    }
  }

  // ---------------------------------------------------------------- swept volumes

  /** A volume from which everything stale is gone. */
  ghost predicate Swept(req: Request, e: Disk, f: Disk, results: seq<InstallResult>) {
    && Tree(e) && Tree(f) && Cleaned(e, f, req.schema, results)
    && forall k | k in f :: k in e && e[k] == f[k]
  }

  lemma RemainingConf(req: Request, e: Disk, f: Disk, results: seq<InstallResult>, p: Path)
    requires Swept(req, e, f, results) && p in LoaderFiles(f, req.schema) && IsFile(f, Key(p))
    ensures !IsStaleConf(results, p)
  {
    hide HasCleanedPrefix, Cleaned, Tree, IsStaleConf;
    var n :| n in Children(f, Key(EntriesDir(f))) && HasCleanedPrefix(req.schema, n) && p == EntriesDir(f) + [n];
    ListedUnderKey(f, EntriesDir(f));
    EntriesBefore(e, f, p, n);
    assert p in LoaderFiles(e, req.schema);
    StaleConfGone(e, f, req.schema, results, p);
  }

  lemma StaleConfGone(e: Disk, f: Disk, schema: Schema, results: seq<InstallResult>, p: Path)
    requires Cleaned(e, f, schema, results) && p in LoaderFiles(e, schema) && IsFile(f, Key(p))
    ensures !IsStaleConf(results, p)
  {
    hide LoaderFiles, StaleTrees, StaleFiles, IsStaleConf;
  }

  lemma EntriesBefore(e: Disk, f: Disk, p: Path, n: string)
    requires Tree(e) && Tree(f) && p == EntriesDir(f) + [n] && Key(p) in f && f[Key(p)].name == n
    requires forall k | k in f :: k in e && e[k] == f[k]
    ensures EntriesDir(e) == EntriesDir(f) && n in Children(e, Key(EntriesDir(e)))
  {
    EntriesKey(f);
    EntriesOnDisk(e);
    EntriesOnDisk(f);
    KeyParent(p);
    assert Parent(p) == EntriesDir(f);
    assert Placed(f, Key(p));
    OnDiskSubset(e, f, ["loader", "entries"]);
    hide EntriesDir, OnDisk;
    assert Key(p) in e && Parent(Key(p)) == Key(EntriesDir(f)) && e[Key(p)].name == n;
  }

  lemma RemainingFile(req: Request, e: Disk, f: Disk, results: seq<InstallResult>, dir: Path, p: Path)
    requires Swept(req, e, f, results) && dir in KernelDirs(f, req.schema) && p in FilesBelow(f, dir)
    ensures !IsStaleFile(results, p)
  {
    RemainingTree(req, e, f, results, dir);
    hide KernelDirs, Tree, IsStaleTree, IsStaleFile, Children, Cleaned;
    ListedBefore(e, f, req.schema, dir);
    FileBefore(e, f, dir, p);
    StaleFileGone(e, f, req.schema, results, dir, p);
  }

  lemma FileBefore(e: Disk, f: Disk, dir: Path, p: Path)
    requires Tree(f) && p in FilesBelow(f, dir) && forall k | k in f :: k in e && e[k] == f[k]
    ensures p in FilesBelow(e, dir) && Key(p) in f
  {
    hide Tree;
    var n :| n in Children(f, Key(dir)) && IsFile(f, Key(dir + [n])) && p == dir + [n];
    ListedUnderKey(f, dir);
    assert Parent(Key(p)) == Key(dir);
    assert n in Children(e, Key(dir));
  }

  lemma StaleFileGone(e: Disk, f: Disk, schema: Schema, results: seq<InstallResult>, dir: Path, p: Path)
    requires Cleaned(e, f, schema, results) && dir in KernelDirs(e, schema) && !IsStaleTree(schema, results, dir)
    requires p in FilesBelow(e, dir) && Key(p) in f
    ensures !IsStaleFile(results, p)
  {
    hide KernelDirs, StaleTrees, StaleConfs, FilesBelow, IsStaleTree, IsStaleFile;
  }

  lemma RemainingTree(req: Request, e: Disk, f: Disk, results: seq<InstallResult>, dir: Path)
    requires Swept(req, e, f, results) && dir in KernelDirs(f, req.schema)
    ensures !IsStaleTree(req.schema, results, dir)
  {
    hide KernelDirs, IsStaleTree, Tree, StaleConfs, StaleFiles;
    ListedBefore(e, f, req.schema, dir);
  }

  /** A listed directory is listed alike on a disk that has the same nodes and more. */
  lemma ListedBefore(e: Disk, f: Disk, schema: Schema, dir: Path)
    requires Tree(e) && Tree(f) && dir in KernelDirs(f, schema)
    requires forall k | k in f :: k in e && e[k] == f[k]
    ensures dir in KernelDirs(e, schema) && Key(dir) in f
  {
    hide NamespaceDir, Tree;
    var namespace, m :| namespace in schema.CleanedNamespaces()
      && m in Children(f, Key(NamespaceDir(f, namespace)))
      && IsDir(f, Key(NamespaceDir(f, namespace) + [m])) && dir == NamespaceDir(f, namespace) + [m];
    ListedUnderKey(f, NamespaceDir(f, namespace));
    NamespaceKey(f, namespace);
    assert Key(dir) == Key(NamespaceDir(f, namespace)) + [Fold(m)];
    NamespaceBefore(e, f, namespace, Key(dir));
    assert m in Children(e, Key(NamespaceDir(e, namespace)));
  }

  lemma NamespaceBefore(e: Disk, f: Disk, namespace: string, k: Path)
    requires Tree(e) && Tree(f) && k in f && |k| == 3 && k[..2] == Key(NamespaceDir(f, namespace))
    requires forall k | k in f :: k in e && e[k] == f[k]
    ensures NamespaceDir(e, namespace) == NamespaceDir(f, namespace)
  {
    NamespaceKey(f, namespace);
    NamespaceOnDisk(e, namespace);
    NamespaceOnDisk(f, namespace);
    assert Placed(f, k) && Parent(k) == k[..2];
    OnDiskSubset(e, f, ["EFI", namespace]);
    hide NamespaceDir, OnDisk;
  }

  lemma {:induction false} OnDiskSubset(e: Disk, f: Disk, p: Path)
    requires Tree(f) && (p == [] || Key(p) in f)
    requires forall k | k in f :: k in e && e[k] == f[k]
    ensures OnDisk(e, p) == OnDisk(f, p)
  {
    if p != [] {
      KeyParent(p);
      assert Placed(f, Key(p));
      OnDiskSubset(e, f, Parent(p));
    }
  }

  lemma NotRemovable(req: Request, e: Disk, f: Disk, results: seq<InstallResult>, run: SyncRun, op: Op)
    requires Swept(req, e, f, results) && RemovesStale(f, req.schema, results, run) && op in CleanupOps(run)
    ensures !Can(f, op)
  {
    hide LoaderFiles, KernelDirs, FilesBelow, IsStaleConf, IsStaleTree, IsStaleFile, Swept;
    if op in run.trees {
      if Can(f, op) {
        RemainingTree(req, e, f, results, op.path);
      }
    } else if op in run.confs {
      if Can(f, op) {
        RemainingConf(req, e, f, results, op.path);
      }
    } else {
      var dir :| dir in KernelDirs(f, req.schema) && op.path in FilesBelow(f, dir) && IsStaleFile(results, op.path);
      if Can(f, op) {
        RemainingFile(req, e, f, results, dir, op.path);
      }
    }
  }

  /** On a volume from which everything stale is gone, there is nothing to clean up. */
  lemma NothingToClean(req: Request, e: Disk, f: Disk, results: seq<InstallResult>, run: SyncRun)
    requires Swept(req, e, f, results)
    requires RemovesStale(f, req.schema, results, run) && AllCan(f, CleanupOps(run))
    ensures CleanupOps(run) == []
  {
    hide Swept, RemovesStale, Can, Apply, CleanupOps;
    if CleanupOps(run) != [] {
      var op := CleanupOps(run)[0];
      assert op in CleanupOps(run);
      NotRemovable(req, e, f, results, run, op);
    }
  }

  // ---------------------------------------------------------------- after a run

  /** After a run, the wanted directories and the configurations are called what they are to be called. */
  lemma FinalAlike(req: Request, d: Disk, run: SyncRun)
    requires Keeps(req, d) && CompleteRun(req, d, run)
    ensures Tree(Final(req, d, run)) && Alike(req, Prepared(req, d), Final(req, d, run))
  {
    hide Tree, Modern, Genuine, AgreeAssets, AgreeConfs, AllKept, CompleteRun, SyncOps, Prepared, Tracks, OnTrack,
         IsShort, Run, Final;
    SyncOpsParts(req, d, run);
    TrackFinal(req, d, run);
    forall w | IsShort(req, w)
      ensures NameOf(Final(req, d, run), w) == NameOf(Prepared(req, d), w)
    {
      ShortThere(req, d, run, w);
      TrackedName(req, d, Final(req, d, run), w);
    }
  }

  lemma TrackedName(req: Request, d: Disk, f: Disk, w: Path)
    requires OnTrack(req, d, f) && IsShort(req, w) && Key(w) in f
    ensures NameOf(f, w) == NameOf(Prepared(req, d), w)
  {
    hide IsShort, WantedDest, Prepared;
  }

  lemma TrackFinal(req: Request, d: Disk, run: SyncRun)
    requires Keeps(req, d) && CompleteRun(req, d, run)
    ensures Tree(Final(req, d, run)) && OnTrack(req, d, Final(req, d, run))
  {
    hide Tree, Modern, Genuine, AgreeAssets, AgreeConfs, AllKept, CompleteRun, SyncOps, Prepared, Tracks, OnTrack,
         Run, CrashOf;
    SyncOpsParts(req, d, run);
    forall op | op in SyncOps(req, d, run)
      ensures Tracks(req, Prepared(req, d), op)
    {
      RunTracks(req, d, run, op);
    }
    TrackStart(req, d);
    CrashOfRun(d, SyncOps(req, d, run));
    TrackCrash(req, d, d, SyncOps(req, d, run), Final(req, d, run));
    TreeRun(d, SyncOps(req, d, run));
  }

  lemma ShortThere(req: Request, d: Disk, run: SyncRun, w: Path)
    requires Keeps(req, d) && CompleteRun(req, d, run) && IsShort(req, w)
    ensures Key(w) in Final(req, d, run)
  {
    hide Tree, Modern, Genuine, AgreeAssets, AgreeConfs, AllKept, CompleteRun, Prepared, IsShort, Final,
         WantedConf, WantedDest, OnTrack;
    TrackFinal(req, d, run);
    ShortAbove(req, w);
    if item :| item in req.items && w <= WantedConf(req, item) {
      ConfThere(req, d, run, item);
      AboveIsThere(Final(req, d, run), w, WantedConf(req, item)) by {
        ShortLength(req, w);
      }
    } else {
      var item, asset :| item in req.items && asset in item.entry.Assets() && w <= WantedDest(req, item, asset);
      AssetThere(req, d, run, item, asset);
      AboveIsThere(Final(req, d, run), w, WantedDest(req, item, asset)) by {
        ShortLength(req, w);
      }
    }
  }

  lemma AboveIsThere(f: Disk, w: Path, full: Path)
    requires Tree(f) && Key(full) in f && w <= full && w != []
    ensures Key(w) in f
  {
    KeyTake(full, |w|);
    assert w == full[..|w|];
    ThereInTree(f, Key(full));
    assert Key(w) <= Key(full);
  }

  lemma FinalAtRest(req: Request, d: Disk, run: SyncRun)
    requires Keeps(req, d) && CompleteRun(req, d, run)
    ensures AtRest(req, Final(req, d, run))
  {
    hide Tree, Modern, Genuine, Agrees, AllKept, CompleteRun, Prepared, Final, WantedDest, WantedConf, JobOf,
         Alike, SameScaffold, Installs;
    FinalAlike(req, d, run);
    PreparedIsTree(req, d, run);
    var f, p := Final(req, d, run), Prepared(req, d);
    forall item | item in req.items
      ensures JobHolds(req.host, f, JobOf(req, f, item))
    {
      AlikeItem(req, p, f, item);
      ConfLength(req, f, item);
      ConfThere(req, d, run, item);
      ModernItem(req, item);
      forall pair | pair in JobOf(req, f, item).changeset
        ensures Holds(f, Key(pair.dest), ContentOf(req.host, pair.source))
      {
        var asset := JobPair(req, f, item, pair);
        AssetThere(req, d, run, item, asset);
      }
    }
  }

  /** A complete run leaves everything asked for in place, and nothing stale. */
  lemma RunSettles(req: Request, d: Disk, run: SyncRun)
    requires Keeps(req, d) && CompleteRun(req, d, run)
    ensures Fits(req, run) && AtRest(req, Final(req, d, run))
    ensures Swept(req, InstallPhase(req, d, run).disk, Final(req, d, run), Results(req, d, run))
  {
    hide Tree, Modern, Genuine, Agrees, AllKept, CompleteRun, Final, AtRest, Results, Cleaned, CleanupOps,
         RemovesStale, Installs;
    TwoPhases(req, d, run);
    FinalAtRest(req, d, run);
    var e := InstallPhase(req, d, run).disk;
    TreeRun(e, CleanupOps(run));
    forall k | k in Final(req, d, run)
      ensures k in e && e[k] == Final(req, d, run)[k]
    {
      RemovalsShrink(e, CleanupOps(run), k);
    }
  }

  // ---------------------------------------------------------------- the results of the second run

  /** An entry's result is what it would be on the prepared volume, and on every volume spelled alike. */
  lemma SameResult(req: Request, d: Disk, run: SyncRun, i: nat, f: Disk)
    requires Keeps(req, d) && CompleteRun(req, d, run) && Fits(req, run) && i < |req.items|
    requires Tree(f) && Alike(req, Prepared(req, d), f)
    ensures ResultOf(JobAt(req, d, run.picks, i)) == ResultOf(JobOf(req, f, req.items[i]))
  {
    var item, e, p := req.items[i], DiskAfter(req, d, run.picks, i), Prepared(req, d);
    hide Tree, Modern, Genuine, AgreeAssets, AgreeConfs, AllKept, CompleteRun, Prepared, Installs, JobOf,
         SameScaffold, Made, RequestDirs, Alike, EntriesDir, NamespaceDir, EffectiveSchema;
    TurnDisk(req, d, run, i);
    PreparedIsTree(req, d, run);
    JobAtEnd(req, d, e, i);
    DirsAtEnd(req, d, e, i);
    AlikeJob(req, p, f, item);
    SameConfPath(req, d, run, i, f);
  }

  lemma AlikeJob(req: Request, p: Disk, f: Disk, item: Item)
    requires Tree(p) && Tree(f) && Modern(req) && Alike(req, p, f) && item in req.items
    ensures JobOf(req, f, item).changeset == JobOf(req, p, item).changeset
    ensures EntriesDir(f) == EntriesDir(p)
    ensures NameOf(f, WantedConf(req, item)) == NameOf(p, WantedConf(req, item))
  {
    ModernItem(req, item);
    AlikeNamespace(req, p, f, item);
    AlikeEntries(req, p, f, item);
    hide Tree, Modern, Alike, EntriesDir, NamespaceDir, EffectiveSchema, GenerateEntry, WantedDest, WantedConf,
         NameOf;
    ConfIsShort(req, item);
    AlikeAt(req, p, f, WantedConf(req, item));
    var assets := item.entry.Assets();
    forall j | 0 <= j < |assets|
      ensures AssetPair(req, f, item, assets[j]) == AssetPair(req, p, item, assets[j])
    {
      DestDirs(req, f, item, assets[j]);
      DestDirs(req, p, item, assets[j]);
    }
  }

  lemma AlikeEntries(req: Request, p: Disk, f: Disk, item: Item)
    requires Tree(p) && Tree(f) && Alike(req, p, f) && item in req.items
    ensures EntriesDir(f) == EntriesDir(p)
  {
    var w := WantedConf(req, item);
    ConfIsShort(req, item);
    WantedPrefix(req, w, ["loader"]);
    WantedPrefix(req, w, ["loader", "entries"]);
    hide Tree, Alike, EntriesDir, OnDisk, NameOf, IsWanted, ConfName;
    AlikeAt(req, p, f, ["loader"]);
    AlikeAt(req, p, f, ["loader", "entries"]);
    OnDiskPair(p, "loader", "entries");
    OnDiskPair(f, "loader", "entries");
    EntriesOnDisk(p);
    EntriesOnDisk(f);
  }

  lemma SameConfPath(req: Request, d: Disk, run: SyncRun, i: nat, f: Disk)
    requires Keeps(req, d) && CompleteRun(req, d, run) && Fits(req, run) && i < |req.items|
    requires Tree(f) && EntriesDir(f) == EntriesDir(DiskAfter(req, d, run.picks, i))
    requires NameOf(f, WantedConf(req, req.items[i])) == NameOf(Prepared(req, d), WantedConf(req, req.items[i]))
    ensures JobAt(req, d, run.picks, i).conf == JobOf(req, f, req.items[i]).conf
  {
    var item, e := req.items[i], DiskAfter(req, d, run.picks, i);
    hide Tree, Modern, Genuine, AgreeAssets, AgreeConfs, AllKept, CompleteRun, Prepared, Installs, JobOf,
         SameScaffold, Made, RequestDirs, EntriesDir, NameOf, ConfName;
    TurnDisk(req, d, run, i);
    JobConfShape(req, e, e, item);
    ConfIsShort(req, item);
    ConfTracks(req, d, run, i, WantedConf(req, item));
    ConfSpelled(req, e, item);
    ConfSpelled(req, f, item);
    NameOfConf(req, f, item);
  }

  lemma NameOfConf(req: Request, f: Disk, item: Item)
    ensures NameAt(f, Key(WantedConf(req, item)), ConfName(req, item)) == NameOf(f, WantedConf(req, item))
  {
    hide ConfName;
  }

  lemma SameResults(req: Request, d: Disk, run: SyncRun, again: SyncRun)
    requires Keeps(req, d) && CompleteRun(req, d, run) && Fits(req, run) && Fits(req, again)
    requires forall i | 0 <= i < |req.items| :: DiskAfter(req, Final(req, d, run), again.picks, i) == Final(req, d, run)
    ensures Results(req, Final(req, d, run), again) == Results(req, d, run)
  {
    hide Tree, Modern, Genuine, Agrees, AllKept, CompleteRun, Prepared, Final, Installs, JobOf, ResultOf, Alike;
    FinalAlike(req, d, run);
    forall i | 0 <= i < |req.items|
      ensures ResultOf(JobAt(req, d, run.picks, i)) == ResultOf(JobAt(req, Final(req, d, run), again.picks, i))
    {
      SameResult(req, d, run, i, Final(req, d, run));
      assert DiskAfter(req, Final(req, d, run), again.picks, i) == Final(req, d, run);
    }
  }

  /**
   Idempotence.  A second run with the same request and no read errors copies and deletes nothing: its
   operations are one rewrite of each configuration with the bytes it already has, and the volume is
   unchanged after each of them.
   */
  lemma SecondRunChangesNothing(req: Request, d: Disk, run: SyncRun, again: SyncRun, n: nat)
    requires Keeps(req, d) && CompleteRun(req, d, run)
    requires CompleteRun(req, Final(req, d, run), again) && Fits(req, again)
    requires InstallsExact(req, Final(req, d, run), again.picks, |req.items|)
    requires n <= |req.items|
    ensures SyncOps(req, Final(req, d, run), again) == Rewrites(req, Final(req, d, run), |req.items|)
    ensures |Rewrites(req, Final(req, d, run), n)| == n
    ensures Run(Final(req, d, run), Rewrites(req, Final(req, d, run), n)) == Final(req, d, run)
  {
    hide Keeps, CompleteRun, Final, InstallsExact, Rewrites, Run, Swept, AtRest, Results, Installs;
    RunSettles(req, d, run);
    SecondSyncOps(req, d, run, again);
    RewritesKeep(req, Final(req, d, run), n);
  }

  lemma SecondSyncOps(req: Request, d: Disk, run: SyncRun, again: SyncRun)
    requires Keeps(req, d) && CompleteRun(req, d, run) && AtRest(req, Final(req, d, run)) && Fits(req, run)
    requires Swept(req, InstallPhase(req, d, run).disk, Final(req, d, run), Results(req, d, run))
    requires CompleteRun(req, Final(req, d, run), again) && Fits(req, again)
    requires InstallsExact(req, Final(req, d, run), again.picks, |req.items|)
    ensures SyncOps(req, Final(req, d, run), again) == Rewrites(req, Final(req, d, run), |req.items|)
  {
    var f := Final(req, d, run);
    SecondCleanup(req, f, again);
    KeepsParts(req, d);
    hide Keeps, CompleteRun, Final, InstallsExact, Rewrites, Swept, AtRest, Results, Installs, RemovesStale,
         AllCan, CleanupOps, Modern, Genuine;
    StaysAtRest(req, f, again.picks);
    SameResults(req, d, run, again);
    NothingToClean(req, InstallPhase(req, d, run).disk, f, Results(req, d, run), again);
    OnlyInstalls(req, f, again);
  }

  lemma OnlyInstalls(req: Request, f: Disk, again: SyncRun)
    requires Fits(req, again) && CleanupOps(again) == []
    ensures SyncOps(req, f, again) == InstallPhase(req, f, again).ops
  {
    hide InstallPhase, CleanupOps;
    assert InstallPhase(req, f, again).ops + [] == InstallPhase(req, f, again).ops;
  }

  /** Installing leaves a volume at rest as it is, however many entries have had their turn. */
  lemma StaysAtRest(req: Request, f: Disk, picks: seq<seq<bool>>)
    requires Modern(req) && Genuine(req) && AtRest(req, f) && PicksFit(req, picks, |req.items|)
    requires InstallsExact(req, f, picks, |req.items|)
    ensures forall i | 0 <= i < |req.items| :: PicksFit(req, picks, i) && DiskAfter(req, f, picks, i) == f
    ensures Installs(req, f, picks, |req.items|) == Stretch(Rewrites(req, f, |req.items|), f)
  {
    hide InstallsExact, Rewrites, AtRest, Installs, Modern, Genuine;
    forall i | 0 <= i < |req.items|
      ensures PicksFit(req, picks, i) && DiskAfter(req, f, picks, i) == f
    {
      ExactPrefix(req, f, picks, i);
      OnlyRewrites(req, f, picks, i);
    }
    OnlyRewrites(req, f, picks, |req.items|);
  }

  lemma KeepsParts(req: Request, d: Disk)
    requires Keeps(req, d)
    ensures Modern(req) && Genuine(req)
  {
    hide Tree, Modern, Genuine, Agrees, AllKept;
  }

  lemma ExactPrefix(req: Request, f: Disk, picks: seq<seq<bool>>, i: nat)
    requires i <= |req.items| && PicksFit(req, picks, |req.items|) && InstallsExact(req, f, picks, |req.items|)
    ensures PicksFit(req, picks, i) && InstallsExact(req, f, picks, i)
  {
    hide Installs, JobOf, Exact;
  }

  lemma SecondCleanup(req: Request, f: Disk, again: SyncRun)
    requires CompleteRun(req, f, again)
    ensures Fits(req, again)
    ensures var g := InstallPhase(req, f, again).disk;
            RemovesStale(g, req.schema, Results(req, f, again), again) && AllCan(g, CleanupOps(again))
  {
    hide Installs, InstallsJustified, RemovesStale, Cleaned, AllCan, Results, CleanupOps;
  }
}
