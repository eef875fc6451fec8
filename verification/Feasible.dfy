/** When installing can be carried out: no directory where a file goes, no file where a directory goes. */
module Feasible {
  import opened Text
  import opened Fat
  import opened Volumes
  import opened AtomicCopy
  import opened Compare
  import opened Entries
  import opened Assets
  import opened Conf
  import opened Cmdlines
  import opened SyncPlan
  import opened Loaders
  import opened Wanted
  import opened Convergence
  import opened Outcome
  import opened Effects
  import opened Frame

  // ---------------------------------------------------------------- files that can be placed

  ghost predicate NoFileDownTo(d: Disk, k: Path) {
    forall j: Path {:trigger IsFile(d, j)} | j <= k :: !IsFile(d, j)
  }

  /** A file can be placed under the key: it is not a directory, and nothing above it is a file. */
  ghost predicate IsClear(d: Disk, k: Path) {
    k != [] && (k in d ==> d[k].File?) && NoFileDownTo(d, Parent(k))
  }

  ghost predicate AllClear(d: Disk, files: set<Path>) {
    forall k | k in files :: IsClear(d, k)
  }

  /** No file lies above another. */
  ghost predicate PrefixFree(files: set<Path>) {
    forall j, k | j in files && k in files :: !(j < k)
  }

  lemma {:induction false} CanMkDirs(d: Disk, p: Path)
    requires Tree(d) && NoFileDownTo(d, Key(p))
    ensures AllCan(d, MkDirs(p))
  {
    if p != [] {
      KeyParent(p);
      CanMkDirs(d, Parent(p));
      MkDirsRun(d, Parent(p));
      WithDirsAt(d, Parent(p), Key(p));
      RunConcat(d, MkDirs(Parent(p)), [MkDir(p)]);
      hide Run, AllCan, WithDirs, MkDirs;
      RunOne(WithDirs(d, Parent(p)), MkDir(p));
      assert !IsFile(d, Key(p));
    }
  }

  /** With its directory in place, a clear file stays clear, and can be written. */
  lemma ClearWithDirs(d: Disk, p: Path, k: Path)
    requires IsClear(d, k) && !(k <= Key(p))
    ensures IsClear(WithDirs(d, p), k)
    ensures k in WithDirs(d, p) <==> k in d
  {
    WithDirsAt(d, p, k);
    forall j: Path | j <= Parent(k)
      ensures !IsFile(WithDirs(d, p), j)
    {
      WithDirsAt(d, p, j);
      assert !IsFile(d, j);
    }
  }

  lemma DirsInPlace(d: Disk, p: Path)
    requires Tree(d) && NoFileDownTo(d, Key(p))
    ensures var dirs := if Exists(d, Key(p)) then [] else MkDirs(p);
            AllCan(d, dirs) && Run(d, dirs) == WithDirs(d, p) && IsDir(WithDirs(d, p), Key(p))
  {
    assert !IsFile(d, Key(p));
    if Exists(d, Key(p)) {
      WithDirsNoop(d, p);
      RunNone(d);
    } else {
      CanMkDirs(d, p);
      MkDirsRun(d, p);
    }
  }

  /** Staging a copy to a clear destination can be carried out. */
  lemma CanStage(d: Disk, content: Content, dest: Path)
    requires Tree(d) && dest != [] && IsClear(d, Key(dest)) && IsClear(d, Key(Staging(dest)))
    ensures AllCan(d, StageOps(d, content, dest))
    ensures IsDir(WithDirs(d, Parent(dest)), Key(Parent(dest)))
    ensures IsClear(WithDirs(d, Parent(dest)), Key(dest))
    ensures Key(dest) in WithDirs(d, Parent(dest)) <==> Key(dest) in d
  {
    var dirs := if Exists(d, Key(Parent(dest))) then [] else MkDirs(Parent(dest));
    var write := Write(Staging(dest), content);
    KeyParent(dest);
    KeyParent(Staging(dest));
    DirsInPlace(d, Parent(dest));
    ClearWithDirs(d, Parent(dest), Key(dest));
    ClearWithDirs(d, Parent(dest), Key(Staging(dest)));
    hide Run, AllCan, WithDirs, MkDirs, Tree, NoFileDownTo;
    assert Parent(Staging(dest)) == Parent(dest);
    assert Can(WithDirs(d, Parent(dest)), write);
    RunConcat(d, dirs, [write, Barrier]);
    RunSealed(WithDirs(d, Parent(dest)), write);
  }

  /** A copy to a clear destination with a clear staging file can be carried out. */
  lemma CanCopy(d: Disk, content: Content, dest: Path)
    requires Tree(d) && dest != [] && IsClear(d, Key(dest)) && IsClear(d, Key(Staging(dest)))
    ensures AllCan(d, CopyOps(d, content, dest))
  {
    CanStage(d, content, dest);
    var name := StageRun(d, content, dest);
    StagingDiffers(dest);
    KeyParent(dest);
    hide Run, AllCan, WithDirs, MkDirs, Staging, StageOps, ReplaceOps, Tree, NoFileDownTo;
    RunConcat(d, StageOps(d, content, dest), ReplaceOps(Key(dest) in d, dest));
    CanReplace(Run(d, StageOps(d, content, dest)), dest, Key(dest) in d);
  }

  lemma CanReplace(e: Disk, dest: Path, destExists: bool)
    requires dest != [] && IsFile(e, Key(Staging(dest))) && IsDir(e, Key(Parent(dest)))
    requires Key(Staging(dest)) != Key(dest)
    requires if destExists then IsFile(e, Key(dest)) else Key(dest) !in e
    ensures AllCan(e, ReplaceOps(destExists, dest))
  {
    hide Run, AllCan;
    var rename := Rename(Staging(dest), dest);
    KeyParent(dest);
    if destExists {
      RunSealed(e, Remove(dest));
      RunConcat(e, [Remove(dest), Barrier], [rename, Barrier]);
      RunSealed(Apply(e, Remove(dest)), rename);
    } else {
      RunSealed(e, rename);
      assert [] + [rename, Barrier] == [rename, Barrier];
    }
  }

  /** After a copy to one of the files, all of them are still clear. */
  lemma CopyKeepsClear(d: Disk, content: Content, dest: Path, files: set<Path>)
    requires Tree(d) && PrefixFree(files) && AllClear(d, files)
    requires dest != [] && Key(dest) in files && Key(Staging(dest)) in files
    ensures AllCan(d, CopyOps(d, content, dest))
    ensures AllClear(Run(d, CopyOps(d, content, dest)), files)
  {
    hide Run, AllCan, CopyOps, WithDirs, Staging, Tree, IsClear;
    CanCopy(d, content, dest);
    CopyRun(d, content, dest);
    forall k | k in files
      ensures IsClear(AfterCopy(d, content, dest), k)
    {
      CopyClears(d, content, dest, k);
    }
  }

  lemma CopyClears(d: Disk, content: Content, dest: Path, k: Path)
    requires dest != [] && IsClear(d, k) && !(k < Key(dest)) && !(Key(dest) < k)
    ensures IsClear(AfterCopy(d, content, dest), k)
  {
    hide Staging, WithDirs;
    KeyParent(dest);
    assert k <= Key(Parent(dest)) ==> k < Key(dest);
    ClearWithDirs(d, Parent(dest), k);
    var e, f := WithDirs(d, Parent(dest)), AfterCopy(d, content, dest);
    forall j: Path | j <= Parent(k)
      ensures !IsFile(f, j)
    {
      assert !IsFile(e, j);
    }
  }

  /** Likewise for the configuration. */
  lemma ConfKeepsClear(d: Disk, job: Job, files: set<Path>)
    requires Tree(d) && PrefixFree(files) && AllClear(d, files)
    requires job.conf != [] && Key(job.conf) in files && Key(Parent(job.conf)) == Key(EntriesDir(d))
    ensures AllCan(d, ConfOps(d, job))
    ensures AllClear(Run(d, ConfOps(d, job)), files)
  {
    var dirs := if Exists(d, Key(EntriesDir(d))) then [] else MkDirs(EntriesDir(d));
    var write := Write(job.conf, job.text);
    DirsInPlace(d, EntriesDir(d));
    KeyParent(job.conf);
    var e := WithDirs(d, EntriesDir(d));
    ClearWithDirs(d, EntriesDir(d), Key(job.conf));
    hide Run, AllCan, WithDirs, MkDirs, EntriesDir;
    assert Can(e, write);
    RunConcat(d, dirs, [write]);
    RunOne(e, write);
    forall k | k in files
      ensures IsClear(Apply(e, write), k)
    {
      assert Key(job.conf) == Key(EntriesDir(d)) + [Last(Key(job.conf))];
      assert k <= Key(EntriesDir(d)) ==> k < Key(job.conf);
      ClearWithDirs(d, EntriesDir(d), k);
      WriteClears(e, job.conf, job.text, k);
    }
  }

  lemma WriteClears(e: Disk, p: Path, text: Content, k: Path)
    requires IsClear(e, k) && Can(e, Write(p, text)) && !(Key(p) < k)
    ensures IsClear(Apply(e, Write(p, text)), k)
  {
    forall j: Path | j <= Parent(k)
      ensures !IsFile(Apply(e, Write(p, text)), j)
    {
      assert !IsFile(e, j);
    }
  }

  // ---------------------------------------------------------------- a whole request

  /** Nothing on the volume is in the way of what the request writes. */
  ghost predicate Unobstructed(req: Request, d: Disk) {
    AllClear(d, FilesOf(req))
  }

  lemma FileShape(req: Request, k: Path)
    requires Modern(req) && k in FilesOf(req)
    ensures (|k| == 3 && |k[0]| == 6) || (|k| == 4 && |k[0]| == 3)
  {
    hide WantedDest, Modern, Staging;
    if k in AssetKeys(req) {
      var item, asset :| item in req.items && asset in item.entry.Assets() && k == Key(WantedDest(req, item, asset));
      DestKeysShape(req, item, asset);
    } else if k in StagingKeys(req) {
      var item, asset :| item in req.items && asset in item.entry.Assets() && k == StagingKey(req, item, asset);
      DestKeysShape(req, item, asset);
    }
  }

  lemma DestKeysShape(req: Request, item: Item, asset: HashedAsset)
    requires Modern(req) && item in req.items && asset in item.entry.Assets()
    ensures |Key(WantedDest(req, item, asset))| == 4 && |Key(WantedDest(req, item, asset))[0]| == 3
    ensures |StagingKey(req, item, asset)| == 4 && |StagingKey(req, item, asset)[0]| == 3
  {
    ModernItem(req, item);
    DestShape(req, item, asset);
    hide WantedDest, Modern;
    StagingShape(WantedDest(req, item, asset));
  }

  lemma StagingShape(w: Path)
    requires |w| == 4 && w[0] == "EFI"
    ensures |Key(Staging(w))| == 4 && |Key(Staging(w))[0]| == 3 && |Key(w)[0]| == 3
  {
  }

  lemma FilesPrefixFree(req: Request)
    requires Modern(req)
    ensures PrefixFree(FilesOf(req))
  {
    hide Modern, FilesOf;
    forall j, k | j in FilesOf(req) && k in FilesOf(req)
      ensures !(j < k)
    {
      FileShape(req, j);
      FileShape(req, k);
    }
  }

  lemma PairFiles(req: Request, d: Disk, item: Item, pair: Pair)
    requires Tree(d) && Modern(req) && item in req.items && pair in JobOf(req, d, item).changeset
    ensures pair.dest != [] && Key(pair.dest) in FilesOf(req) && Key(Staging(pair.dest)) in FilesOf(req)
  {
    ModernItem(req, item);
    hide Tree, Modern, JobOf, WantedDest, Staging;
    var asset := JobPair(req, d, item, pair);
    var w := WantedDest(req, item, asset);
    assert |w| == |Key(w)| == 4;
    SameStaging(pair.dest, w);
    assert StagingKey(req, item, asset) in StagingKeys(req);
  }

  lemma CopyFeasible(req: Request, d: Disk, e: Disk, item: Item, pair: Pair, content: Content)
    requires Tree(d) && Tree(e) && Modern(req) && Unobstructed(req, d) && item in req.items
    requires pair in JobOf(req, e, item).changeset && pair.dest != []
    ensures AllCan(d, CopyOps(d, content, pair.dest))
    ensures Unobstructed(req, Run(d, CopyOps(d, content, pair.dest)))
  {
    hide Run, AllCan, CopyOps, Tree, Modern, AllClear, FilesOf, JobOf, PrefixFree, Staging;
    PairFiles(req, e, item, pair);
    FilesPrefixFree(req);
    CopyKeepsClear(d, content, pair.dest, FilesOf(req));
  }

  lemma {:induction false} CopiesFeasible(req: Request, d: Disk, e: Disk, item: Item, pairs: seq<Pair>, n: nat)
    requires Tree(d) && Tree(e) && Modern(req) && Unobstructed(req, d) && item in req.items
    requires HaveDests(pairs) && n <= |pairs| && forall pair | pair in pairs :: pair in JobOf(req, e, item).changeset
    ensures AllCan(d, CopiesOps(req.host, d, pairs, n))
    ensures var e := Run(d, CopiesOps(req.host, d, pairs, n)); Tree(e) && Unobstructed(req, e)
  {
    hide Run, AllCan, CopyOps, Tree, Modern, Unobstructed, JobOf;
    RunNone(d);
    if n > 0 {
      CopiesFeasible(req, d, e, item, pairs, n - 1);
      var before, pair := CopiesOps(req.host, d, pairs, n - 1), pairs[n - 1];
      assert pair in pairs;
      var f, content := Run(d, before), ContentOf(req.host, pair.source);
      CopyFeasible(req, f, e, item, pair, content);
      RunConcat(d, before, CopyOps(f, content, pair.dest));
      TreeRun(f, CopyOps(f, content, pair.dest));
    }
  }

  lemma ConfFiles(req: Request, d: Disk, e: Disk, item: Item)
    requires Tree(d) && Tree(e) && item in req.items
    ensures var conf := JobOf(req, e, item).conf;
            conf != [] && Key(conf) in FilesOf(req) && Key(Parent(conf)) == Key(EntriesDir(d))
  {
    ConfLength(req, e, item);
    EntriesKey(d);
    assert Key(WantedConf(req, item)) in ConfKeys(req);
    hide Tree, JobOf, EntriesDir;
    KeyParent(JobOf(req, e, item).conf);
    KeyParent(WantedConf(req, item));
    assert Parent(WantedConf(req, item)) == ["loader", "entries"];
  }

  lemma ConfFeasible(req: Request, d: Disk, e: Disk, item: Item)
    requires Tree(d) && Tree(e) && Modern(req) && Unobstructed(req, d) && item in req.items
    ensures AllCan(d, ConfOps(d, JobOf(req, e, item)))
    ensures Unobstructed(req, Run(d, ConfOps(d, JobOf(req, e, item))))
  {
    hide Run, AllCan, Tree, Modern, AllClear, FilesOf, JobOf, EntriesDir, ConfOps, PrefixFree;
    ConfFiles(req, d, e, item);
    FilesPrefixFree(req);
    ConfKeepsClear(d, JobOf(req, e, item), FilesOf(req));
  }

  /** Installing an entry can be carried out, and leaves nothing in the way of the others. */
  lemma InstallFeasible(req: Request, d: Disk, item: Item, picked: seq<bool>)
    requires Tree(d) && Modern(req) && Unobstructed(req, d) && item in req.items && |picked| == |item.entry.Assets()|
    ensures var ops := InstallOps(req.host, d, JobOf(req, d, item), picked);
            AllCan(d, ops) && Tree(Run(d, ops)) && Unobstructed(req, Run(d, ops))
  {
    hide Run, AllCan, Tree, Modern, Unobstructed, JobOf, CopiesOps, ConfOps;
    var job := JobOf(req, d, item);
    var needed := Select(job.changeset, picked);
    var copies := CopiesOps(req.host, d, needed, |needed|);
    CopiesFeasible(req, d, d, item, needed, |needed|);
    var e := Run(d, copies);
    ConfFeasible(req, e, d, item);
    RunConcat(d, copies, ConfOps(e, job));
    TreeRun(e, ConfOps(e, job));
  }

  lemma {:induction false} InstallsFeasible(req: Request, d: Disk, picks: seq<seq<bool>>, n: nat)
    requires Tree(d) && Modern(req) && Unobstructed(req, d) && PicksFit(req, picks, n)
    ensures AllCan(d, Installs(req, d, picks, n).ops)
    ensures Tree(DiskAfter(req, d, picks, n)) && Unobstructed(req, DiskAfter(req, d, picks, n))
  {
    hide Run, AllCan, Tree, Modern, Unobstructed, JobOf, InstallOps;
    RunNone(d);
    if n > 0 {
      InstallsFeasible(req, d, picks, n - 1);
      InstallsRun(req, d, picks, n - 1);
      var s := Installs(req, d, picks, n - 1);
      InstallFeasible(req, s.disk, req.items[n - 1], picks[n - 1]);
      RunConcat(d, s.ops, InstallOps(req.host, s.disk, JobOf(req, s.disk, req.items[n - 1]), picks[n - 1]));
    }
  }

  /** With nothing in the way on the volume, no installation gets stuck, whatever has to be copied. */
  lemma NeverStuck(req: Request, d: Disk, picks: seq<seq<bool>>)
    requires Tree(d) && Modern(req) && Unobstructed(req, d)
    ensures !Stuck(req, d, picks)
  {
    hide AllCan, Tree, Modern, Unobstructed, Installs, InstallsJustified;
    if 0 < |picks| <= |req.items| && PicksFit(req, picks, |picks|) {
      InstallsFeasible(req, d, picks, |picks|);
    }
  }

  /** Hashed assets can be read again. */
  lemma GenuineSources(req: Request)
    requires Genuine(req)
    ensures AllSources(req)
  {
    hide Tabulates, JoinPath, AllAssets;
    forall item, asset | item in req.items && asset in item.entry.Assets()
      ensures JoinPath(item.entry.inner.sysroot, asset.path) in req.host.files
    {
      assert IsGenuine(req, item, asset);
    }
  }

  /**
   What `SyncEntries` says of a failure to install without a fault of the medium cannot be: its sources are
   there, and it is never stuck.  So if the entries can be hashed and nothing is in the way, a
   synchronisation on a sound medium succeeds.
   */
  lemma SyncNeverStuck(req: Request, host: Host, schema: Schema, global: GlobalCmdline, entries: seq<Entry>, d: Disk)
    requires IsRequest(req, host, schema, global, entries) && Modern(req) && Tree(d) && Unobstructed(req, d)
    ensures AllSources(req) && forall picks :: !Stuck(req, d, picks)
  {
    hide IsRequest, Modern, Tree, Unobstructed, Genuine, AllSources, Stuck;
    RequestIsGenuine(req, host, schema, global, entries);
    GenuineSources(req);
    forall picks
      ensures !Stuck(req, d, picks)
    {
      NeverStuck(req, d, picks);
    }
  }

  // ---------------------------------------------------------------- after a cut

  /** An operation that puts files only at the given keys, and directories only above them. */
  ghost predicate KeepsClear(files: set<Path>, op: Op) {
    match op
    case MkDir(p) => exists k | k in files :: Key(p) < k
    case Write(p, _) => Key(p) in files
    case Rename(_, q) => Key(q) in files
    case _ => true
  }

  lemma ClearApply(d: Disk, files: set<Path>, op: Op)
    requires PrefixFree(files) && AllClear(d, files) && KeepsClear(files, op)
    ensures AllClear(Apply(d, op), files)
  {
    var e := Apply(d, op);
    forall k | k in files
      ensures IsClear(e, k)
    {
      assert IsClear(d, k);
      forall j: Path | j <= Parent(k)
        ensures !IsFile(e, j)
      {
        assert !IsFile(d, j);
        assert j < k;
      }
    }
  }

  /** Whatever a power cut leaves of such operations, nothing is in the way. */
  lemma {:induction false} ClearCrash(d: Disk, files: set<Path>, ops: seq<Op>, c: Disk)
    requires PrefixFree(files) && AllClear(d, files) && CrashOf(d, ops, c)
    requires forall op | op in ops :: KeepsClear(files, op)
    ensures AllClear(c, files)
    decreases |ops|
  {
    hide PrefixFree, AllClear, Apply;
    if ops != [] {
      var op := ops[0];
      assert op in ops && forall o | o in ops[1..] :: o in ops;
      if CrashOf(Apply(d, op), ops[1..], c) {
        ClearApply(d, files, op);
        ClearCrash(Apply(d, op), files, ops[1..], c);
      } else if CrashOf(d, ops[1..], c) {
        ClearCrash(d, files, ops[1..], c);
      } else {
        var torn: Op :| TornOf(op, torn) && CrashOf(Apply(d, torn), ops[1..], c);
        ClearApply(d, files, torn);
        ClearCrash(Apply(d, torn), files, ops[1..], c);
      }
    }
  }

  lemma CopyKeeps(files: set<Path>, op: Op, dest: Path)
    requires dest != [] && Key(dest) in files && Key(Staging(dest)) in files && CopyShape(op, dest)
    ensures KeepsClear(files, op)
  {
    if op.MkDir? {
      KeyTake(dest, |op.path|);
      assert op.path == dest[..|op.path|];
      assert Key(op.path) < Key(dest);
    }
  }

  lemma {:induction false} CopiesKeepClear(req: Request, d: Disk, e: Disk, item: Item, pairs: seq<Pair>, n: nat)
    requires Tree(e) && Modern(req) && item in req.items
    requires HaveDests(pairs) && n <= |pairs| && forall pair | pair in pairs :: pair in JobOf(req, e, item).changeset
    ensures forall op | op in CopiesOps(req.host, d, pairs, n) :: KeepsClear(FilesOf(req), op)
  {
    hide CopyOps, CopyShape, Tree, Modern, JobOf, KeepsClear, FilesOf, Staging;
    if n > 0 {
      CopiesKeepClear(req, d, e, item, pairs, n - 1);
      var before, pair := CopiesOps(req.host, d, pairs, n - 1), pairs[n - 1];
      assert pair in pairs;
      PairFiles(req, e, item, pair);
      CopyOpsKeep(FilesOf(req), Run(d, before), ContentOf(req.host, pair.source), pair.dest);
    }
  }

  lemma CopyOpsKeep(files: set<Path>, d: Disk, content: Content, dest: Path)
    requires dest != [] && Key(dest) in files && Key(Staging(dest)) in files
    ensures forall op | op in CopyOps(d, content, dest) :: KeepsClear(files, op)
  {
    hide CopyOps, CopyShape, KeepsClear, Staging;
    CopyOpsShape(d, content, dest);
    forall op | op in CopyOps(d, content, dest)
      ensures KeepsClear(files, op)
    {
      CopyKeeps(files, op, dest);
    }
  }

  lemma ConfKeeps(req: Request, d: Disk, e: Disk, item: Item)
    requires Tree(d) && Tree(e) && item in req.items
    ensures forall op | op in ConfOps(d, JobOf(req, e, item)) :: KeepsClear(FilesOf(req), op)
  {
    var job := JobOf(req, e, item);
    ConfFiles(req, d, e, item);
    KeyParent(job.conf);
    hide Tree, JobOf, EntriesDir, FilesOf;
    forall op | op in MkDirs(EntriesDir(d))
      ensures KeepsClear(FilesOf(req), op)
    {
      MkDirsShape(EntriesDir(d), op);
      KeyTake(EntriesDir(d), |op.path|);
      assert op.path == EntriesDir(d)[..|op.path|];
      assert Key(op.path) < Key(job.conf);
    }
  }

  lemma InstallKeepsClear(req: Request, d: Disk, item: Item, picked: seq<bool>)
    requires Tree(d) && Modern(req) && item in req.items && |picked| == |item.entry.Assets()|
    ensures forall op | op in InstallOps(req.host, d, JobOf(req, d, item), picked) :: KeepsClear(FilesOf(req), op)
  {
    hide Run, Tree, Modern, KeepsClear, FilesOf, JobOf, CopiesOps, ConfOps;
    var job := JobOf(req, d, item);
    var needed := Select(job.changeset, picked);
    var copies := CopiesOps(req.host, d, needed, |needed|);
    CopiesKeepClear(req, d, d, item, needed, |needed|);
    TreeRun(d, copies);
    ConfKeeps(req, Run(d, copies), d, item);
  }

  lemma {:induction false} InstallsKeepClear(req: Request, d: Disk, picks: seq<seq<bool>>, n: nat)
    requires Tree(d) && Modern(req) && PicksFit(req, picks, n)
    ensures forall op | op in Installs(req, d, picks, n).ops :: KeepsClear(FilesOf(req), op)
  {
    hide Run, Tree, Modern, KeepsClear, FilesOf, JobOf, InstallOps;
    if n > 0 {
      InstallsKeepClear(req, d, picks, n - 1);
      InstallsInstalling(req, d, picks, n - 1);
      InstallKeepsClear(req, DiskAfter(req, d, picks, n - 1), req.items[n - 1], picks[n - 1]);
    }
  }

  lemma RemovalKeeps(files: set<Path>, op: Op)
    requires IsRemoval(op)
    ensures KeepsClear(files, op)
  {
  }

  // ---------------------------------------------------------------- runs exist

  lemma {:induction false} RemoveEach(d: Disk, paths: set<Path>) returns (ops: seq<Op>)
    ensures RemovesAmong(ops, paths) && AllCan(d, ops)
    ensures forall p | p in paths :: !IsFile(Run(d, ops), Key(p))
    decreases |paths|
  {
    hide Run, AllCan, Apply;
    RunNone(d);
    ops := [];
    if paths != {} {
      var p :| p in paths;
      var first := if IsFile(d, Key(p)) then [Remove(p)] else [];
      RunOne(d, Remove(p));
      RemovalGone(d, Remove(p));
      var e := Run(d, first);
      var rest := RemoveEach(e, paths - {p});
      ops := first + rest;
      RunConcat(d, first, rest);
      RemovalsShrink(e, rest, Key(p));
    }
  }

  lemma {:induction false} RemoveEachTree(d: Disk, paths: set<Path>) returns (ops: seq<Op>)
    ensures TreesAmong(ops, paths) && AllCan(d, ops)
    ensures forall p | p in paths :: !IsDir(Run(d, ops), Key(p)) || p == []
    decreases |paths|
  {
    hide Run, AllCan, Apply;
    RunNone(d);
    ops := [];
    if paths != {} {
      var p :| p in paths;
      var first := if Key(p) in d && d[Key(p)].Dir? then [RemoveTree(p, {})] else [];
      RunOne(d, RemoveTree(p, {}));
      TreeRemovalGone(d, p);
      var e := Run(d, first);
      var rest := RemoveEachTree(e, paths - {p});
      ops := first + rest;
      RunConcat(d, first, rest);
      RemovalsShrink(e, rest, Key(p));
    }
  }

  /** Everything stale can be removed. */
  lemma CleanupExists(e: Disk, schema: Schema, results: seq<InstallResult>, picks: seq<seq<bool>>)
    returns (run: SyncRun)
    requires Tree(e)
    ensures run.picks == picks && RemovesStale(e, schema, results, run)
    ensures AllCan(e, CleanupOps(run)) && Cleaned(e, Run(e, CleanupOps(run)), schema, results)
  {
    hide Run, AllCan, StaleConfs, StaleTrees, StaleFiles, Tree, Cleaned, IsFile, IsDir;
    var confs := RemoveEach(e, StaleConfs(e, schema, results));
    var f := Run(e, confs);
    var trees := RemoveEachTree(f, StaleTrees(e, schema, results));
    var g := Run(f, trees);
    var files := RemoveEach(g, StaleFiles(e, schema, results));
    run := SyncRun(picks, confs, trees, files);
    RemovedInTurn([], e, confs, trees, files);
    StaleGone(e, f, g, Run(g, files), schema, results, confs, trees, files);
  }

  ghost function ExactPicks(host: Host, d: Disk, pairs: seq<Pair>): (picked: seq<bool>)
    ensures Exact(host, d, pairs, picked) && Justified(host, d, pairs, picked)
  {
    seq(|pairs|, i requires 0 <= i < |pairs| => Differs(host, d, pairs[i]))
  }

  lemma {:induction false} PicksExist(req: Request, d: Disk, n: nat) returns (picks: seq<seq<bool>>)
    requires n <= |req.items|
    ensures |picks| == n && PicksFit(req, picks, n)
    ensures InstallsJustified(req, d, picks, n) && InstallsExact(req, d, picks, n)
  {
    hide JobOf, Installs, Justified, Exact, InstallsJustified, InstallsExact, ExactPicks, ResultOf;
    picks := [];
    NoPicks(req, d);
    if n > 0 {
      picks := PicksExist(req, d, n - 1);
      var picked := ExactPicks(req.host, DiskAfter(req, d, picks, n - 1), JobAt(req, d, picks, n - 1).changeset);
      PickedFits(req, d, picks, picked, n - 1);
      StepJustified(req, d, picks, picked, n - 1);
      StepExact(req, d, picks, picked, n - 1);
      picks := picks + [picked];
    }
  }

  lemma NoPicks(req: Request, d: Disk)
    ensures PicksFit(req, [], 0) && InstallsJustified(req, d, [], 0) && InstallsExact(req, d, [], 0)
  {
    hide JobOf, Installs, Justified, Exact;
  }

  lemma PickedFits(req: Request, d: Disk, picks: seq<seq<bool>>, picked: seq<bool>, i: nat)
    requires |picks| == i < |req.items| && PicksFit(req, picks, i)
    requires Exact(req.host, DiskAfter(req, d, picks, i), JobAt(req, d, picks, i).changeset, picked)
    ensures PicksFit(req, picks + [picked], i + 1)
  {
    hide GenerateEntry, Installs;
  }

  /**
   A synchronisation can always be completed: from every volume with nothing in the way there is a complete
   run that copies exactly what differs.
   */
  lemma RunExists(req: Request, d: Disk) returns (run: SyncRun)
    requires Tree(d) && Modern(req) && Unobstructed(req, d)
    ensures CompleteRun(req, d, run) && Fits(req, run) && InstallsExact(req, d, run.picks, |req.items|)
  {
    hide Tree, Modern, Unobstructed, Installs, InstallsJustified, InstallsExact, RemovesStale, Cleaned, Run,
         AllCan, CleanupOps, InstallsResults;
    var n := |req.items|;
    var picks := PicksExist(req, d, n);
    InstallsFeasible(req, d, picks, n);
    run := CleanupExists(DiskAfter(req, d, picks, n), req.schema, InstallsResults(req, d, picks, n), picks);
  }

  /** One kernel on its own, installed under the global schema, is always tidy. */
  lemma OneKernelTidy(req: Request, item: Item)
    requires req.items == [item] && item.entry.initrd == [] && WellNamed(item.entry.image)
    requires !req.schema.Legacy? && EffectiveSchema(req, item) == req.schema
    ensures Tidy(req)
  {
    DestShape(req, item, item.entry.image);
    var conf, dest := WantedConf(req, item), WantedDest(req, item, item.entry.image);
    hide WantedDest;
    assert item.entry.Assets() == [item.entry.image];
    assert forall p | IsWanted(req, p) :: p != [] && (p <= conf || p <= dest);
    hide IsWanted;
    forall p, q | IsWanted(req, p) && IsWanted(req, q) && Key(p) == Key(q)
      ensures p == q
    {
      assert |p| == |q| && |Key(p)[0]| == |p[0]| && |Key(q)[0]| == |q[0]|;
      assert p <= conf ==> |p[0]| == 6;
      assert p <= dest ==> |p[0]| == 3;
      assert q <= conf ==> |q[0]| == 6;
      assert q <= dest ==> |q[0]| == 3;
    }
  }

  /** Nothing is in the way on the empty volume, whatever is to be installed. */
  lemma EmptyVolumeClear(req: Request)
    requires Modern(req)
    ensures Tree(map[]) && Unobstructed(req, map[])
  {
    hide Modern, FilesOf;
    forall k | k in FilesOf(req)
      ensures IsClear(map[], k)
    {
      FileShape(req, k);
    }
  }

  /** For tidy requests it is one to start from. */
  lemma EmptyVolumeReady(req: Request)
    requires Tidy(req) && Genuine(req)
    ensures Ready(req, map[])
  {
    hide Genuine, WantedDest, Tidy;
    var d: Disk := map[];
    forall item, asset | item in req.items && asset in item.entry.Assets()
      ensures SpelledAs(d, WantedDest(req, item, asset))
    {
    }
  }
}
