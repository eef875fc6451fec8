/** A complete run, operation by operation: what stands around each, and what it finds on the volume. */
module RunShape {
  import opened Text
  import opened Fat
  import opened Volumes
  import opened AtomicCopy
  import opened Compare
  import opened Entries
  import opened Assets
  import opened SyncPlan
  import opened Wanted
  import opened Convergence
  import opened Outcome
  import opened Effects
  import opened Frame
  import opened Scaffold
  import opened Turns
  import opened Exactness
  import opened Recovery
  import opened Cuts

  // ---------------------------------------------------------------- copies between barriers

  /** To put this content there is what some asset asks for. */
  ghost predicate IsCopy(req: Request, dest: Path, content: Content) {
    exists item, asset | item in req.items && asset in item.entry.Assets() ::
      |dest| == 4 && IsDestOf(req, item, asset, dest) && content == ContentFor(req, item, asset)
  }

  /** The removal at `i` makes room for a copy that is complete in its staging file and about to be renamed. */
  ghost predicate IsReplacing(req: Request, ops: seq<Op>, i: nat) {
    && 2 <= i && i + 3 < |ops| && ops[i].Remove? && ops[i].path != []
    && ops[i - 2].Write? && ops[i - 2].path == Staging(ops[i].path)
    && ops[i - 1] == Barrier && ops[i + 1] == Barrier && ops[i + 3] == Barrier
    && ops[i + 2] == Rename(Staging(ops[i].path), ops[i].path)
    && IsCopy(req, ops[i].path, ops[i - 2].content)
  }

  predicate IsAlone(ops: seq<Op>, i: nat) {
    0 < i && i + 1 < |ops| && ops[i - 1] == Barrier && ops[i + 1] == Barrier
  }

  /** Removals and renames of copies stand between barriers. */
  ghost predicate Fenced(req: Request, ops: seq<Op>) {
    forall i | 0 <= i < |ops| ::
      (ops[i].Remove? ==> IsReplacing(req, ops, i)) && (ops[i].Rename? ==> IsAlone(ops, i))
  }

  lemma FencedAt(req: Request, ops: seq<Op>, i: nat)
    requires Fenced(req, ops) && i < |ops|
    ensures ops[i].Remove? ==> IsReplacing(req, ops, i)
    ensures ops[i].Rename? ==> IsAlone(ops, i)
  {
    hide IsCopy;
  }

  lemma FencedWithin(req: Request, ops: seq<Op>, from: nat, part: seq<Op>, i: nat)
    requires from + |part| <= |ops| && ops[from..from + |part|] == part && i < |part|
    ensures IsReplacing(req, part, i) ==> IsReplacing(req, ops, from + i)
    ensures IsAlone(part, i) ==> IsAlone(ops, from + i)
  {
    hide IsCopy, Staging;
    assert forall j | 0 <= j < |part| :: part[j] == ops[from + j];
  }

  lemma FencedConcat(req: Request, a: seq<Op>, b: seq<Op>)
    requires Fenced(req, a) && Fenced(req, b)
    ensures Fenced(req, a + b)
  {
    hide IsReplacing, IsAlone;
    var c := a + b;
    assert c[0..|a|] == a && c[|a|..|a| + |b|] == b;
    forall i | 0 <= i < |c|
      ensures (c[i].Remove? ==> IsReplacing(req, c, i)) && (c[i].Rename? ==> IsAlone(c, i))
    {
      if i < |a| {
        FencedWithin(req, c, 0, a, i);
        assert c[i] == a[i];
      } else {
        FencedWithin(req, c, |a|, b, i - |a|);
        assert c[i] == b[i - |a|];
      }
    }
  }

  lemma NothingFenced(req: Request, ops: seq<Op>)
    requires forall op | op in ops :: !op.Remove? && !op.Rename?
    ensures Fenced(req, ops)
  {
    hide IsReplacing;
    assert forall i | 0 <= i < |ops| :: ops[i] in ops;
  }

  lemma CopyFenced(req: Request, d: Disk, content: Content, dest: Path)
    requires dest != [] && IsCopy(req, dest, content)
    ensures Fenced(req, CopyOps(d, content, dest))
  {
    var dirs := if Exists(d, Key(Parent(dest))) then [] else MkDirs(Parent(dest));
    var rest := [Write(Staging(dest), content), Barrier] + ReplaceOps(Key(dest) in d, dest);
    assert CopyOps(d, content, dest) == dirs + rest;
    RestFenced(req, content, dest, Key(dest) in d);
    hide MkDirs, Staging, ReplaceOps, CopyOps, Fenced, IsCopy;
    forall op | op in dirs
      ensures op.MkDir?
    {
      MkDirsShape(Parent(dest), op);
    }
    NothingFenced(req, dirs);
    FencedConcat(req, dirs, rest);
  }

  lemma RestFenced(req: Request, content: Content, dest: Path, destExists: bool)
    requires dest != [] && IsCopy(req, dest, content)
    ensures Fenced(req, [Write(Staging(dest), content), Barrier] + ReplaceOps(destExists, dest))
  {
    hide Staging, IsCopy;
  }

  ghost predicate AreCopies(req: Request, pairs: seq<Pair>) {
    forall pair | pair in pairs :: IsCopy(req, pair.dest, ContentOf(req.host, pair.source))
  }

  lemma {:induction false} CopiesFenced(req: Request, d: Disk, pairs: seq<Pair>, n: nat)
    requires HaveDests(pairs) && n <= |pairs| && AreCopies(req, pairs)
    ensures Fenced(req, CopiesOps(req.host, d, pairs, n))
  {
    hide CopyOps, Run, Fenced, IsCopy;
    if n > 0 {
      CopiesFenced(req, d, pairs, n - 1);
      var before, pair := CopiesOps(req.host, d, pairs, n - 1), pairs[n - 1];
      assert pair in pairs;
      CopyFenced(req, Run(d, before), ContentOf(req.host, pair.source), pair.dest);
      FencedConcat(req, before, CopyOps(Run(d, before), ContentOf(req.host, pair.source), pair.dest));
    } else {
      NothingFenced(req, []);
    }
  }

  lemma ConfOpsKinds(d: Disk, job: Job)
    ensures forall op | op in ConfOps(d, job) :: op.MkDir? || op.Write?
  {
    hide EntriesDir, MkDirs;
    forall op | op in MkDirs(EntriesDir(d))
      ensures op.MkDir?
    {
      MkDirsShape(EntriesDir(d), op);
    }
  }

  lemma JobCopies(req: Request, e: Disk, item: Item, picked: seq<bool>)
    requires Tree(e) && Modern(req) && item in req.items && |picked| == |item.entry.Assets()|
    ensures AreCopies(req, Select(JobOf(req, e, item).changeset, picked))
  {
    ModernItem(req, item);
    hide Tree, Modern, JobOf, EffectiveSchema, IsDestOf, Select;
    forall pair | pair in Select(JobOf(req, e, item).changeset, picked)
      ensures IsCopy(req, pair.dest, ContentOf(req.host, pair.source))
    {
      var asset := JobPair(req, e, item, pair);
    }
  }

  lemma {:induction false} InstallsFenced(req: Request, d: Disk, picks: seq<seq<bool>>, n: nat)
    requires Tree(d) && Modern(req) && PicksFit(req, picks, n)
    ensures Fenced(req, Installs(req, d, picks, n).ops)
  {
    hide Tree, Modern, JobOf, CopiesOps, ConfOps, Run, Fenced, Installing, AreCopies;
    if n > 0 {
      InstallsFenced(req, d, picks, n - 1);
      InstallsInstalling(req, d, picks, n - 1);
      var s := Installs(req, d, picks, n - 1);
      var job := JobOf(req, s.disk, req.items[n - 1]);
      var needed := Select(job.changeset, picks[n - 1]);
      var copies := CopiesOps(req.host, s.disk, needed, |needed|);
      JobCopies(req, s.disk, req.items[n - 1], picks[n - 1]);
      CopiesFenced(req, s.disk, needed, |needed|);
      ConfOpsKinds(Run(s.disk, copies), job);
      NothingFenced(req, ConfOps(Run(s.disk, copies), job));
      FencedConcat(req, copies, ConfOps(Run(s.disk, copies), job));
      FencedConcat(req, s.ops, copies + ConfOps(Run(s.disk, copies), job));
    } else {
      NothingFenced(req, []);
    }
  }

  // ---------------------------------------------------------------- whose turn it is

  /** Where the operations of the `i`th entry start. */
  function StartOf(req: Request, d: Disk, picks: seq<seq<bool>>, i: nat): nat
    requires PicksFit(req, picks, i)
  {
    |Installs(req, d, picks, i).ops|
  }

  /** The operations of an entry's turn. */
  function TurnOps(req: Request, d: Disk, picks: seq<seq<bool>>, i: nat): seq<Op>
    requires i < |req.items| && PicksFit(req, picks, i + 1)
  {
    InstallOps(req.host, DiskAfter(req, d, picks, i), JobAt(req, d, picks, i), picks[i])
  }

  lemma {:induction false} TurnPart(req: Request, d: Disk, picks: seq<seq<bool>>, i: nat, n: nat)
    requires i < n && PicksFit(req, picks, n)
    ensures var ops := Installs(req, d, picks, n).ops;
            var from, to := StartOf(req, d, picks, i), StartOf(req, d, picks, i + 1);
            && from <= to <= |ops| && ops[..from] == Installs(req, d, picks, i).ops
            && ops[from..to] == TurnOps(req, d, picks, i)
  {
    hide JobOf, InstallOps, Run;
    var s := Installs(req, d, picks, n - 1);
    var more := TurnOps(req, d, picks, n - 1);
    assert Installs(req, d, picks, n) == Next(req, s, req.items[n - 1], picks[n - 1]);
    assert Installs(req, d, picks, n).ops == s.ops + more;
    if i < n - 1 {
      TurnPart(req, d, picks, i, n - 1);
      PartOfFront(s.ops, more, StartOf(req, d, picks, i), StartOf(req, d, picks, i + 1));
    } else {
      PartAtEnd(s.ops, more);
    }
  }

  lemma PartOfFront<T>(a: seq<T>, b: seq<T>, from: nat, to: nat)
    requires from <= to <= |a|
    ensures (a + b)[..from] == a[..from] && (a + b)[from..to] == a[from..to]
  {
  }

  lemma PartAtEnd<T>(a: seq<T>, b: seq<T>)
    ensures (a + b)[..|a|] == a && (a + b)[|a|..|a| + |b|] == b
  {
  }

  lemma {:induction false} TurnAt(req: Request, d: Disk, picks: seq<seq<bool>>, n: nat, i: nat) returns (j: nat)
    requires PicksFit(req, picks, n) && i < |Installs(req, d, picks, n).ops|
    ensures j < n && StartOf(req, d, picks, j) <= i < StartOf(req, d, picks, j + 1)
  {
    hide JobOf, InstallOps, Run;
    if i < StartOf(req, d, picks, n - 1) {
      j := TurnAt(req, d, picks, n - 1, i);
    } else {
      j := n - 1;
    }
  }

  /** The last operation of an entry's turn writes its configuration. */
  lemma TurnEnds(req: Request, d: Disk, picks: seq<seq<bool>>, i: nat)
    requires i < |req.items| && PicksFit(req, picks, i + 1)
    ensures var ops, job := TurnOps(req, d, picks, i), JobAt(req, d, picks, i);
            ops != [] && Last(ops) == Write(job.conf, job.text)
  {
    hide JobOf, CopiesOps, EntriesDir, MkDirs, Run;
  }

  // ---------------------------------------------------------------- writing configurations

  lemma {:induction false} CopiesWriteNoConf(req: Request, d: Disk, pairs: seq<Pair>, n: nat)
    requires HaveDests(pairs) && n <= |pairs| && AreCopies(req, pairs)
    ensures forall op | op in CopiesOps(req.host, d, pairs, n) :: !IsConfWrite(op)
  {
    hide CopyOps, Run, IsConfWrite, IsDestOf;
    if n > 0 {
      CopiesWriteNoConf(req, d, pairs, n - 1);
      var pair := pairs[n - 1];
      assert pair in pairs;
      CopyWritesNoConf(Run(d, CopiesOps(req.host, d, pairs, n - 1)), ContentOf(req.host, pair.source), pair.dest);
    }
  }

  lemma CopyWritesNoConf(d: Disk, content: Content, dest: Path)
    requires |dest| == 4
    ensures forall op | op in CopyOps(d, content, dest) :: !IsConfWrite(op)
  {
    CopyOpsShape(d, content, dest);
    StagingDiffers(dest);
    hide CopyOps, Staging;
    forall op | op in CopyOps(d, content, dest)
      ensures !IsConfWrite(op)
    {
      assert CopyShape(op, dest);
    }
  }

  /** After the copies of an entry all its assets are there. */
  lemma AssetsCopied(req: Request, e: Disk, item: Item, picked: seq<bool>, asset: HashedAsset)
    requires Tree(e) && Modern(req) && Genuine(req) && AgreeAssets(req) && item in req.items
    requires Justified(req.host, e, JobOf(req, e, item).changeset, picked)
    requires var needed := Select(JobOf(req, e, item).changeset, picked);
             AllCan(e, CopiesOps(req.host, e, needed, |needed|))
    requires asset in item.entry.Assets()
    ensures var needed := Select(JobOf(req, e, item).changeset, picked);
            IsFile(Run(e, CopiesOps(req.host, e, needed, |needed|)), Key(WantedDest(req, item, asset)))
  {
    ModernItem(req, item);
    DestShape(req, item, asset);
    WantedDestIsWanted(req, item, asset);
    assert IsGenuine(req, item, asset);
    hide Tree, Modern, Genuine, AgreeAssets, JobOf, WantedDest, IsWanted, Run, AllCan, CopiesOps, Differs, AssetPair;
    PairOfAsset(req, e, item, asset);
    JobSparesAsset(req, e, item, item, asset);
    PairEstablished(req.host, e, JobOf(req, e, item), picked, AssetPair(req, e, item, asset));
  }

  lemma MkDirsKeepFiles(d: Disk, p: Path)
    requires AllCan(d, MkDirs(p))
    ensures forall k | IsFile(d, k) :: IsFile(Run(d, MkDirs(p)), k)
  {
    hide Run, AllCan, MkDirs, WithDirs;
    MkDirsRun(d, p);
    forall k | IsFile(d, k)
      ensures IsFile(WithDirs(d, p), k)
    {
      WithDirsAt(d, p, k);
    }
  }

  lemma ConfWriteLast(copies: seq<Op>, conf: seq<Op>, l: nat)
    requires conf != [] && l < |copies + conf| && IsConfWrite((copies + conf)[l])
    requires (forall op | op in copies :: !IsConfWrite(op)) && forall i | 0 <= i < |conf| - 1 :: conf[i].MkDir?
    ensures l == |copies + conf| - 1 && (copies + conf)[..l] == copies + conf[..|conf| - 1]
  {
    hide IsConfWrite;
    var all := copies + conf;
    forall i | 0 <= i < |all| - 1
      ensures !IsConfWrite(all[i])
    {
      if i < |copies| {
        assert all[i] in copies;
      } else {
        DirIsNoWrite(conf[i - |copies|]);
      }
    }
  }

  lemma DirIsNoWrite(op: Op)
    requires op.MkDir?
    ensures !IsConfWrite(op)
  {
  }

  lemma ConfOpsEnd(d: Disk, job: Job)
    requires AllCan(d, ConfOps(d, job))
    ensures var ops := ConfOps(d, job);
            && ops != [] && Last(ops) == Write(job.conf, job.text) && (forall i | 0 <= i < |ops| - 1 :: ops[i].MkDir?)
            && forall k | IsFile(d, k) :: IsFile(Run(d, ops[..|ops| - 1]), k)
  {
    hide EntriesDir, MkDirs, Run, AllCan;
    var dirs := if Exists(d, Key(EntriesDir(d))) then [] else MkDirs(EntriesDir(d));
    var write := Write(job.conf, job.text);
    assert ConfOps(d, job) == dirs + [write] && (dirs + [write])[..|dirs|] == dirs;
    RunConcat(d, dirs, [write]);
    RunNone(d);
    forall i | 0 <= i < |dirs|
      ensures dirs[i].MkDir?
    {
      assert dirs[i] in dirs;
      MkDirsShape(EntriesDir(d), dirs[i]);
    }
    if dirs != [] {
      MkDirsKeepFiles(d, EntriesDir(d));
    }
  }

  /** The one configuration an entry's turn writes comes last, when all its assets are there. */
  lemma TurnWrites(req: Request, e: Disk, item: Item, picked: seq<bool>, l: nat)
    requires Tree(e) && Modern(req) && Genuine(req) && AgreeAssets(req) && item in req.items
    requires Justified(req.host, e, JobOf(req, e, item).changeset, picked)
    requires AllCan(e, InstallOps(req.host, e, JobOf(req, e, item), picked))
    requires l < |InstallOps(req.host, e, JobOf(req, e, item), picked)|
    requires IsConfWrite(InstallOps(req.host, e, JobOf(req, e, item), picked)[l])
    ensures var ops := InstallOps(req.host, e, JobOf(req, e, item), picked);
            l == |ops| - 1
            && forall asset | asset in item.entry.Assets() ::
                 IsFile(Run(e, ops[..l]), Key(WantedDest(req, item, asset)))
  {
    hide Tree, Modern, Genuine, AgreeAssets, JobOf, CopiesOps, ConfOps, Run, AllCan, Differs, AreCopies, WantedDest,
         IsConfWrite;
    PickedLength(req, e, item, picked);
    var job := JobOf(req, e, item);
    var needed := Select(job.changeset, picked);
    var copies := CopiesOps(req.host, e, needed, |needed|);
    var f := Run(e, copies);
    var conf := ConfOps(f, job);
    RunConcat(e, copies, conf);
    JobCopies(req, e, item, picked);
    CopiesWriteNoConf(req, e, needed, |needed|);
    ConfOpsEnd(f, job);
    ConfWriteLast(copies, conf, l);
    RunConcat(e, copies, conf[..|conf| - 1]);
    forall asset | asset in item.entry.Assets()
      ensures IsFile(Run(f, conf[..|conf| - 1]), Key(WantedDest(req, item, asset)))
    {
      AssetsCopied(req, e, item, picked, asset);
    }
  }

  lemma PickedLength(req: Request, e: Disk, item: Item, picked: seq<bool>)
    requires Justified(req.host, e, JobOf(req, e, item).changeset, picked)
    ensures |picked| == |item.entry.Assets()|
  {
    hide JobOf;
  }

  /** The text is that of an entry, all of whose assets are there. */
  ghost predicate WritesConfOf(req: Request, d: Disk, e: Disk, op: Op, item: Item) {
    && op.Write? && Key(op.path) == Key(WantedConf(req, item))
    && op.content == JobOf(req, Prepared(req, d), item).text
    && forall asset | asset in item.entry.Assets() :: IsFile(e, Key(WantedDest(req, item, asset)))
  }

  /** A configuration is written at the end of an entry's turn. */
  lemma WrittenAt(req: Request, d: Disk, run: SyncRun, l: nat) returns (i: nat)
    requires Keeps(req, d) && CompleteRun(req, d, run) && Fits(req, run)
    requires l < |InstallPhase(req, d, run).ops| && IsConfWrite(InstallPhase(req, d, run).ops[l])
    ensures i < |req.items| && l == StartOf(req, d, run.picks, i + 1) - 1
    ensures WritesConfOf(req, d, Run(d, InstallPhase(req, d, run).ops[..l]), InstallPhase(req, d, run).ops[l],
                         req.items[i])
  {
    hide Tree, Modern, Genuine, AgreeAssets, AgreeConfs, AllKept, CompleteRun, JobOf, InstallOps, Run, AllCan,
         Justified, Made, RequestDirs, SameScaffold, Prepared, WantedDest, WantedConf, IsConfWrite;
    var ops, n := InstallPhase(req, d, run).ops, |req.items|;
    i := TurnAt(req, d, run.picks, n, l);
    TurnPart(req, d, run.picks, i, n);
    Turn(req, d, run, i);
    TurnDisk(req, d, run, i);
    PreparedIsTree(req, d, run);
    var e, from := DiskAfter(req, d, run.picks, i), StartOf(req, d, run.picks, i);
    var turn := TurnOps(req, d, run.picks, i);
    InstallsRun(req, d, run.picks, i);
    WithinPart(ops, from, turn, l);
    TurnWrites(req, e, req.items[i], run.picks[i], l - from);
    TurnEnds(req, d, run.picks, i);
    RunConcat(d, ops[..from], turn[..l - from]);
    JobAtEnd(req, d, e, i);
    JobShape(req, e, req.items[i]);
  }

  lemma WithinPart<T>(all: seq<T>, from: nat, part: seq<T>, l: nat)
    requires from <= l < from + |part| <= |all| && all[from..from + |part|] == part
    ensures all[l] == part[l - from] && all[..l] == all[..from] + part[..l - from]
  {
    assert forall i | 0 <= i < |part| :: part[i] == all[from + i];
  }

  /** Every entry's configuration is written, at the end of the entry's turn. */
  lemma EndOfTurn(req: Request, d: Disk, run: SyncRun, i: nat) returns (l: nat)
    requires Tree(d) && Modern(req) && CompleteRun(req, d, run) && Fits(req, run) && i < |req.items|
    ensures l == StartOf(req, d, run.picks, i + 1) - 1 && l < |InstallPhase(req, d, run).ops|
    ensures IsConfWrite(InstallPhase(req, d, run).ops[l])
    ensures Key(InstallPhase(req, d, run).ops[l].path) == Key(WantedConf(req, req.items[i]))
  {
    hide Tree, Modern, CompleteRun, JobOf, InstallOps, Run, Made, RequestDirs, SameScaffold, WantedConf, Installs;
    TurnPart(req, d, run.picks, i, |req.items|);
    TurnEnds(req, d, run.picks, i);
    TurnDisk(req, d, run, i);
    var ops, from, turn := InstallPhase(req, d, run).ops, StartOf(req, d, run.picks, i), TurnOps(req, d, run.picks, i);
    l := from + |turn| - 1;
    WithinPart(ops, from, turn, l);
    JobShape(req, DiskAfter(req, d, run.picks, i), req.items[i]);
    ConfInEntries(req, req.items[i]);
  }

  lemma ConfInEntries(req: Request, item: Item)
    ensures InEntries(Key(WantedConf(req, item)))
  {
    var w := WantedConf(req, item);
    assert w[..2] == ["loader", "entries"];
    KeyTake(w, 2);
    hide ConfName;
  }

  // ---------------------------------------------------------------- cleaning up

  /** An operation of cleaning up: a configuration, a subtree, or a file, and nothing that is asked for. */
  ghost predicate Clears(req: Request, op: Op) {
    && IsRemoval(op) && IsCleanupShape(op)
    && forall k | k in ConfKeys(req) || k in AssetKeys(req) :: !Touches(op, k)
  }

  lemma CleanupClears(req: Request, d: Disk, run: SyncRun, op: Op)
    requires Keeps(req, d) && CompleteRun(req, d, run) && Fits(req, run) && op in CleanupOps(run)
    ensures Clears(req, op)
  {
    hide Tree, Modern, Genuine, AgreeAssets, AgreeConfs, IsKept, CompleteRun, Installs, Prepared, Final, Results,
         Cleaned, CleanupOps, RemovesStale, Touches, WantedConf, WantedDest, IsCleanupShape;
    TwoPhases(req, d, run);
    RemovalShape(InstallPhase(req, d, run).disk, req.schema, Results(req, d, run), run, op);
    forall k | k in ConfKeys(req) || k in AssetKeys(req)
      ensures !Touches(op, k)
    {
      if item :| item in req.items && k == Key(WantedConf(req, item)) {
        CleanupSparesConf(req, d, run, item, op);
      } else {
        var item, asset :| item in req.items && asset in item.entry.Assets() && k == Key(WantedDest(req, item, asset));
        assert IsKept(req, d, item, asset);
        CleanupSparesKept(req, d, run, item, asset, op);
      }
    }
  }

  /** Configurations go first, and what goes afterwards is no configuration. */
  lemma CleanupOrder(e: Disk, schema: Schema, results: seq<InstallResult>, run: SyncRun)
    requires Tree(e) && RemovesStale(e, schema, results, run)
    ensures forall op | op in run.confs :: op.Remove? && InEntries(Key(op.path))
    ensures forall op, k | op in run.trees + run.files && InEntries(k) :: !Touches(op, k)
  {
    hide Tree, LoaderFiles, KernelDirs, IsStaleConf, IsStaleTree, IsStaleFile, FilesBelow;
    forall op | op in run.confs
      ensures op.Remove? && InEntries(Key(op.path))
    {
      LoaderFileKey(e, schema, op.path);
    }
    forall op, k | op in run.trees + run.files && InEntries(k)
      ensures !Touches(op, k)
    {
      if op in run.trees {
        BelowEfi(e, schema, op.path);
        assert |k[..2][0]| == 6;
      } else {
        var dir :| dir in KernelDirs(e, schema) && op.path in FilesBelow(e, dir);
        BelowEfi(e, schema, dir);
        var n := FileListed(e, dir, op.path);
      }
    }
  }

  /** A managed configuration: one with our prefixes, or one of the request. */
  ghost predicate IsConfNode(req: Request, d: Disk, k: Path) {
    && IsFile(d, k) && InEntries(k)
    && (HasCleanedPrefix(req.schema, d[k].name) || k in ConfKeys(req))
  }

  /** Once the stale configurations are gone, only those of the request are left. */
  lemma OursLeft(req: Request, d: Disk, run: SyncRun, k: Path)
    requires Tree(d) && Modern(req) && CompleteRun(req, d, run) && Fits(req, run)
    requires IsConfNode(req, Run(InstallPhase(req, d, run).disk, run.confs), k)
    ensures k in ConfKeys(req)
  {
    hide Tree, Modern, CompleteRun, Installs, Final, Results, Cleaned, RemovesStale, Run, HasCleanedPrefix,
         WantedConf, WantedDest, InEntries;
    TwoPhases(req, d, run);
    var e, later := InstallPhase(req, d, run).disk, run.trees + run.files;
    var g := Run(e, run.confs);
    CleanupOrder(e, req.schema, Results(req, d, run), run);
    assert CleanupOps(run) == run.confs + later;
    RunConcat(e, run.confs, later);
    RunFrame(g, later, k);
    ConfNodeIsManaged(req, g, k);
    SameIsManaged(req, g, Final(req, d, run), k);
    ManagedIsAsked(req, d, run, k);
    EntriesNoAsset(req, k);
  }

  lemma ConfNodeIsManaged(req: Request, d: Disk, k: Path)
    requires IsConfNode(req, d, k)
    ensures IsManaged(req, d, k)
  {
    hide HasCleanedPrefix, WantedConf, WantedDest, InEntries;
  }

  lemma SameIsManaged(req: Request, d: Disk, e: Disk, k: Path)
    requires IsManaged(req, d, k) && NodeAt(d, k) == NodeAt(e, k)
    ensures IsManaged(req, e, k)
  {
    hide HasCleanedPrefix, InTarget, IsCleaned, InEntries;
  }

  /** No asset lies in the directory of configurations. */
  lemma EntriesNoAsset(req: Request, r: Path)
    requires Modern(req) && InEntries(r)
    ensures r !in AssetKeys(req)
  {
    hide Modern, WantedDest;
    if item, asset :| item in req.items && asset in item.entry.Assets() && r == Key(WantedDest(req, item, asset)) {
      AssetKeyShape(req, item, asset);
    }
  }

  // ---------------------------------------------------------------- a run, operation by operation

  /** What is known of the operations of a run: entries are installed, configurations cleared, trees and files swept. */
  ghost predicate IsRun(req: Request, d: Disk, ops: seq<Op>, installed: nat, cleared: nat) {
    && installed <= cleared <= |ops| && AllCan(d, ops)
    && Fenced(req, ops[..installed]) && AllInstalling(req, ops[..installed])
    && IsWritten(req, d, ops[..installed]) && IsComplete(req, ops[..installed])
    && AllCleared(req, ops[installed..cleared]) && AllSwept(req, ops[cleared..])
    && forall k | IsConfNode(req, Run(d, ops[..cleared]), k) :: k in ConfKeys(req)
  }

  ghost predicate AllInstalling(req: Request, ops: seq<Op>) {
    forall op | op in ops :: Installing(req, op)
  }

  /** Every configuration that is written is that of an entry, all of whose assets are there. */
  ghost predicate IsWritten(req: Request, d: Disk, ops: seq<Op>) {
    forall i | 0 <= i < |ops| && IsConfWrite(ops[i]) ::
      exists item | item in req.items :: WritesConfOf(req, d, Run(d, ops[..i]), ops[i], item)
  }

  predicate WritesAt(op: Op, k: Path) {
    IsConfWrite(op) && Key(op.path) == k
  }

  /** The configurations of all entries are written. */
  ghost predicate IsComplete(req: Request, ops: seq<Op>) {
    forall k | k in ConfKeys(req) :: exists i | 0 <= i < |ops| :: WritesAt(ops[i], k)
  }

  ghost predicate AllCleared(req: Request, ops: seq<Op>) {
    forall op | op in ops :: Clears(req, op) && op.Remove? && InEntries(Key(op.path))
  }

  ghost predicate AllSwept(req: Request, ops: seq<Op>) {
    forall op | op in ops :: Clears(req, op) && forall k | InEntries(k) :: !Touches(op, k)
  }

  ghost function Installed(req: Request, d: Disk, run: SyncRun): nat
    requires Fits(req, run)
  {
    |InstallPhase(req, d, run).ops|
  }

  lemma RunIsRun(req: Request, d: Disk, run: SyncRun)
    requires Keeps(req, d) && CompleteRun(req, d, run) && Fits(req, run)
    ensures IsRun(req, d, SyncOps(req, d, run), Installed(req, d, run), Installed(req, d, run) + |run.confs|)
  {
    hide Keeps, CompleteRun, Installs, SyncOps, CleanupOps, Run, AllCan, Fenced, AllInstalling, IsWritten,
         IsComplete, AllCleared, AllSwept, IsConfNode, ConfKeys, IsRun, PicksFit;
    SyncOpsParts(req, d, run);
    CanSync(req, d, run);
    InstallFacts(req, d, run);
    CleanupFacts(req, d, run);
    CleanupParts(run);
    PartsAreRun(req, d, InstallPhase(req, d, run).ops, run.confs, run.trees + run.files);
  }

  lemma CleanupParts(run: SyncRun)
    ensures CleanupOps(run) == run.confs + (run.trees + run.files)
  {
  }

  lemma PartsAreRun(req: Request, d: Disk, a: seq<Op>, confs: seq<Op>, later: seq<Op>)
    requires AllCan(d, a + (confs + later)) && Fenced(req, a) && AllInstalling(req, a)
    requires IsWritten(req, d, a) && IsComplete(req, a) && AllCleared(req, confs) && AllSwept(req, later)
    requires forall k | IsConfNode(req, Run(d, a + confs), k) :: k in ConfKeys(req)
    ensures IsRun(req, d, a + (confs + later), |a|, |a| + |confs|)
  {
    hide AllCan, Fenced, AllInstalling, IsWritten, IsComplete, AllCleared, AllSwept, IsConfNode, ConfKeys, Run;
    ThreeParts(a, confs, later);
  }

  lemma InstallFacts(req: Request, d: Disk, run: SyncRun)
    requires Keeps(req, d) && CompleteRun(req, d, run) && Fits(req, run)
    ensures var a := InstallPhase(req, d, run).ops;
            && Fenced(req, a) && AllInstalling(req, a) && IsWritten(req, d, a) && IsComplete(req, a)
            && InstallPhase(req, d, run).disk == Run(d, a)
  {
    hide Tree, Modern, Genuine, AgreeAssets, AgreeConfs, AllKept, CompleteRun, Installs, Prepared, Run, Fenced,
         Installing, IsWritten, IsComplete;
    InstallsFenced(req, d, run.picks, |req.items|);
    InstallsInstalling(req, d, run.picks, |req.items|);
    InstallsRun(req, d, run.picks, |req.items|);
    AllWritten(req, d, run);
    AllComplete(req, d, run);
  }

  lemma CleanupFacts(req: Request, d: Disk, run: SyncRun)
    requires Keeps(req, d) && CompleteRun(req, d, run) && Fits(req, run)
    ensures AllCleared(req, run.confs) && AllSwept(req, run.trees + run.files)
    ensures forall k | IsConfNode(req, Run(d, InstallPhase(req, d, run).ops + run.confs), k) :: k in ConfKeys(req)
  {
    hide Tree, Modern, Genuine, AgreeAssets, AgreeConfs, AllKept, CompleteRun, Installs, Prepared, Results, Cleaned,
         RemovesStale, Run, Clears, IsConfNode, Final, InEntries, Touches, ConfKeys;
    TwoPhases(req, d, run);
    InstallsRun(req, d, run.picks, |req.items|);
    RunConcat(d, InstallPhase(req, d, run).ops, run.confs);
    CleanupOrder(InstallPhase(req, d, run).disk, req.schema, Results(req, d, run), run);
    forall op | op in CleanupOps(run)
      ensures Clears(req, op)
    {
      CleanupClears(req, d, run, op);
    }
    forall k | IsConfNode(req, Run(d, InstallPhase(req, d, run).ops + run.confs), k)
      ensures k in ConfKeys(req)
    {
      OursLeft(req, d, run, k);
    }
  }

  lemma ThreeParts<T>(a: seq<T>, b: seq<T>, c: seq<T>)
    ensures var all := a + (b + c);
            && all[..|a|] == a && all[|a|..|a| + |b|] == b && all[|a| + |b|..] == c && all[..|a| + |b|] == a + b
  {
  }

  lemma CanSync(req: Request, d: Disk, run: SyncRun)
    requires CompleteRun(req, d, run) && Fits(req, run)
    ensures AllCan(d, SyncOps(req, d, run))
  {
    hide Installs, InstallsJustified, RemovesStale, Cleaned, AllCan, Results, CleanupOps, Run;
    InstallsRun(req, d, run.picks, |req.items|);
    RunConcat(d, InstallPhase(req, d, run).ops, CleanupOps(run));
  }

  lemma AllWritten(req: Request, d: Disk, run: SyncRun)
    requires Keeps(req, d) && CompleteRun(req, d, run) && Fits(req, run)
    ensures IsWritten(req, d, InstallPhase(req, d, run).ops)
  {
    hide Tree, Modern, Genuine, Agrees, AllKept, CompleteRun, Installs, Run, IsConfWrite, WritesConfOf;
    var ops := InstallPhase(req, d, run).ops;
    forall l | 0 <= l < |ops| && IsConfWrite(ops[l])
      ensures exists item | item in req.items :: WritesConfOf(req, d, Run(d, ops[..l]), ops[l], item)
    {
      var i := WrittenAt(req, d, run, l);
    }
  }

  lemma AllComplete(req: Request, d: Disk, run: SyncRun)
    requires Tree(d) && Modern(req) && CompleteRun(req, d, run) && Fits(req, run)
    ensures IsComplete(req, InstallPhase(req, d, run).ops)
  {
    hide Tree, Modern, CompleteRun, Installs, IsConfWrite, WantedConf;
    var ops := InstallPhase(req, d, run).ops;
    forall k | k in ConfKeys(req)
      ensures exists l | 0 <= l < |ops| :: WritesAt(ops[l], k)
    {
      var item :| item in req.items && k == Key(WantedConf(req, item));
      var i :| 0 <= i < |req.items| && req.items[i] == item;
      var l := EndOfTurn(req, d, run, i);
    }
  }

  // ---------------------------------------------------------------- one operation of a run

  lemma OpKind(req: Request, d: Disk, ops: seq<Op>, installed: nat, cleared: nat, i: nat)
    requires IsRun(req, d, ops, installed, cleared) && i < |ops|
    ensures i < installed ==> Installing(req, ops[i])
    ensures i >= installed ==> Clears(req, ops[i])
    ensures installed <= i < cleared ==> ops[i].Remove? && InEntries(Key(ops[i].path))
    ensures i >= cleared ==> forall k | InEntries(k) :: !Touches(ops[i], k)
  {
    hide AllCan, Fenced, IsWritten, IsComplete, Installing, Clears, Touches, InEntries, IsConfNode, Run;
    if i < installed {
      assert ops[..installed][i] == ops[i];
    } else if i < cleared {
      assert ops[installed..cleared][i - installed] == ops[i];
    } else {
      assert ops[cleared..][i - cleared] == ops[i];
    }
  }

  lemma NextDisk(d: Disk, ops: seq<Op>, m: nat)
    requires m < |ops|
    ensures Run(d, ops[..m + 1]) == Apply(Run(d, ops[..m]), ops[m])
  {
    hide Run, Apply;
    assert ops[..m + 1] == ops[..m] + [ops[m]];
    RunConcat(d, ops[..m], [ops[m]]);
    RunOne(Run(d, ops[..m]), ops[m]);
  }

  lemma CanAt(d: Disk, ops: seq<Op>, i: nat)
    requires AllCan(d, ops) && i < |ops|
    ensures Can(Run(d, ops[..i]), ops[i])
  {
    hide Can, Apply;
    assert ops == ops[..i] + ops[i..] && ops[i..] == [ops[i]] + ops[i + 1..];
    RunConcat(d, ops[..i], ops[i..]);
  }

  /** One operation of a run is carried out. */
  lemma StepAt(req: Request, d: Disk, ops: seq<Op>, installed: nat, cleared: nat, i: nat)
    requires IsRun(req, d, ops, installed, cleared) && i < |ops|
    ensures Can(Run(d, ops[..i]), ops[i]) && Run(d, ops[..i + 1]) == Apply(Run(d, ops[..i]), ops[i])
  {
    hide Fenced, IsWritten, IsComplete, AllInstalling, AllCleared, AllSwept, IsConfNode, Run, Can, Apply;
    CanAt(d, ops, i);
    NextDisk(d, ops, i);
  }

  /** The removals and renames of copies, in the run. */
  lemma FenceAt(req: Request, d: Disk, ops: seq<Op>, installed: nat, cleared: nat, i: nat)
    requires IsRun(req, d, ops, installed, cleared) && i < installed
    ensures ops[i].Remove? ==> IsReplacing(req, ops, i) && i + 3 < installed
    ensures ops[i].Rename? ==> IsAlone(ops, i)
  {
    hide AllCan, IsWritten, IsComplete, AllInstalling, AllCleared, AllSwept, IsConfNode, Run, IsCopy, Staging;
    var a := ops[..installed];
    FencedAt(req, a, i);
    assert ops[0..installed] == a;
    FencedWithin(req, ops, 0, a, i);
  }

  lemma WriterOf(req: Request, d: Disk, ops: seq<Op>, installed: nat, cleared: nat, i: nat) returns (item: Item)
    requires IsRun(req, d, ops, installed, cleared) && i < installed && IsConfWrite(ops[i])
    ensures item in req.items && WritesConfOf(req, d, Run(d, ops[..i]), ops[i], item)
  {
    hide AllCan, Fenced, IsComplete, AllInstalling, AllCleared, AllSwept, IsConfNode, WritesConfOf, Run, IsConfWrite;
    var a := ops[..installed];
    assert a[i] == ops[i] && a[..i] == ops[..i];
    item :| item in req.items && WritesConfOf(req, d, Run(d, a[..i]), a[i], item);
  }

  lemma WriteOf(req: Request, d: Disk, ops: seq<Op>, installed: nat, cleared: nat, k: Path) returns (i: nat)
    requires IsRun(req, d, ops, installed, cleared) && k in ConfKeys(req)
    ensures i < installed && WritesAt(ops[i], k)
  {
    hide AllCan, Fenced, IsWritten, AllInstalling, AllCleared, AllSwept, IsConfNode, Run, IsConfWrite, ConfKeys;
    var a := ops[..installed];
    i :| 0 <= i < |a| && WritesAt(a[i], k);
  }
}
