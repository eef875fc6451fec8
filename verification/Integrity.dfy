/** When every managed configuration names files that are there, at every step of a synchronisation. */
module Integrity {
  import opened Text
  import opened Fat
  import opened AtomicCopy
  import opened Conf
  import opened SyncPlan
  import opened Wanted
  import opened Convergence
  import opened Effects
  import opened Frame
  import opened Scaffold
  import opened Turns
  import opened Exactness
  import opened Cuts
  import opened ConfRefs
  import opened RunShape

  // ---------------------------------------------------------------- linked states

  /** `r` is about to be renamed into place, and its complete content waits in the staging file. */
  ghost predicate Renames(req: Request, x: Disk, op: Op, r: Path) {
    && op.Rename? && Key(op.to) == r
    && exists item, asset | item in req.items && asset in item.entry.Assets() ::
         r == Key(WantedDest(req, item, asset)) && Holds(x, Key(op.path), ContentFor(req, item, asset))
  }

  ghost predicate Waiting(req: Request, x: Disk, rest: seq<Op>, r: Path) {
    || (|rest| > 0 && Renames(req, x, rest[0], r))
    || (|rest| > 1 && rest[0] == Barrier && Renames(req, x, rest[1], r))
  }

  /** Every managed configuration names only files that are there, or are just being replaced. */
  ghost predicate Linked(req: Request, x: Disk, rest: seq<Op>) {
    forall k, r | IsConfNode(req, x, k) && r in References(x[k].content) :: IsFile(x, r) || Waiting(req, x, rest, r)
  }

  /** What a run itself takes away for good: a staging file it renames, a stale configuration it removes. */
  predicate TakesAway(op: Op, r: Path) {
    (op.Rename? || (op.Remove? && InEntries(r))) && Key(op.path) == r
  }

  predicate Alters(op: Op, k: Path) {
    (op.Write? || op.Remove?) && Key(op.path) == k
  }

  /** The node is neither written nor removed by the first `n` operations. */
  predicate Untouched(ops: seq<Op>, n: nat, k: Path)
    requires n <= |ops|
  {
    forall j | 0 <= j < n :: !Alters(ops[j], k)
  }

  /** Whatever the run takes away, the configurations that named it have been rewritten or removed by then. */
  ghost predicate Free(req: Request, d: Disk, ops: seq<Op>) {
    forall k, r, m | IsConfNode(req, d, k) && r in References(d[k].content) && 0 <= m < |ops| && TakesAway(ops[m], r) ::
      !Untouched(ops, m + 1, k)
  }

  // ---------------------------------------------------------------- assets stay

  /** The asset has just been removed to make room for its new content. */
  predicate IsAway(ops: seq<Op>, installed: nat, n: nat, r: Path)
    requires n <= |ops|
  {
    || (0 < n <= installed && ops[n - 1].Remove? && Key(ops[n - 1].path) == r)
    || (1 < n <= installed + 1 && ops[n - 2].Remove? && Key(ops[n - 2].path) == r)
  }

  /** No staging file is an asset. */
  lemma StagingNoAsset(req: Request, dest: Path, r: Path)
    requires Modern(req) && |dest| == 4 && r in AssetKeys(req)
    ensures Key(Staging(dest)) != r
  {
    hide Modern, WantedDest, Staging, IsWanted;
    var item, asset :| item in req.items && asset in item.entry.Assets() && r == Key(WantedDest(req, item, asset));
    WantedDestIsWanted(req, item, asset);
    StagingNotWanted(req, dest, WantedDest(req, item, asset));
  }

  /** What installing renames is a staging file. */
  lemma RenamedTo(req: Request, op: Op) returns (dest: Path)
    requires Installing(req, op) && op.Rename?
    ensures |dest| == 4 && op == Rename(Staging(dest), dest) && Key(dest) in AssetKeys(req)
  {
    hide WantedDest, Staging, Wish;
    var item, asset, dest': Path :| item in req.items && asset in item.entry.Assets() && |dest'| == 4
      && IsDestOf(req, item, asset, dest') && CopyShape(op, dest');
    dest := dest';
  }

  lemma AssetStep(req: Request, x: Disk, op: Op, r: Path)
    requires Modern(req) && r in AssetKeys(req) && IsFile(x, r)
    requires Clears(req, op) || (Installing(req, op) && !(op.Remove? && Key(op.path) == r))
    ensures IsFile(Apply(x, op), r)
  {
    hide Modern, WantedDest, WantedConf, Staging, IsDestOf;
    if Clears(req, op) {
      assert !Touches(op, r);
    } else {
      if op.Rename? {
        var dest := RenamedTo(req, op);
        StagingNoAsset(req, dest, r);
      }
      InstallNoTree(req, op);
    }
  }

  lemma InstallNoTree(req: Request, op: Op)
    requires Installing(req, op)
    ensures !op.RemoveTree?
  {
    hide IsDestOf;
  }

  /** An asset that is there stays, or is just being replaced. */
  lemma {:induction false} AssetStays(req: Request, d: Disk, ops: seq<Op>, installed: nat, cleared: nat, i: nat, n: nat,
                                      r: Path)
    requires Modern(req) && IsRun(req, d, ops, installed, cleared) && r in AssetKeys(req)
    requires i <= n <= |ops| && IsFile(Run(d, ops[..i]), r)
    ensures IsFile(Run(d, ops[..n]), r) || IsAway(ops, installed, n, r)
    decreases n
  {
    hide Modern, IsRun, AssetKeys, Run, Apply, Can, IsReplacing, IsFile, Clears, Installing;
    if i < n {
      AssetStays(req, d, ops, installed, cleared, i, n - 1, r);
      OpKind(req, d, ops, installed, cleared, n - 1);
      StepAt(req, d, ops, installed, cleared, n - 1);
      var x, op := Run(d, ops[..n - 1]), ops[n - 1];
      if IsFile(x, r) {
        if n - 1 >= installed || !(op.Remove? && Key(op.path) == r) {
          AssetStep(req, x, op, r);
        }
      } else if n > 2 && n - 1 <= installed + 1 && ops[n - 3].Remove? && Key(ops[n - 3].path) == r {
        FenceAt(req, d, ops, installed, cleared, n - 3);
        RenameBack(req, x, ops, n - 3);
      }
    }
  }

  lemma RenameBack(req: Request, x: Disk, ops: seq<Op>, i: nat)
    requires IsReplacing(req, ops, i) && Can(x, ops[i + 2])
    ensures IsFile(Apply(x, ops[i + 2]), Key(ops[i].path))
  {
    hide IsCopy, Staging;
  }

  /** While an asset is away, its content waits in the staging file. */
  lemma StagedBefore(req: Request, d: Disk, ops: seq<Op>, installed: nat, cleared: nat, i: nat)
    requires IsRun(req, d, ops, installed, cleared) && i < installed && ops[i].Remove? && IsReplacing(req, ops, i)
    ensures Holds(Run(d, ops[..i + 1]), Key(Staging(ops[i].path)), ops[i - 2].content)
    ensures Run(d, ops[..i + 2]) == Run(d, ops[..i + 1])
  {
    hide IsRun, Run, IsCopy, Staging;
    StepAt(req, d, ops, installed, cleared, i - 2);
    StepAt(req, d, ops, installed, cleared, i - 1);
    StepAt(req, d, ops, installed, cleared, i);
    StepAt(req, d, ops, installed, cleared, i + 1);
    StagingDiffers(ops[i].path);
  }

  lemma AwayWaits(req: Request, d: Disk, ops: seq<Op>, installed: nat, cleared: nat, n: nat, r: Path)
    requires IsRun(req, d, ops, installed, cleared) && n <= |ops| && IsAway(ops, installed, n, r)
    ensures Waiting(req, Run(d, ops[..n]), ops[n..], r)
  {
    hide IsRun, Run, Staging, IsDestOf, Renames, IsReplacing;
    var i := if 0 < n <= installed && ops[n - 1].Remove? && Key(ops[n - 1].path) == r then n - 1 else n - 2;
    RunBounds(req, d, ops, installed, cleared);
    FenceAt(req, d, ops, installed, cleared, i);
    StagedBefore(req, d, ops, installed, cleared, i);
    RenameNext(req, Run(d, ops[..n]), ops, i);
    RestAt(ops, n);
  }

  lemma RenameNext(req: Request, x: Disk, ops: seq<Op>, i: nat)
    requires IsReplacing(req, ops, i) && Holds(x, Key(Staging(ops[i].path)), ops[i - 2].content)
    ensures Renames(req, x, ops[i + 2], Key(ops[i].path)) && ops[i + 1] == Barrier
  {
    hide WantedDest, Staging;
  }

  lemma RestAt<T>(ops: seq<T>, n: nat)
    requires n < |ops|
    ensures |ops[n..]| == |ops| - n && ops[n..][0] == ops[n]
    ensures n + 1 < |ops| ==> ops[n..][1] == ops[n + 1]
  {
  }

  lemma AssetLinked(req: Request, d: Disk, ops: seq<Op>, installed: nat, cleared: nat, i: nat, n: nat, r: Path)
    requires Modern(req) && IsRun(req, d, ops, installed, cleared) && r in AssetKeys(req)
    requires i <= n <= |ops| && IsFile(Run(d, ops[..i]), r)
    ensures IsFile(Run(d, ops[..n]), r) || Waiting(req, Run(d, ops[..n]), ops[n..], r)
  {
    hide Modern, IsRun, AssetKeys, Run, IsFile, IsAway, Waiting;
    AssetStays(req, d, ops, installed, cleared, i, n, r);
    if !IsFile(Run(d, ops[..n]), r) {
      AwayWaits(req, d, ops, installed, cleared, n, r);
    }
  }

  // ---------------------------------------------------------------- where a configuration comes from

  /** The configuration was written by the run, when the assets of its entry were there. */
  ghost predicate IsNew(ops: seq<Op>, installed: nat, n: nat, k: Path, content: Content)
    requires n <= |ops|
  {
    exists i | 0 <= i < n && i < installed :: WritesAt(ops[i], k) && ops[i].content == content
  }

  lemma ConfStep(req: Request, x: Disk, op: Op, k: Path)
    requires (Installing(req, op) || Clears(req, op)) && Can(x, op) && InEntries(k) && IsFile(Apply(x, op), k)
    ensures WritesAt(op, k) ==> Apply(x, op)[k].content == op.content
    ensures !Alters(op, k) ==> NodeAt(Apply(x, op), k) == NodeAt(x, k)
    ensures !op.Remove? || !Alters(op, k)
  {
    hide ConfKeys, AssetKeys, Staging;
    if Installing(req, op) && op.Rename? {
      RenameLong(req, op);
    }
  }

  lemma RenameLong(req: Request, op: Op)
    requires Installing(req, op) && op.Rename?
    ensures |op.to| == 4 && |op.path| == 4
  {
    hide Staging, Installing, AssetKeys;
    var dest := RenamedTo(req, op);
    StagingDiffers(dest);
  }

  lemma {:induction false} ConfOrigin(req: Request, d: Disk, ops: seq<Op>, installed: nat, cleared: nat, n: nat,
                                      k: Path)
    requires IsRun(req, d, ops, installed, cleared) && n <= |ops| && InEntries(k) && IsFile(Run(d, ops[..n]), k)
    ensures (Untouched(ops, n, k) && NodeAt(Run(d, ops[..n]), k) == NodeAt(d, k))
            || IsNew(ops, installed, n, k, Run(d, ops[..n])[k].content)
  {
    hide IsRun, Run, Apply, Can, Installing, Clears, InEntries, Alters, WritesAt;
    if n == 0 {
      assert ops[..0] == [];
      RunNone(d);
    } else {
      OpKind(req, d, ops, installed, cleared, n - 1);
      StepAt(req, d, ops, installed, cleared, n - 1);
      var x, op := Run(d, ops[..n - 1]), ops[n - 1];
      ConfStep(req, x, op, k);
      if Alters(op, k) {
        WriteInstalls(req, op, k);
      } else {
        ConfOrigin(req, d, ops, installed, cleared, n - 1, k);
      }
    }
  }

  lemma WriteInstalls(req: Request, op: Op, k: Path)
    requires Alters(op, k) && !op.Remove? && InEntries(k)
    ensures WritesAt(op, k) && !Clears(req, op)
  {
    hide InEntries;
  }

  /** What a configuration written by the run names are assets that were there. */
  lemma NewNames(req: Request, d: Disk, ops: seq<Op>, installed: nat, cleared: nat, i: nat, r: Path)
    requires Tree(Prepared(req, d)) && Modern(req) && Printable(req) && IsRun(req, d, ops, installed, cleared)
    requires i < installed && IsConfWrite(ops[i]) && r in References(ops[i].content)
    ensures r in AssetKeys(req) && IsFile(Run(d, ops[..i]), r)
  {
    hide Tree, Prepared, Modern, Printable, IsRun, Run, References, JobOf, WantedDest, WantedConf, IsConfWrite;
    var item := WriterOf(req, d, ops, installed, cleared, i);
    JobReferences(req, Prepared(req, d), item);
  }

  /** What is old is old until now: after the stale configurations are gone only new ones are left. */
  lemma OldEarly(req: Request, d: Disk, ops: seq<Op>, installed: nat, cleared: nat, n: nat, k: Path)
    requires IsRun(req, d, ops, installed, cleared) && n <= |ops| && IsConfNode(req, Run(d, ops[..n]), k)
    requires Untouched(ops, n, k)
    ensures n <= cleared
  {
    hide AllCan, Fenced, IsWritten, IsComplete, AllInstalling, AllCleared, AllSwept, Run, HasCleanedPrefix, InEntries,
         ConfKeys, Alters, WritesAt;
    if n > cleared {
      SweptConf(req, d, ops, installed, cleared, n, k);
      var i := WriteOf(req, d, ops, installed, cleared, k);
      WriteAlters(ops[i], k);
    }
  }

  lemma WriteAlters(op: Op, k: Path)
    requires WritesAt(op, k)
    ensures Alters(op, k)
  {
    hide InEntries;
  }

  lemma {:induction false} SweptConf(req: Request, d: Disk, ops: seq<Op>, installed: nat, cleared: nat, n: nat, k: Path)
    requires IsRun(req, d, ops, installed, cleared) && cleared <= n <= |ops| && IsConfNode(req, Run(d, ops[..n]), k)
    ensures IsConfNode(req, Run(d, ops[..cleared]), k)
  {
    hide IsRun, Run, HasCleanedPrefix, InEntries, ConfKeys, Clears, Apply, Can;
    if n > cleared {
      OpKind(req, d, ops, installed, cleared, n - 1);
      StepAt(req, d, ops, installed, cleared, n - 1);
      RunBounds(req, d, ops, installed, cleared);
      ClearsShrink(req, Run(d, ops[..n - 1]), ops[n - 1], k);
      SweptConf(req, d, ops, installed, cleared, n - 1, k);
    }
  }

  lemma RunBounds(req: Request, d: Disk, ops: seq<Op>, installed: nat, cleared: nat)
    requires IsRun(req, d, ops, installed, cleared)
    ensures installed <= cleared <= |ops| && AllCan(d, ops)
  {
    hide AllCan, Fenced, IsWritten, IsComplete, AllInstalling, AllCleared, AllSwept, Run, IsConfNode;
  }

  lemma ClearsShrink(req: Request, x: Disk, op: Op, k: Path)
    requires Clears(req, op) && k in Apply(x, op)
    ensures k in x && x[k] == Apply(x, op)[k]
  {
  }

  /** The configuration is one the run found, and so is the file it names. */
  ghost predicate IsOld(req: Request, d: Disk, ops: seq<Op>, n: nat, k: Path, r: Path)
    requires n <= |ops|
  {
    && Untouched(ops, n, k) && IsConfNode(req, d, k) && r in References(d[k].content)
    && IsFile(d, r) && r !in AssetKeys(req)
  }

  /** What a configuration names is an asset, and linked; or it was there, and named, before the run. */
  lemma RefOrigin(req: Request, d: Disk, ops: seq<Op>, installed: nat, cleared: nat, n: nat, k: Path, r: Path)
    requires Tree(Prepared(req, d)) && Modern(req) && Printable(req) && IsRun(req, d, ops, installed, cleared)
    requires Linked(req, d, []) && n <= |ops|
    requires IsConfNode(req, Run(d, ops[..n]), k) && r in References(Run(d, ops[..n])[k].content)
    ensures (IsFile(Run(d, ops[..n]), r) || Waiting(req, Run(d, ops[..n]), ops[n..], r))
            || (IsOld(req, d, ops, n, k, r) && n <= cleared)
    ensures r !in AssetKeys(req) ==> IsOld(req, d, ops, n, k, r) && n <= cleared
  {
    hide Tree, Prepared, Modern, Printable, IsRun, Run, References, HasCleanedPrefix, InEntries, ConfKeys, AssetKeys,
         Alters, WritesAt, Waiting, Linked, Untouched;
    ConfOrigin(req, d, ops, installed, cleared, n, k);
    if Untouched(ops, n, k) && NodeAt(Run(d, ops[..n]), k) == NodeAt(d, k) {
      assert IsConfNode(req, d, k);
      LinkedAt(req, d, k, r);
      if r in AssetKeys(req) {
        assert ops[..0] == [];
        RunNone(d);
        AssetLinked(req, d, ops, installed, cleared, 0, n, r);
      } else {
        OldEarly(req, d, ops, installed, cleared, n, k);
      }
    } else {
      var i := NewAt(ops, installed, n, k, Run(d, ops[..n])[k].content);
      NewNames(req, d, ops, installed, cleared, i, r);
      AssetLinked(req, d, ops, installed, cleared, i, n, r);
    }
  }

  lemma NewAt(ops: seq<Op>, installed: nat, n: nat, k: Path, content: Content) returns (i: nat)
    requires n <= |ops| && IsNew(ops, installed, n, k, content)
    ensures i < n && i < installed && IsConfWrite(ops[i]) && ops[i].content == content
  {
    hide InEntries;
    i :| 0 <= i < n && i < installed && WritesAt(ops[i], k) && ops[i].content == content;
  }

  lemma LinkedAt(req: Request, d: Disk, k: Path, r: Path)
    requires Linked(req, d, []) && IsConfNode(req, d, k) && r in References(d[k].content)
    ensures IsFile(d, r)
  {
    hide IsConfNode, References, Renames;
    assert !Waiting(req, d, [], r);
  }

  lemma FileStep(req: Request, x: Disk, op: Op, r: Path)
    requires IsFile(x, r) && r !in AssetKeys(req) && !TakesAway(op, r)
    requires Installing(req, op) || (op.Remove? && InEntries(Key(op.path)))
    ensures IsFile(Apply(x, op), r)
  {
    hide Staging, Installing, AssetKeys;
    if Installing(req, op) {
      InstallNoTree(req, op);
      if op.Remove? {
        RemovesAsset(req, op);
      } else if op.Rename? {
        var dest := RenamedTo(req, op);
      }
    }
  }

  /** What installing removes are assets, to be replaced. */
  lemma RemovesAsset(req: Request, op: Op)
    requires Installing(req, op) && op.Remove?
    ensures |op.path| == 4 && Key(op.path) in AssetKeys(req)
  {
    hide WantedDest, Staging, Wish;
  }

  /** What is no asset stays until the run takes it away. */
  lemma {:induction false} FileStays(req: Request, d: Disk, ops: seq<Op>, installed: nat, cleared: nat, n: nat, r: Path)
    requires IsRun(req, d, ops, installed, cleared) && n <= cleared && r !in AssetKeys(req) && IsFile(d, r)
    requires forall m | 0 <= m < n :: !TakesAway(ops[m], r)
    ensures n <= |ops| && IsFile(Run(d, ops[..n]), r)
  {
    hide IsRun, AssetKeys, Run, Apply, Can, Installing, Clears, InEntries, TakesAway;
    RunBounds(req, d, ops, installed, cleared);
    if n == 0 {
      assert ops[..0] == [];
      RunNone(d);
    } else {
      FileStays(req, d, ops, installed, cleared, n - 1, r);
      OpKind(req, d, ops, installed, cleared, n - 1);
      StepAt(req, d, ops, installed, cleared, n - 1);
      FileStep(req, Run(d, ops[..n - 1]), ops[n - 1], r);
    }
  }

  /** A free run stays linked. */
  lemma FreeLinked(req: Request, d: Disk, ops: seq<Op>, installed: nat, cleared: nat, n: nat)
    requires Tree(Prepared(req, d)) && Modern(req) && Printable(req) && IsRun(req, d, ops, installed, cleared)
    requires Linked(req, d, []) && Free(req, d, ops) && n <= |ops|
    ensures Linked(req, Run(d, ops[..n]), ops[n..])
  {
    hide Tree, Prepared, Modern, Printable, IsRun, Run, References, IsConfNode, InEntries, AssetKeys,
         Alters, WritesAt, Waiting, TakesAway, IsFile;
    var x := Run(d, ops[..n]);
    forall k, r | IsConfNode(req, x, k) && r in RefsAt(x, k)
      ensures IsFile(x, r) || Waiting(req, x, ops[n..], r)
    {
      RefsOfConf(req, x, k);
      RefOrigin(req, d, ops, installed, cleared, n, k, r);
      if !IsFile(x, r) && !Waiting(req, x, ops[n..], r) {
        UntakenSoFar(req, d, ops, n, k, r);
        FileStays(req, d, ops, installed, cleared, n, r);
      }
    }
    LinkedIf(req, x, ops[n..]);
  }

  ghost function RefsAt(x: Disk, k: Path): set<Path> {
    if IsFile(x, k) then References(x[k].content) else {}
  }

  lemma RefsOfConf(req: Request, x: Disk, k: Path)
    requires IsConfNode(req, x, k)
    ensures IsFile(x, k) && RefsAt(x, k) == References(x[k].content)
  {
    hide HasCleanedPrefix, InEntries, References, ConfKeys;
  }

  lemma LinkedIf(req: Request, x: Disk, rest: seq<Op>)
    requires forall k, r | IsConfNode(req, x, k) && r in RefsAt(x, k) :: IsFile(x, r) || Waiting(req, x, rest, r)
    ensures Linked(req, x, rest)
  {
    hide HasCleanedPrefix, InEntries, References, ConfKeys, Waiting;
  }

  lemma UntakenSoFar(req: Request, d: Disk, ops: seq<Op>, n: nat, k: Path, r: Path)
    requires n <= |ops| && IsOld(req, d, ops, n, k, r) && Free(req, d, ops)
    ensures forall m | 0 <= m < n :: !TakesAway(ops[m], r)
  {
    hide IsConfNode, References, TakesAway, Alters;
    forall m | 0 <= m < n
      ensures !TakesAway(ops[m], r)
    {
      assert Untouched(ops, m + 1, k);
    }
  }

  // ---------------------------------------------------------------- what a run takes away

  lemma ConfKept(req: Request, x: Disk, op: Op, k: Path)
    requires IsFile(x, k) && InEntries(k) && !Alters(op, k)
    requires Installing(req, op) || (op.Remove? && InEntries(Key(op.path)))
    ensures NodeAt(Apply(x, op), k) == NodeAt(x, k)
  {
    hide Installing;
    if Installing(req, op) && op.Rename? {
      RenameLong(req, op);
    } else if Installing(req, op) {
      InstallNoTree(req, op);
    }
  }

  /** A configuration stays until it is rewritten or removed. */
  lemma {:induction false} ConfStays(req: Request, d: Disk, ops: seq<Op>, installed: nat, cleared: nat, n: nat, k: Path)
    requires IsRun(req, d, ops, installed, cleared) && n <= cleared && IsFile(d, k) && InEntries(k)
    requires n <= |ops| && Untouched(ops, n, k)
    ensures NodeAt(Run(d, ops[..n]), k) == NodeAt(d, k)
  {
    hide IsRun, Run, Apply, Can, Installing, Clears, InEntries, Alters;
    if n == 0 {
      assert ops[..0] == [];
      RunNone(d);
    } else {
      ConfStays(req, d, ops, installed, cleared, n - 1, k);
      OpKind(req, d, ops, installed, cleared, n - 1);
      StepAt(req, d, ops, installed, cleared, n - 1);
      ConfKept(req, Run(d, ops[..n - 1]), ops[n - 1], k);
    }
  }

  /** What is taken away is no asset, and it is taken before the last configurations go. */
  lemma TakenIsNoAsset(req: Request, d: Disk, ops: seq<Op>, installed: nat, cleared: nat, m: nat, r: Path)
    requires Modern(req) && IsRun(req, d, ops, installed, cleared) && m < |ops| && TakesAway(ops[m], r)
    ensures m < cleared && r !in AssetKeys(req)
    ensures r !in Run(d, ops[..m + 1])
  {
    hide Modern, IsRun, Run, ConfKeys, AssetKeys, Installing, InEntries, Clears;
    OpKind(req, d, ops, installed, cleared, m);
    StepAt(req, d, ops, installed, cleared, m);
    RunBounds(req, d, ops, installed, cleared);
    assert Touches(ops[m], r);
    if ops[m].Rename? {
      ClearsNoRename(req, ops[m]);
      RenamedNoAsset(req, ops[m], r);
    } else {
      EntriesNoAsset(req, r);
    }
  }

  lemma ClearsNoRename(req: Request, op: Op)
    requires op.Rename?
    ensures !Clears(req, op)
  {
  }

  lemma RenamedNoAsset(req: Request, op: Op, r: Path)
    requires Modern(req) && Installing(req, op) && op.Rename? && Key(op.path) == r
    ensures r !in AssetKeys(req)
  {
    hide Modern, AssetKeys, Installing, Staging;
    var dest := RenamedTo(req, op);
    if r in AssetKeys(req) {
      StagingNoAsset(req, dest, r);
    }
  }

  lemma WaitsForAsset(req: Request, x: Disk, rest: seq<Op>, r: Path)
    requires Waiting(req, x, rest, r)
    ensures r in AssetKeys(req)
  {
    hide WantedDest, Holds;
  }

  /** A configuration that names what the run takes away, and is still there as it was, dangles. */
  lemma TakenDangles(req: Request, d: Disk, ops: seq<Op>, installed: nat, cleared: nat, k: Path, r: Path, m: nat)
    requires Modern(req) && IsRun(req, d, ops, installed, cleared) && m < |ops| && TakesAway(ops[m], r)
    requires IsConfNode(req, d, k) && r in References(d[k].content) && Untouched(ops, m + 1, k)
    ensures !Linked(req, Run(d, ops[..m + 1]), ops[m + 1..])
  {
    hide Modern, IsRun, Run, References, HasCleanedPrefix, InEntries, ConfKeys, AssetKeys, Alters, TakesAway, Waiting;
    var x, rest := Run(d, ops[..m + 1]), ops[m + 1..];
    TakenIsNoAsset(req, d, ops, installed, cleared, m, r);
    ConfStays(req, d, ops, installed, cleared, m + 1, k);
    if Waiting(req, x, rest, r) {
      WaitsForAsset(req, x, rest, r);
    }
    assert IsConfNode(req, x, k) && r in References(x[k].content);
  }

  /**
   Referential integrity, exactly.  Suppose every managed configuration names only files that are there before
   a run.  The same holds after every operation of the run - the one destination a copy is just replacing may be
   away, with its complete new content waiting to be renamed into place - if and only if the run takes away
   nothing that a configuration still names: no staging file that it renames, no stale configuration that it
   removes, unless what named it has been rewritten or removed by then.
   */
  lemma NoDanglingConf(req: Request, d: Disk, run: SyncRun)
    requires Keeps(req, d) && Printable(req) && CompleteRun(req, d, run) && Fits(req, run) && Linked(req, d, [])
    ensures AlwaysLinked(req, d, SyncOps(req, d, run)) <==> Free(req, d, SyncOps(req, d, run))
  {
    hide Keeps, Prepared, Printable, CompleteRun, Installs, SyncOps, IsRun, Linked, AlwaysLinked, Free;
    PreparedTreeOf(req, d, run);
    RunIsRun(req, d, run);
    LinkedExactly(req, d, SyncOps(req, d, run), Installed(req, d, run), Installed(req, d, run) + |run.confs|);
  }

  lemma PreparedTreeOf(req: Request, d: Disk, run: SyncRun)
    requires Keeps(req, d) && CompleteRun(req, d, run)
    ensures Modern(req) && Tree(Prepared(req, d))
  {
    hide Tree, Modern, Genuine, Agrees, AllKept, CompleteRun, Prepared, SameScaffold, Installs;
    PreparedIsTree(req, d, run);
  }

  lemma NotFree(req: Request, d: Disk, ops: seq<Op>) returns (k: Path, r: Path, m: nat)
    requires !Free(req, d, ops)
    ensures IsConfNode(req, d, k) && r in References(d[k].content)
    ensures m < |ops| && TakesAway(ops[m], r) && Untouched(ops, m + 1, k)
  {
    hide HasCleanedPrefix, InEntries, ConfKeys, References, TakesAway, Untouched;
    k, r, m :| IsConfNode(req, d, k) && r in References(d[k].content) && 0 <= m < |ops| && TakesAway(ops[m], r)
      && Untouched(ops, m + 1, k);
  }

  ghost predicate AlwaysLinked(req: Request, d: Disk, ops: seq<Op>) {
    forall n | 0 <= n <= |ops| :: Linked(req, Run(d, ops[..n]), ops[n..])
  }

  lemma LinkedExactly(req: Request, d: Disk, ops: seq<Op>, installed: nat, cleared: nat)
    requires Tree(Prepared(req, d)) && Modern(req) && Printable(req) && IsRun(req, d, ops, installed, cleared)
    requires Linked(req, d, [])
    ensures AlwaysLinked(req, d, ops) <==> Free(req, d, ops)
  {
    hide Tree, Modern, Prepared, Printable, IsRun, Linked, Run, References, IsConfNode, TakesAway, Untouched;
    if Free(req, d, ops) {
      forall n | 0 <= n <= |ops|
        ensures Linked(req, Run(d, ops[..n]), ops[n..])
      {
        FreeLinked(req, d, ops, installed, cleared, n);
      }
    } else {
      var k, r, m := NotFree(req, d, ops);
      TakenDangles(req, d, ops, installed, cleared, k, r, m);
    }
  }
}
