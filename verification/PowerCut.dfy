/** Exactly when a power cut leaves a configuration that names a missing file. */
module PowerCut {
  import opened Text
  import opened Fat
  import opened AtomicCopy
  import opened Assets
  import opened Conf
  import opened SyncPlan
  import opened Wanted
  import opened Convergence
  import opened Effects
  import opened Frame
  import opened Scaffold
  import opened Turns
  import opened Exactness
  import opened Cuts
  import opened ConfRefs
  import opened RunShape
  import opened Integrity

  // ---------------------------------------------------------------- intact states

  /** The file is away, but its complete new content waits in the staging file beside it. */
  ghost predicate StagedFor(req: Request, c: Disk, r: Path) {
    exists item, asset | item in req.items && asset in item.entry.Assets() ::
      r == Key(WantedDest(req, item, asset)) && Holds(c, StagingKey(req, item, asset), ContentFor(req, item, asset))
  }

  /** Every managed configuration names only files that are there, or complete in their staging files. */
  ghost predicate Intact(req: Request, c: Disk) {
    forall k, r | IsConfNode(req, c, k) && r in References(c[k].content) :: IsFile(c, r) || StagedFor(req, c, r)
  }

  /** The operation takes the file away. */
  predicate Endangers(op: Op, r: Path) {
    match op
    case Remove(p) => Key(p) == r
    case RemoveTree(p, _) => Key(p) < r
    case Rename(p, _) => Key(p) == r
    case _ => false
  }

  /** Something pending takes a file that a configuration on the durable disk names, but not the configuration. */
  ghost predicate Hazard(req: Request, b: Disk, pending: seq<Op>) {
    exists k, r, op | IsConfNode(req, b, k) && r in References(b[k].content) && op in pending ::
      IsHazard(req, b, k, r, op)
  }

  ghost predicate IsHazard(req: Request, b: Disk, k: Path, r: Path, op: Op) {
    Endangers(op, r) && !Endangers(op, k) && !StagedFor(req, b, r)
  }

  // ---------------------------------------------------------------- exact states

  lemma StagedIsAsset(req: Request, c: Disk, r: Path)
    requires StagedFor(req, c, r)
    ensures r in AssetKeys(req)
  {
    hide WantedDest, Holds, StagingKey;
  }

  /** What waits to be renamed is staged. */
  lemma RenameStages(req: Request, x: Disk, op: Op, r: Path)
    requires Modern(req) && AgreeAssets(req) && Installing(req, op) && Renames(req, x, op, r)
    ensures StagedFor(req, x, r)
  {
    hide Modern, AgreeAssets, WantedDest, Staging, Holds, Wish, ContentFor;
    var item, asset :| item in req.items && asset in item.entry.Assets() && r == Key(WantedDest(req, item, asset))
      && Holds(x, Key(op.path), ContentFor(req, item, asset));
    var other, b, dest: Path :| other in req.items && b in other.entry.Assets() && |dest| == 4
      && IsDestOf(req, other, b, dest) && CopyShape(op, dest);
    SameStaging(dest, WantedDest(req, item, asset));
  }

  lemma WaitingStages(req: Request, d: Disk, ops: seq<Op>, installed: nat, cleared: nat, n: nat, r: Path)
    requires Modern(req) && AgreeAssets(req) && IsRun(req, d, ops, installed, cleared) && n <= |ops|
    requires Waiting(req, Run(d, ops[..n]), ops[n..], r)
    ensures StagedFor(req, Run(d, ops[..n]), r)
  {
    hide Modern, AgreeAssets, IsRun, Run, Renames, StagedFor, Installing, Clears;
    var x := Run(d, ops[..n]);
    RestAt(ops, n);
    OpKind(req, d, ops, installed, cleared, n);
    RenamesIs(req, x, ops[n], r);
    if Renames(req, x, ops[n], r) {
      ClearsNoRename(req, ops[n]);
      RenameStages(req, x, ops[n], r);
    } else {
      OpKind(req, d, ops, installed, cleared, n + 1);
      RenamesIs(req, x, ops[n + 1], r);
      ClearsNoRename(req, ops[n + 1]);
      RenameStages(req, x, ops[n + 1], r);
    }
  }

  lemma RenamesIs(req: Request, x: Disk, op: Op, r: Path)
    ensures Renames(req, x, op, r) ==> op.Rename?
  {
    hide WantedDest, Holds;
  }

  /** A file named that is neither there nor staged was there before the run, and the run took it away. */
  lemma RefAway(req: Request, d: Disk, ops: seq<Op>, installed: nat, cleared: nat, n: nat, k: Path, r: Path)
    requires IsSetting(req, d) && IsRun(req, d, ops, installed, cleared) && n <= |ops|
    requires IsConfNode(req, Run(d, ops[..n]), k) && r in References(Run(d, ops[..n])[k].content)
    ensures IsFile(Run(d, ops[..n]), r) || StagedFor(req, Run(d, ops[..n]), r) || IsOld(req, d, ops, n, k, r)
    ensures r !in AssetKeys(req) ==> IsOld(req, d, ops, n, k, r) && n <= cleared
    ensures !IsFile(Run(d, ops[..n]), r) && StagedFor(req, Run(d, ops[..n]), r)
            ==> Waiting(req, Run(d, ops[..n]), ops[n..], r)
  {
    hide Tree, Prepared, Modern, AgreeAssets, Printable, Linked, IsRun, Run, References, IsConfNode, StagedFor, Waiting,
         AssetKeys, IsFile, Untouched;
    RefOrigin(req, d, ops, installed, cleared, n, k, r);
    var x := Run(d, ops[..n]);
    if !IsFile(x, r) && Waiting(req, x, ops[n..], r) {
      WaitingStages(req, d, ops, installed, cleared, n, r);
    }
    if StagedFor(req, x, r) {
      StagedIsAsset(req, x, r);
    }
  }

  /** What is assumed of the request and of the volume a run starts from. */
  ghost predicate IsSetting(req: Request, d: Disk) {
    && Tree(d) && Tree(Prepared(req, d)) && Modern(req) && AgreeAssets(req) && Printable(req) && Linked(req, d, [])
  }

  // ---------------------------------------------------------------- a removal or a rename on its own

  lemma CrashOfOne(b: Disk, op: Op, c: Disk)
    requires AtomicCrash(b, [op], c) && (op.Remove? || op.Rename?)
    ensures c == b || c == Apply(b, op)
  {
    assert [op][1..] == [];
    hide Apply;
  }

  /** While a copy removes or renames, nothing else is pending. */
  lemma FencedAlone(req: Request, d: Disk, ops: seq<Op>, installed: nat, cleared: nat, m: nat, n: nat, i: nat)
    requires IsRun(req, d, ops, installed, cleared) && m <= i < n <= |ops| && i < installed
    requires (ops[i].Remove? || ops[i].Rename?) && Barrier !in ops[m..n]
    ensures i == m && n == m + 1
  {
    hide IsRun, IsCopy, Staging;
    forall j | m <= j < n
      ensures ops[j] != Barrier
    {
      assert ops[m..n][j - m] == ops[j];
    }
    FenceAt(req, d, ops, installed, cleared, i);
    assert ops[i - 1] == Barrier && ops[i + 1] == Barrier;
  }

  /** A copy's removal or rename, on its own, leaves an intact state intact if it takes nothing that is named. */
  lemma AloneIntact(req: Request, d: Disk, ops: seq<Op>, installed: nat, cleared: nat, m: nat)
    requires IsSetting(req, d) && IsRun(req, d, ops, installed, cleared) && m < installed && m < |ops|
    requires (ops[m].Remove? || ops[m].Rename?) && Intact(req, Run(d, ops[..m]))
    requires !Hazard(req, Run(d, ops[..m]), [ops[m]])
    ensures Intact(req, Run(d, ops[..m + 1]))
  {
    hide Tree, Prepared, Modern, AgreeAssets, Printable, Linked, IsRun, Run, References, HasCleanedPrefix, ConfKeys,
         StagedFor, AssetKeys, Waiting, Untouched, Installing, Apply, Can;
    var b, op, c := Run(d, ops[..m]), ops[m], Run(d, ops[..m + 1]);
    OpKind(req, d, ops, installed, cleared, m);
    StepAt(req, d, ops, installed, cleared, m);
    forall k, r | IsConfNode(req, c, k) && r in RefsAt(c, k)
      ensures IsFile(c, r) || StagedFor(req, c, r)
    {
      RefsOfConf(req, c, k);
      RefAway(req, d, ops, installed, cleared, m + 1, k, r);
      if r !in AssetKeys(req) {
        NotAlone(req, b, op, k, r);
      }
    }
    IntactIf(req, c);
  }

  lemma IntactAt(req: Request, c: Disk, k: Path, r: Path)
    requires Intact(req, c) && IsConfNode(req, c, k) && r in References(c[k].content)
    ensures IsFile(c, r) || StagedFor(req, c, r)
  {
    hide IsConfNode, References, StagedFor;
  }

  lemma IntactIf(req: Request, c: Disk)
    requires forall k, r | IsConfNode(req, c, k) && r in RefsAt(c, k) :: IsFile(c, r) || StagedFor(req, c, r)
    ensures Intact(req, c)
  {
    hide HasCleanedPrefix, InEntries, ConfKeys, References, StagedFor;
  }

  /** What is named, and no asset, is not taken by a copy without being a hazard. */
  lemma NotAlone(req: Request, b: Disk, op: Op, k: Path, r: Path)
    requires Modern(req) && Installing(req, op) && (op.Remove? || op.Rename?) && Intact(req, b)
    requires !Hazard(req, b, [op]) && r !in AssetKeys(req)
    requires IsConfNode(req, Apply(b, op), k) && r in References(Apply(b, op)[k].content)
    ensures IsFile(Apply(b, op), r)
  {
    hide Modern, References, HasCleanedPrefix, ConfKeys, StagedFor, Hazard, AssetKeys;
    CopyOpNodes(req, b, op, k, r);
    if StagedFor(req, b, r) {
      StagedIsAsset(req, b, r);
    }
    assert IsConfNode(req, b, k) && b[k] == Apply(b, op)[k];
    if Endangers(op, r) {
      HazardIs(req, b, [op], k, r, op);
    }
  }

  lemma HazardIs(req: Request, b: Disk, pending: seq<Op>, k: Path, r: Path, op: Op)
    requires IsConfNode(req, b, k) && r in References(b[k].content) && op in pending && IsHazard(req, b, k, r, op)
    ensures Hazard(req, b, pending)
  {
    hide HasCleanedPrefix, InEntries, ConfKeys, References, IsHazard;
  }

  /** A copy's removals and renames change no configuration, and take nothing but what they endanger. */
  lemma CopyOpNodes(req: Request, b: Disk, op: Op, k: Path, r: Path)
    requires Modern(req) && Installing(req, op) && (op.Remove? || op.Rename?) && |k| == 3
    ensures NodeAt(Apply(b, op), k) == NodeAt(b, k) && !Endangers(op, k)
    ensures IsFile(b, r) && !Endangers(op, r) ==> IsFile(Apply(b, op), r)
  {
    hide Modern, IsDestOf, Staging;
    var item, asset, dest: Path :| item in req.items && asset in item.entry.Assets() && |dest| == 4
      && IsDestOf(req, item, asset, dest) && CopyShape(op, dest);
    StagingDiffers(dest);
  }

  // ---------------------------------------------------------------- directories, writes, and cleaning up

  /** Neither removes nor renames, but for cleaning up. */
  ghost predicate IsCalm(req: Request, op: Op) {
    op.MkDir? || op.Write? || Clears(req, op)
  }

  lemma CalmStep(req: Request, x: Disk, op: Op, r: Path)
    requires IsFile(x, r) && IsCalm(req, op) && !Endangers(op, r)
    ensures IsFile(Apply(x, op), r)
  {
    hide ConfKeys, AssetKeys;
    if op.RemoveTree? && Key(op.path) <= r {
      assert Key(op.path) == r;
    }
  }

  lemma TornCalm(req: Request, op: Op, torn: Op)
    requires IsCalm(req, op) && TornOf(op, torn)
    ensures IsCalm(req, torn)
    ensures forall r | !Endangers(op, r) :: !Endangers(torn, r)
  {
    hide ConfKeys, AssetKeys;
    if op.RemoveTree? {
      forall k | k in ConfKeys(req) || k in AssetKeys(req)
        ensures !Touches(torn, k)
      {
        assert !Touches(op, k);
      }
    }
  }

  /** A file that nothing pending endangers is there after every power cut. */
  lemma {:induction false} CalmKeeps(req: Request, x: Disk, ops: seq<Op>, c: Disk, r: Path)
    requires IsFile(x, r) && AtomicCrash(x, ops, c)
    requires forall op | op in ops :: IsCalm(req, op) && !Endangers(op, r)
    ensures IsFile(c, r)
    decreases |ops|
  {
    hide Apply, TornOf, IsCalm, IsFile, Endangers, IsConfWrite;
    if ops != [] {
      var op := ops[0];
      assert op in ops && forall o | o in ops[1..] :: o in ops;
      if AtomicCrash(Apply(x, op), ops[1..], c) {
        CalmStep(req, x, op, r);
        CalmKeeps(req, Apply(x, op), ops[1..], c, r);
      } else if AtomicCrash(x, ops[1..], c) {
        CalmKeeps(req, x, ops[1..], c, r);
      } else {
        var torn: Op :| TornOf(op, torn) && AtomicCrash(Apply(x, torn), ops[1..], c);
        TornCalm(req, op, torn);
        CalmStep(req, x, torn, r);
        CalmKeeps(req, Apply(x, torn), ops[1..], c, r);
      }
    }
  }

  /** A configuration after a power cut is one that was there, or one that was being written. */
  ghost predicate ConfFrom(x: Disk, ops: seq<Op>, c: Disk, k: Path) {
    || NodeAt(c, k) == NodeAt(x, k)
    || exists op | op in ops :: WritesAt(op, k) && Holds(c, k, op.content)
  }

  lemma CalmConfStep(req: Request, x: Disk, op: Op, k: Path)
    requires IsCalm(req, op) && InEntries(k) && IsFile(Apply(x, op), k)
    ensures NodeAt(Apply(x, op), k) == NodeAt(x, k) || (WritesAt(op, k) && Holds(Apply(x, op), k, op.content))
  {
    hide ConfKeys, AssetKeys;
  }

  lemma {:induction false} CalmConf(req: Request, x: Disk, ops: seq<Op>, c: Disk, k: Path)
    requires InEntries(k) && IsFile(c, k) && AtomicCrash(x, ops, c) && forall op | op in ops :: IsCalm(req, op)
    ensures ConfFrom(x, ops, c, k)
    decreases |ops|
  {
    hide Apply, TornOf, IsCalm, IsConfWrite, InEntries, Holds, NodeAt;
    if ops != [] {
      var op := ops[0];
      assert op in ops && forall o | o in ops[1..] :: o in ops;
      if AtomicCrash(Apply(x, op), ops[1..], c) {
        CalmConf(req, Apply(x, op), ops[1..], c, k);
        ConfStepBack(req, x, op, c, k);
      } else if AtomicCrash(x, ops[1..], c) {
        CalmConf(req, x, ops[1..], c, k);
      } else {
        var torn: Op :| TornOf(op, torn) && AtomicCrash(Apply(x, torn), ops[1..], c);
        TornCalm(req, op, torn);
        CalmConf(req, Apply(x, torn), ops[1..], c, k);
        ConfStepBack(req, x, torn, c, k);
        TornNoConf(op, torn);
      }
    }
  }

  lemma TornNoConf(op: Op, torn: Op)
    requires TornOf(op, torn) && !IsConfWrite(op)
    ensures !IsConfWrite(torn)
  {
  }

  lemma ConfStepBack(req: Request, x: Disk, op: Op, c: Disk, k: Path)
    requires IsCalm(req, op) && InEntries(k) && IsFile(c, k)
    ensures NodeAt(c, k) == NodeAt(Apply(x, op), k) ==>
              NodeAt(c, k) == NodeAt(x, k) || (WritesAt(op, k) && Holds(c, k, op.content))
  {
    hide IsCalm, Apply, WritesAt, InEntries;
    if NodeAt(c, k) == NodeAt(Apply(x, op), k) {
      CalmConfStep(req, x, op, k);
    }
  }

  // ---------------------------------------------------------------- what is pending does no harm

  /** Removals and renames of copies aside, everything pending is calm. */
  lemma AllCalm(req: Request, d: Disk, ops: seq<Op>, installed: nat, cleared: nat, m: nat, n: nat)
    requires IsRun(req, d, ops, installed, cleared) && m <= n <= |ops| && Barrier !in ops[m..n]
    requires forall i | m <= i < n && i < installed :: !ops[i].Remove? && !ops[i].Rename?
    ensures forall op | op in ops[m..n] :: IsCalm(req, op)
  {
    hide IsRun, Clears, Installing;
    forall op | op in ops[m..n]
      ensures IsCalm(req, op)
    {
      var j :| 0 <= j < n - m && ops[m..n][j] == op;
      assert ops[m + j] == op;
      OpKind(req, d, ops, installed, cleared, m + j);
      if m + j < installed {
        InstallNoTree(req, op);
      }
    }
  }

  /** Nothing calm endangers an asset. */
  lemma AssetSafe(req: Request, op: Op, r: Path)
    requires IsCalm(req, op) && r in AssetKeys(req)
    ensures !Endangers(op, r)
  {
    hide ConfKeys, AssetKeys;
    assert Clears(req, op) ==> !Touches(op, r);
  }

  /** Making directories and writing does not bring an asset about. */
  lemma {:induction false} AssetBefore(req: Request, x: Disk, ops: seq<Op>, r: Path)
    requires Modern(req) && r in AssetKeys(req) && IsFile(Run(x, ops), r)
    requires forall op | op in ops :: Installing(req, op) && (op.MkDir? || op.Write?)
    ensures IsFile(x, r)
    decreases |ops|
  {
    hide Modern, Installing, AssetKeys, Apply, IsFile;
    if ops != [] {
      assert ops[0] in ops && forall op | op in ops[1..] :: op in ops;
      AssetBefore(req, Apply(x, ops[0]), ops[1..], r);
      AssetBack(req, x, ops[0], r);
    }
  }

  lemma AssetBack(req: Request, x: Disk, op: Op, r: Path)
    requires Modern(req) && r in AssetKeys(req) && IsFile(Apply(x, op), r)
    requires Installing(req, op) && (op.MkDir? || op.Write?)
    ensures IsFile(x, r)
  {
    hide Modern, Installing, AssetKeys;
    if op.Write? {
      AssetNotWritten(req, op, r);
    }
  }

  /** Installing writes configurations and staging files. */
  lemma AssetNotWritten(req: Request, op: Op, r: Path)
    requires Modern(req) && r in AssetKeys(req) && Installing(req, op) && op.Write?
    ensures Key(op.path) != r
  {
    hide WantedDest, Modern, IsDestOf, Staging;
    if other, b, dest: Path :| other in req.items && b in other.entry.Assets() && |dest| == 4
                               && IsDestOf(req, other, b, dest) && CopyShape(op, dest) {
      StagingNoAsset(req, dest, r);
    } else {
      var item, asset :| item in req.items && asset in item.entry.Assets() && r == Key(WantedDest(req, item, asset));
      AssetKeyShape(req, item, asset);
    }
  }

  /** A file that a configuration on the durable disk names stays, if there is no hazard. */
  lemma DurableRefSafe(req: Request, b: Disk, pending: seq<Op>, k: Path, r: Path, op: Op)
    requires IsConfNode(req, b, k) && r in References(b[k].content) && r != k && op in pending && IsCalm(req, op)
    requires !Hazard(req, b, pending)
    ensures !Endangers(op, r)
  {
    hide HasCleanedPrefix, References, ConfKeys, AssetKeys, StagedFor, Hazard;
    if Endangers(op, r) {
      if StagedFor(req, b, r) {
        StagedIsAsset(req, b, r);
        AssetSafe(req, op, r);
      } else {
        ConfSafe(req, op, k, r);
        HazardIs(req, b, pending, k, r, op);
      }
    }
  }

  /** What takes another file does not take a configuration. */
  lemma ConfSafe(req: Request, op: Op, k: Path, r: Path)
    requires Endangers(op, r) && r != k && InEntries(k) && (op.RemoveTree? ==> Clears(req, op))
    ensures !Endangers(op, k)
  {
    hide ConfKeys, AssetKeys;
    assert |k[..2][0]| == 6;
  }

  /** The files that a configuration being written names are on the durable disk, and stay. */
  lemma WrittenRef(req: Request, d: Disk, ops: seq<Op>, installed: nat, cleared: nat, m: nat, n: nat, op: Op, r: Path)
    requires IsSetting(req, d) && IsRun(req, d, ops, installed, cleared) && m <= n <= |ops| && Barrier !in ops[m..n]
    requires forall i | m <= i < n && i < installed :: !ops[i].Remove? && !ops[i].Rename?
    requires op in ops[m..n] && IsConfWrite(op) && r in References(op.content)
    ensures r in AssetKeys(req) && IsFile(Run(d, ops[..m]), r)
  {
    hide Tree, Prepared, Modern, AgreeAssets, Printable, Linked, IsRun, Run, References, AssetKeys, Clears, Installing,
         IsConfWrite;
    var j :| 0 <= j < n - m && ops[m..n][j] == op;
    assert ops[m + j] == op;
    OpKind(req, d, ops, installed, cleared, m + j);
    ClearsNoConf(req, op);
    NewNames(req, d, ops, installed, cleared, m + j, r);
    var mid := ops[m..m + j];
    assert ops[..m + j] == ops[..m] + mid;
    RunConcat(d, ops[..m], mid);
    forall o | o in mid
      ensures Installing(req, o) && (o.MkDir? || o.Write?)
    {
      var l :| 0 <= l < |mid| && mid[l] == o;
      assert ops[m + l] == o && ops[m..n][l] == o;
      OpKind(req, d, ops, installed, cleared, m + l);
      InstallNoTree(req, o);
    }
    AssetBefore(req, Run(d, ops[..m]), mid, r);
  }

  lemma ClearsNoConf(req: Request, op: Op)
    requires IsConfWrite(op)
    ensures !Clears(req, op)
  {
  }

  lemma CalmIntact(req: Request, d: Disk, ops: seq<Op>, installed: nat, cleared: nat, m: nat, n: nat, c: Disk)
    requires IsSetting(req, d) && IsRun(req, d, ops, installed, cleared) && m < n <= |ops| && Barrier !in ops[m..n]
    requires forall i | m <= i < n && i < installed :: !ops[i].Remove? && !ops[i].Rename?
    requires AtomicCrash(Run(d, ops[..m]), ops[m..n], c) && Intact(req, Run(d, ops[..m]))
    requires !Hazard(req, Run(d, ops[..m]), ops[m..n])
    ensures Intact(req, c)
  {
    hide IsSetting, IsRun, Run, References, HasCleanedPrefix, ConfKeys, AssetKeys, IsCalm, Hazard, Intact, InEntries,
         AtomicCrash, StagedFor, Endangers, IsConfWrite;
    AllCalm(req, d, ops, installed, cleared, m, n);
    var b, pending := Run(d, ops[..m]), ops[m..n];
    forall k, r | IsConfNode(req, c, k) && r in RefsAt(c, k)
      ensures IsFile(c, r) || StagedFor(req, c, r)
    {
      RefsOfConf(req, c, k);
      CalmConf(req, b, pending, c, k);
      if r != k {
        if NodeAt(c, k) == NodeAt(b, k) {
          assert IsConfNode(req, b, k) && b[k] == c[k];
          NamedBefore(req, d, ops, installed, cleared, m, n, k, r);
          forall op | op in pending
            ensures !Endangers(op, r)
          {
            DurableRefSafe(req, b, pending, k, r, op);
          }
        } else {
          var op := WriteFrom(b, pending, c, k);
          WrittenRef(req, d, ops, installed, cleared, m, n, op, r);
          forall o | o in pending
            ensures !Endangers(o, r)
          {
            AssetSafe(req, o, r);
          }
        }
        CalmKeeps(req, b, pending, c, r);
      }
    }
    IntactIf(req, c);
  }

  lemma WriteFrom(x: Disk, ops: seq<Op>, c: Disk, k: Path) returns (op: Op)
    requires ConfFrom(x, ops, c, k) && NodeAt(c, k) != NodeAt(x, k)
    ensures op in ops && IsConfWrite(op) && Holds(c, k, op.content)
  {
    hide InEntries;
    op :| op in ops && WritesAt(op, k) && Holds(c, k, op.content);
  }

  /** At the start of a calm stretch, no file that a configuration names is away. */
  lemma NamedBefore(req: Request, d: Disk, ops: seq<Op>, installed: nat, cleared: nat, m: nat, n: nat, k: Path, r: Path)
    requires IsSetting(req, d) && IsRun(req, d, ops, installed, cleared) && m < n <= |ops| && Barrier !in ops[m..n]
    requires forall i | m <= i < n && i < installed :: !ops[i].Remove? && !ops[i].Rename?
    requires IsConfNode(req, Run(d, ops[..m]), k) && r in References(Run(d, ops[..m])[k].content)
    requires Intact(req, Run(d, ops[..m]))
    ensures IsFile(Run(d, ops[..m]), r)
  {
    hide IsSetting, IsRun, Run, References, HasCleanedPrefix, InEntries, ConfKeys, AssetKeys, Waiting, StagedFor,
         Installing, Clears;
    assert ops[m..n][0] == ops[m];
    RefAway(req, d, ops, installed, cleared, m, k, r);
    OpKind(req, d, ops, installed, cleared, m);
    if m >= installed {
      ClearsRemoves(req, ops[m]);
    }
    RestAt(ops, m);
    NotWaiting(req, Run(d, ops[..m]), ops[m..], r);
  }

  lemma ClearsRemoves(req: Request, op: Op)
    requires Clears(req, op)
    ensures !op.Rename? && op != Barrier
  {
    hide ConfKeys, AssetKeys;
  }

  lemma NotWaiting(req: Request, x: Disk, rest: seq<Op>, r: Path)
    requires rest != [] && !rest[0].Rename? && rest[0] != Barrier
    ensures !Waiting(req, x, rest, r)
  {
  }

  lemma HarmlessIntact(req: Request, d: Disk, ops: seq<Op>, installed: nat, cleared: nat, m: nat, n: nat, c: Disk)
    requires IsSetting(req, d) && IsRun(req, d, ops, installed, cleared) && m <= n <= |ops| && Barrier !in ops[m..n]
    requires AtomicCrash(Run(d, ops[..m]), ops[m..n], c) && Intact(req, Run(d, ops[..m]))
    requires !Hazard(req, Run(d, ops[..m]), ops[m..n])
    ensures Intact(req, c)
  {
    hide IsSetting, IsRun, Run, Hazard, Intact, Apply;
    if m == n {
      assert ops[m..n] == [];
    } else if i :| m <= i < n && i < installed && (ops[i].Remove? || ops[i].Rename?) {
      FencedAlone(req, d, ops, installed, cleared, m, n, i);
      assert ops[m..n] == [ops[m]];
      CrashOfOne(Run(d, ops[..m]), ops[m], c);
      NextDisk(d, ops, m);
      AloneIntact(req, d, ops, installed, cleared, m);
    } else {
      CalmIntact(req, d, ops, installed, cleared, m, n, c);
    }
  }

  // ---------------------------------------------------------------- what is pending does harm

  /** A hazard leaves a configuration dangling. */
  lemma HazardDangles(req: Request, d: Disk, ops: seq<Op>, installed: nat, cleared: nat, m: nat, n: nat)
    returns (c: Disk)
    requires IsSetting(req, d) && IsRun(req, d, ops, installed, cleared) && m <= n <= |ops| && Barrier !in ops[m..n]
    requires Hazard(req, Run(d, ops[..m]), ops[m..n])
    ensures AtomicCrash(Run(d, ops[..m]), ops[m..n], c) && !Intact(req, c)
  {
    TreeRun(d, ops[..m]);
    var b, pending := Run(d, ops[..m]), ops[m..n];
    hide Tree, Prepared, Modern, AgreeAssets, Printable, Linked, IsRun, Run, Hazard, IsHazard, References,
         HasCleanedPrefix, ConfKeys, InEntries, Intact, Clears, Installing, AtomicCrash, Apply, Can;
    var k, r, op := HazardOf(req, b, pending);
    var i := PendingAt(ops, m, n, op);
    OpKind(req, d, ops, installed, cleared, i);
    HazardKind(req, b, op, k, r);
    OneHappens(req, d, ops, installed, cleared, m, n, i);
    c := Apply(b, Whole(op));
    Dangles(req, b, op, k, r);
  }

  lemma PendingAt<T>(ops: seq<T>, m: nat, n: nat, op: T) returns (i: nat)
    requires m <= n <= |ops| && op in ops[m..n]
    ensures m <= i < n && ops[i] == op
  {
    var j :| 0 <= j < n - m && ops[m..n][j] == op;
    i := m + j;
  }

  /** Of all that is pending, one removal or one rename may be all that happens. */
  lemma OneHappens(req: Request, d: Disk, ops: seq<Op>, installed: nat, cleared: nat, m: nat, n: nat, i: nat)
    requires IsRun(req, d, ops, installed, cleared) && m <= i < n <= |ops| && Barrier !in ops[m..n]
    requires ops[i].Rename? || IsRemoval(ops[i])
    ensures AtomicCrash(Run(d, ops[..m]), ops[m..n], Apply(Run(d, ops[..m]), Whole(ops[i])))
    ensures ops[i].Rename? ==> Can(Run(d, ops[..m]), ops[i])
  {
    hide IsRun, Run, Clears, Installing, AtomicCrash, Apply, Can;
    OpKind(req, d, ops, installed, cleared, i);
    if ops[i].Rename? {
      ClearsNoRename(req, ops[i]);
      FencedAlone(req, d, ops, installed, cleared, m, n, i);
      assert ops[m..n] == [ops[m]];
      StepAt(req, d, ops, installed, cleared, m);
      KeepOne(Run(d, ops[..m]), ops[m]);
    } else {
      assert ops[m..n][i - m] == ops[i];
      LoseOthers(Run(d, ops[..m]), ops[m..n], ops[i]);
    }
  }

  lemma KeepOne(b: Disk, op: Op)
    ensures AtomicCrash(b, [op], Apply(b, op))
  {
    hide Apply;
    assert [op][1..] == [];
  }

  lemma HazardOf(req: Request, b: Disk, pending: seq<Op>) returns (k: Path, r: Path, op: Op)
    requires Hazard(req, b, pending)
    ensures IsConfNode(req, b, k) && r in References(b[k].content) && op in pending && IsHazard(req, b, k, r, op)
  {
    hide References, HasCleanedPrefix, InEntries, ConfKeys, IsHazard;
    k, r, op :| IsConfNode(req, b, k) && r in References(b[k].content) && op in pending && IsHazard(req, b, k, r, op);
  }

  lemma HazardKind(req: Request, b: Disk, op: Op, k: Path, r: Path)
    requires IsHazard(req, b, k, r, op) && (Installing(req, op) || Clears(req, op))
    ensures op.Rename? || IsRemoval(op)
    ensures Installing(req, op) ==> !op.RemoveTree?
  {
    hide StagedFor, ConfKeys, AssetKeys, Installing;
    if Installing(req, op) {
      InstallNoTree(req, op);
    }
  }

  lemma Dangles(req: Request, b: Disk, op: Op, k: Path, r: Path)
    requires Modern(req) && Tree(b) && IsConfNode(req, b, k) && r in References(b[k].content)
    requires IsHazard(req, b, k, r, op) && (Clears(req, op) || Installing(req, op)) && (op.Rename? ==> Can(b, op))
    ensures !Intact(req, Apply(b, Whole(op)))
  {
    HazardKind(req, b, op, k, r);
    hide Modern, References, HasCleanedPrefix, StagedFor, ConfKeys, AssetKeys, Installing, Tree, Apply, InEntries, Can;
    var c := Apply(b, Whole(op));
    TakenIsGone(b, op, r);
    ConfUntaken(req, b, op, k, r);
    assert IsConfNode(req, c, k) && c[k] == b[k];
    NotStagedAfter(req, b, op, r);
  }

  lemma TakenIsGone(b: Disk, op: Op, r: Path)
    requires Tree(b) && Endangers(op, r) && (op.RemoveTree? ==> op.path != []) && (op.Rename? ==> Can(b, op))
    ensures !IsFile(Apply(b, Whole(op)), r)
  {
    if op.RemoveTree? && r in b {
      hide Tree;
      DirAbove(b, Key(op.path), r);
    }
  }

  lemma ConfUntaken(req: Request, b: Disk, op: Op, k: Path, r: Path)
    requires IsFile(b, k) && InEntries(k) && Endangers(op, r) && !Endangers(op, k)
    requires Clears(req, op) || Installing(req, op)
    requires op.Rename? || IsRemoval(op)
    ensures k in Apply(b, Whole(op)) && Apply(b, Whole(op))[k] == b[k]
  {
    hide ConfKeys, AssetKeys, Installing;
    assert |k[..2][0]| == 6;
    if op.Rename? {
      ClearsNoRename(req, op);
      RenameLong(req, op);
    } else if op.RemoveTree? {
      assert Clears(req, op) by {
        if Installing(req, op) {
          InstallNoTree(req, op);
        }
      }
    }
  }

  /** Taking a file away does not stage it. */
  lemma NotStagedAfter(req: Request, b: Disk, op: Op, r: Path)
    requires Modern(req) && (op.Rename? || IsRemoval(op)) && (Clears(req, op) || Installing(req, op))
    ensures StagedFor(req, Apply(b, Whole(op)), r) ==> StagedFor(req, b, r)
  {
    hide Modern, WantedDest, StagingKey, ContentFor, Apply, Clears, Installing;
    if StagedFor(req, Apply(b, Whole(op)), r) {
      var item, asset :| item in req.items && asset in item.entry.Assets() && r == Key(WantedDest(req, item, asset))
        && Holds(Apply(b, Whole(op)), StagingKey(req, item, asset), ContentFor(req, item, asset));
      HeldBefore(req, b, op, item, asset);
    }
  }

  lemma HeldBefore(req: Request, b: Disk, op: Op, item: Item, asset: HashedAsset)
    requires Modern(req) && (op.Rename? || IsRemoval(op)) && (Clears(req, op) || Installing(req, op))
    requires item in req.items && asset in item.entry.Assets()
    requires Holds(Apply(b, Whole(op)), StagingKey(req, item, asset), ContentFor(req, item, asset))
    ensures Holds(b, StagingKey(req, item, asset), ContentFor(req, item, asset))
  {
    hide Modern, WantedDest, ContentFor, AssetKeys, ConfKeys, Apply, StagingKey, Clears, Installing, Holds;
    if op.Rename? {
      ClearsNoRename(req, op);
      RenamedElsewhere(req, op, item, asset);
    }
    HeldElsewhere(b, Whole(op), StagingKey(req, item, asset), ContentFor(req, item, asset));
  }

  lemma HeldElsewhere(b: Disk, op: Op, s: Path, content: Content)
    requires IsRemoval(op) || (op.Rename? && Key(op.to) != s)
    ensures Holds(Apply(b, op), s, content) ==> Holds(b, s, content)
  {
  }

  lemma RenamedElsewhere(req: Request, op: Op, item: Item, asset: HashedAsset)
    requires Modern(req) && Installing(req, op) && op.Rename? && item in req.items && asset in item.entry.Assets()
    ensures Key(op.to) != StagingKey(req, item, asset)
  {
    ModernItem(req, item);
    DestShape(req, item, asset);
    hide Modern, WantedDest, Staging, IsDestOf, AssetKeys;
    var dest := RenamedTo(req, op);
    StagingNoAsset(req, WantedDest(req, item, asset), Key(dest));
  }

  // ---------------------------------------------------------------- exactly when

  lemma TakeParts<T>(all: seq<T>, m: nat, n: nat)
    requires m <= n <= |all|
    ensures all[..n][m..] == all[m..n] && all[..n][..m] == all[..m]
  {
  }

  lemma Harmless(req: Request, d: Disk, all: seq<Op>, installed: nat, cleared: nat, n: nat, c: Disk)
    requires IsSetting(req, d) && IsRun(req, d, all, installed, cleared) && n <= |all|
    requires AtomicCrash(d, all[..n], c) && !Hazard(req, Durable(d, all[..n]), Pending(all[..n]))
    requires Intact(req, Durable(d, all[..n]))
    ensures Intact(req, c)
  {
    hide IsSetting, IsRun, Hazard, Intact, AtomicCrash, CrashOf, Run, Pending, Durable;
    var m := DurableAt(d, all[..n]);
    TakeParts(all, m, n);
    CrashFromDurable(d, all[..n], c);
    HarmlessIntact(req, d, all, installed, cleared, m, n, c);
  }

  lemma Harmful(req: Request, d: Disk, all: seq<Op>, installed: nat, cleared: nat, n: nat) returns (c: Disk)
    requires IsSetting(req, d) && IsRun(req, d, all, installed, cleared) && n <= |all|
    requires Hazard(req, Durable(d, all[..n]), Pending(all[..n])) || !Intact(req, Durable(d, all[..n]))
    ensures AtomicCrash(d, all[..n], c) && !Intact(req, c)
  {
    hide IsSetting, IsRun, Hazard, Intact, AtomicCrash, CrashOf, Run, Pending, Durable;
    var m := DurableAt(d, all[..n]);
    TakeParts(all, m, n);
    if Hazard(req, Durable(d, all[..n]), Pending(all[..n])) {
      c := HazardDangles(req, d, all, installed, cleared, m, n);
    } else {
      c := Durable(d, all[..n]);
      LoseAll(c, Pending(all[..n]));
    }
    CrashFromDurable(d, all[..n], c);
  }

  /** Cut the run after `n` operations: what may be left is intact, torn configurations aside. */
  ghost predicate CutsIntact(req: Request, d: Disk, ops: seq<Op>) {
    forall c | AtomicCrash(d, ops, c) :: Intact(req, c)
  }

  /** Likewise if configurations may be torn as well. */
  ghost predicate TornIntact(req: Request, d: Disk, ops: seq<Op>) {
    forall c | CrashOf(d, ops, c) :: Intact(req, c)
  }

  lemma CutExactly(req: Request, d: Disk, all: seq<Op>, installed: nat, cleared: nat, n: nat)
    requires IsSetting(req, d) && IsRun(req, d, all, installed, cleared) && n <= |all|
    ensures CutsIntact(req, d, all[..n]) <==>
              Intact(req, Durable(d, all[..n])) && !Hazard(req, Durable(d, all[..n]), Pending(all[..n]))
  {
    hide IsSetting, IsRun, Hazard, Intact, AtomicCrash, Pending, Durable;
    if Intact(req, Durable(d, all[..n])) && !Hazard(req, Durable(d, all[..n]), Pending(all[..n])) {
      forall c | AtomicCrash(d, all[..n], c)
        ensures Intact(req, c)
      {
        Harmless(req, d, all, installed, cleared, n, c);
      }
    } else {
      var c := Harmful(req, d, all, installed, cleared, n);
    }
  }

  lemma Setting(req: Request, d: Disk, run: SyncRun)
    requires Keeps(req, d) && Printable(req) && CompleteRun(req, d, run) && Linked(req, d, [])
    ensures IsSetting(req, d)
  {
    hide Tree, Modern, Genuine, AgreeAssets, AgreeConfs, AllKept, Prepared, Printable, CompleteRun, Linked;
    PreparedTreeOf(req, d, run);
  }

  /**
   Integrity after a power cut, exactly.  Cut a run anywhere, and suppose configurations are not torn.  In every
   disk that may be left, each managed configuration names only files that are there, or whose complete new
   content waits in the staging file - if and only if that is so on the durable disk, and no operation that the
   last barrier has not made durable takes a file that a configuration there names.
   */
  lemma CutIntact(req: Request, d: Disk, run: SyncRun, n: nat)
    requires Keeps(req, d) && Printable(req) && CompleteRun(req, d, run) && Fits(req, run) && Linked(req, d, [])
    requires n <= |SyncOps(req, d, run)|
    ensures var ops := SyncOps(req, d, run)[..n];
            CutsIntact(req, d, ops) <==> Intact(req, Durable(d, ops)) && !Hazard(req, Durable(d, ops), Pending(ops))
  {
    hide Keeps, Printable, CompleteRun, Linked, SyncOps, Hazard, Intact, CutsIntact, Pending, Durable, IsRun, Installs,
         IsSetting;
    Setting(req, d, run);
    RunIsRun(req, d, run);
    CutExactly(req, d, SyncOps(req, d, run), Installed(req, d, run), Installed(req, d, run) + |run.confs|, n);
  }

  // ---------------------------------------------------------------- torn configurations

  /** A line of a torn configuration that names the root of the volume. */
  const TORN := "linux x"

  lemma TornReference()
    ensures [] in References(TORN)
  {
    SplitFree(TORN, '\n');
    CutAt("linux", ' ', "x");
    assert "linux" + [' '] + "x" == TORN;
    SplitFree("x", '/');
    assert Split("x", '/')[1..] == [];
    assert ReferenceKey("x") == [];
    hide Split, ReferenceKey, Cut;
    OneValue(TORN, "linux", "x");
    assert "x" in Values([TORN], "linux") + Values([TORN], "initrd");
  }

  lemma OneValue(line: string, key: string, v: string)
    requires Cut(line, ' ') == (key, v)
    ensures Values([line], key) == [v]
  {
    hide Cut;
    assert [line][1..] == [];
    assert Values([], key) == [];
  }

  /** A configuration that is being written may be torn, and then names anything. */
  lemma TornDangles(req: Request, d: Disk, ops: seq<Op>, installed: nat, cleared: nat, m: nat, n: nat, i: nat)
    returns (c: Disk)
    requires IsSetting(req, d) && IsRun(req, d, ops, installed, cleared) && m <= i < n <= |ops|
    requires Barrier !in ops[m..n] && IsConfWrite(ops[i])
    ensures CrashOf(Run(d, ops[..m]), ops[m..n], c) && !Intact(req, c)
  {
    hide Tree, Prepared, Modern, AgreeAssets, Printable, Linked, IsRun, Run, Apply, Can, Intact, CrashOf, IsConfWrite,
         Installing, Clears, ConfKeys, WritesConfOf;
    TornAt(d, ops, m, n, i);
    OpKind(req, d, ops, installed, cleared, i);
    ClearsNoConf(req, ops[i]);
    StepAt(req, d, ops, installed, cleared, i);
    var y := Run(d, ops[..i]);
    c := Apply(y, Write(ops[i].path, TORN));
    var item := WriterOf(req, d, ops, installed, cleared, i);
    WritesOurs(req, d, y, ops[i], item);
    TreeRun(d, ops[..i]);
    TreeApply(y, Write(ops[i].path, TORN));
    TornBad(req, y, ops[i]);
  }

  lemma WritesOurs(req: Request, d: Disk, e: Disk, op: Op, item: Item)
    requires item in req.items && WritesConfOf(req, d, e, op, item)
    ensures op.Write? && Key(op.path) in ConfKeys(req) && InEntries(Key(op.path))
  {
    ConfInEntries(req, item);
    hide WantedConf, JobOf, Prepared, InEntries, WantedDest;
  }

  /** A run cut in the middle of a write. */
  lemma TornAt(d: Disk, ops: seq<Op>, m: nat, n: nat, i: nat)
    requires m <= i < n <= |ops| && Barrier !in ops[m..n] && IsConfWrite(ops[i])
    ensures CrashOf(Run(d, ops[..m]), ops[m..n], Apply(Run(d, ops[..i]), Write(ops[i].path, TORN)))
  {
    hide Run, Apply, CrashOf;
    var b, pending := Run(d, ops[..m]), ops[m..n];
    assert pending[i - m] == ops[i] && pending[..i - m] == ops[m..i];
    TearOne(b, pending, i - m, TORN);
    assert ops[..i] == ops[..m] + ops[m..i];
    RunConcat(d, ops[..m], ops[m..i]);
  }

  lemma TornBad(req: Request, y: Disk, op: Op)
    requires op.Write? && Can(y, op) && Key(op.path) in ConfKeys(req) && InEntries(Key(op.path))
    requires Modern(req) && Tree(Apply(y, Write(op.path, TORN)))
    ensures !Intact(req, Apply(y, Write(op.path, TORN)))
  {
    TornReference();
    var c, k := Apply(y, Write(op.path, TORN)), Key(op.path);
    assert IsFile(c, k) && c[k].content == TORN;
    NoRoot(c);
    hide HasCleanedPrefix, References, ConfKeys, AssetKeys, StagedFor, Apply, Modern, Tree, InEntries;
    assert IsConfNode(req, c, k);
    if StagedFor(req, c, []) {
      StagedIsAsset(req, c, []);
      RootNoAsset(req);
    }
  }

  lemma RootNoAsset(req: Request)
    requires Modern(req)
    ensures [] !in AssetKeys(req)
  {
    hide Modern, WantedDest;
    if item, asset :| item in req.items && asset in item.entry.Assets() && [] == Key(WantedDest(req, item, asset)) {
      AssetKeyShape(req, item, asset);
    }
  }

  lemma NoRoot(c: Disk)
    requires Tree(c)
    ensures [] !in c
  {
    assert [] in c ==> Placed(c, []);
  }

  lemma TornExactly(req: Request, d: Disk, all: seq<Op>, installed: nat, cleared: nat, n: nat)
    requires IsSetting(req, d) && IsRun(req, d, all, installed, cleared) && n <= |all|
    ensures TornIntact(req, d, all[..n]) <==>
              CutsIntact(req, d, all[..n]) && forall op | op in Pending(all[..n]) :: !IsConfWrite(op)
  {
    hide IsSetting, IsRun, Intact, AtomicCrash, CrashOf, Pending, Durable, IsConfWrite, Run;
    var ops := all[..n];
    if op :| op in Pending(ops) && IsConfWrite(op) {
      var m := DurableAt(d, ops);
      TakeParts(all, m, n);
      var i := PendingAt(all, m, n, op);
      var c := TornDangles(req, d, all, installed, cleared, m, n, i);
      CrashFromDurable(d, ops, c);
    } else if CutsIntact(req, d, ops) {
      forall c | CrashOf(d, ops, c)
        ensures Intact(req, c)
      {
        CrashFromDurable(d, ops, c);
        CrashIsAtomic(Durable(d, ops), Pending(ops), c);
      }
    } else {
      var c :| AtomicCrash(d, ops, c) && !Intact(req, c);
      AtomicIsCrash(d, ops, c);
    }
  }

  /** If configurations may be torn as well, then also none of them must be in the middle of being written. */
  lemma TornCutIntact(req: Request, d: Disk, run: SyncRun, n: nat)
    requires Keeps(req, d) && Printable(req) && CompleteRun(req, d, run) && Fits(req, run) && Linked(req, d, [])
    requires n <= |SyncOps(req, d, run)|
    ensures var ops := SyncOps(req, d, run)[..n];
            TornIntact(req, d, ops) <==>
              && Intact(req, Durable(d, ops)) && !Hazard(req, Durable(d, ops), Pending(ops))
              && forall op | op in Pending(ops) :: !IsConfWrite(op)
  {
    hide Keeps, Printable, CompleteRun, Linked, SyncOps, Hazard, Intact, CutsIntact, TornIntact, Pending, Durable,
         IsRun, Installs, IsSetting, IsConfWrite;
    Setting(req, d, run);
    RunIsRun(req, d, run);
    TornExactly(req, d, SyncOps(req, d, run), Installed(req, d, run), Installed(req, d, run) + |run.confs|, n);
    CutIntact(req, d, run, n);
  }

  // ---------------------------------------------------------------- while entries are installed

  lemma LinkedIntact(req: Request, d: Disk, ops: seq<Op>, installed: nat, cleared: nat, m: nat)
    requires IsSetting(req, d) && IsRun(req, d, ops, installed, cleared) && m <= |ops|
    requires Linked(req, Run(d, ops[..m]), ops[m..])
    ensures Intact(req, Run(d, ops[..m]))
  {
    hide Tree, Prepared, Modern, AgreeAssets, Printable, IsRun, Run, References, HasCleanedPrefix, InEntries, ConfKeys,
         StagedFor, Waiting;
    var x := Run(d, ops[..m]);
    forall k, r | IsConfNode(req, x, k) && r in References(x[k].content)
      ensures IsFile(x, r) || StagedFor(req, x, r)
    {
      if Waiting(req, x, ops[m..], r) {
        WaitingStages(req, d, ops, installed, cleared, m, r);
      }
    }
  }

  /** A copy that is about to remove its destination has its content staged. */
  lemma ReplacingStaged(req: Request, d: Disk, ops: seq<Op>, installed: nat, cleared: nat, m: nat)
    requires IsSetting(req, d) && IsRun(req, d, ops, installed, cleared) && m < installed && m < |ops| && ops[m].Remove?
    ensures StagedFor(req, Run(d, ops[..m]), Key(ops[m].path))
  {
    hide Tree, Prepared, Modern, AgreeAssets, Printable, Linked, IsRun, Run, Staging, WantedDest, Holds;
    FenceAt(req, d, ops, installed, cleared, m);
    StagedAlready(req, d, ops, installed, cleared, m);
    var item, asset :| item in req.items && asset in item.entry.Assets()
      && |ops[m].path| == 4 && IsDestOf(req, item, asset, ops[m].path)
      && ops[m - 2].content == ContentFor(req, item, asset);
    SameStaging(ops[m].path, WantedDest(req, item, asset));
  }

  lemma StagedAlready(req: Request, d: Disk, ops: seq<Op>, installed: nat, cleared: nat, i: nat)
    requires IsRun(req, d, ops, installed, cleared) && i < installed && ops[i].Remove? && IsReplacing(req, ops, i)
    ensures Holds(Run(d, ops[..i]), Key(Staging(ops[i].path)), ops[i - 2].content)
  {
    hide IsRun, Run, IsCopy, Staging;
    StepAt(req, d, ops, installed, cleared, i - 2);
    StepAt(req, d, ops, installed, cleared, i - 1);
  }

  /** In a free run, nothing pending is a hazard until the last entry is installed. */
  lemma NoHazardYet(req: Request, d: Disk, ops: seq<Op>, installed: nat, cleared: nat, m: nat, n: nat)
    requires IsSetting(req, d) && IsRun(req, d, ops, installed, cleared) && m <= n <= installed && n <= |ops|
    requires Free(req, d, ops) && Barrier !in ops[m..n]
    ensures !Hazard(req, Run(d, ops[..m]), ops[m..n])
  {
    hide IsSetting, IsRun, Run, References, HasCleanedPrefix, InEntries, ConfKeys, Hazard, IsHazard, Free, Installing;
    var b, pending := Run(d, ops[..m]), ops[m..n];
    if Hazard(req, b, pending) {
      var k, r, op := HazardOf(req, b, pending);
      var i := PendingAt(ops, m, n, op);
      OpKind(req, d, ops, installed, cleared, i);
      HazardKind(req, b, op, k, r);
      FencedAlone(req, d, ops, installed, cleared, m, n, i);
      NotYet(req, d, ops, installed, cleared, m, k, r);
    }
  }

  lemma NotYet(req: Request, d: Disk, ops: seq<Op>, installed: nat, cleared: nat, m: nat, k: Path, r: Path)
    requires IsSetting(req, d) && IsRun(req, d, ops, installed, cleared) && m < installed && m < |ops|
    requires Free(req, d, ops) && (ops[m].Remove? || ops[m].Rename?)
    requires IsConfNode(req, Run(d, ops[..m]), k) && r in References(Run(d, ops[..m])[k].content)
    ensures !IsHazard(req, Run(d, ops[..m]), k, r, ops[m])
  {
    hide Tree, Prepared, Modern, AgreeAssets, Printable, Linked, IsRun, Run, References, HasCleanedPrefix, ConfKeys,
         StagedFor, AssetKeys, Installing, Clears, IsOld;
    if ops[m].Remove? {
      ReplacingStaged(req, d, ops, installed, cleared, m);
    } else if Endangers(ops[m], r) {
      OpKind(req, d, ops, installed, cleared, m);
      RenamedNoAsset(req, ops[m], r);
      RefAway(req, d, ops, installed, cleared, m, k, r);
      UntakenYet(req, d, ops, m, k, r);
    }
  }

  lemma UntakenYet(req: Request, d: Disk, ops: seq<Op>, m: nat, k: Path, r: Path)
    requires m < |ops| && IsOld(req, d, ops, m, k, r) && Free(req, d, ops) && ops[m].Rename?
    ensures !TakesAway(ops[m], r)
  {
    hide IsConfNode, References;
    assert Untouched(ops, m + 1, k);
  }

  lemma InstallExactly(req: Request, d: Disk, ops: seq<Op>, installed: nat, cleared: nat, n: nat)
    requires IsSetting(req, d) && IsRun(req, d, ops, installed, cleared) && n <= installed && n <= |ops|
    requires Free(req, d, ops)
    ensures CutsIntact(req, d, ops[..n])
  {
    hide Tree, Prepared, Modern, AgreeAssets, Printable, Linked, IsRun, Run, Hazard, Intact, CutsIntact, Pending,
         Durable, Free;
    var m := DurableAt(d, ops[..n]);
    TakeParts(ops, m, n);
    FreeLinked(req, d, ops, installed, cleared, m);
    LinkedIntact(req, d, ops, installed, cleared, m);
    NoHazardYet(req, d, ops, installed, cleared, m, n);
    CutExactly(req, d, ops, installed, cleared, n);
  }

  /** In a free run, until the last entry is installed, a power cut that tears no configuration leaves none dangling. */
  lemma InstallCutIntact(req: Request, d: Disk, run: SyncRun, n: nat)
    requires Keeps(req, d) && Printable(req) && CompleteRun(req, d, run) && Fits(req, run) && Linked(req, d, [])
    requires Free(req, d, SyncOps(req, d, run)) && n <= Installed(req, d, run)
    ensures n <= |SyncOps(req, d, run)| && CutsIntact(req, d, SyncOps(req, d, run)[..n])
  {
    hide Keeps, Printable, CompleteRun, Linked, SyncOps, CutsIntact, IsRun, Installs, IsSetting, Free;
    Setting(req, d, run);
    RunIsRun(req, d, run);
    RunBounds(req, d, SyncOps(req, d, run), Installed(req, d, run), Installed(req, d, run) + |run.confs|);
    InstallExactly(req, d, SyncOps(req, d, run), Installed(req, d, run), Installed(req, d, run) + |run.confs|, n);
  }
}
