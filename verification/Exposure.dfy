/** Exactly when some power cut in a run leaves a configuration dangling, told from the volume beforehand. */
module Exposure {
  import opened Text
  import opened Fat
  import opened AtomicCopy
  import opened Compare
  import opened Assets
  import opened Conf
  import opened SyncPlan
  import opened Wanted
  import opened Convergence
  import opened Outcome
  import opened Effects
  import opened Frame
  import opened Scaffold
  import opened Turns
  import opened Exactness
  import opened Feasible
  import opened Idempotence
  import opened Cuts
  import opened ConfRefs
  import opened RunShape
  import opened Integrity
  import opened PowerCut
  import opened Removal

  // ---------------------------------------------------------------- the condition

  /** Entry `j` copies something, so that it issues a barrier. */
  ghost predicate Copies(req: Request, picks: seq<seq<bool>>, j: nat)
    requires PicksFit(req, picks, |req.items|) && j < |req.items|
  {
    exists a | 0 <= a < |picks[j]| :: picks[j][a]
  }

  ghost predicate IsStaged(req: Request, picks: seq<seq<bool>>, j: nat, a: nat, r: Path)
    requires PicksFit(req, picks, |req.items|) && j < |req.items|
  {
    a < |picks[j]| && picks[j][a] && StagingKey(req, req.items[j], req.items[j].entry.Assets()[a]) == r
  }

  /** Entry `j` copies something that it stages under the key. */
  ghost predicate Stages(req: Request, picks: seq<seq<bool>>, j: nat, r: Path)
    requires PicksFit(req, picks, |req.items|) && j < |req.items|
  {
    exists a: nat :: IsStaged(req, picks, j, a, r)
  }

  /** An entry before the `j`th has that configuration. */
  ghost predicate RewrittenBefore(req: Request, j: nat, k: Path)
    requires j <= |req.items|
  {
    exists i | 0 <= i < j :: Key(WantedConf(req, req.items[i])) == k
  }

  /** A barrier follows the rewriting of the configuration. */
  ghost predicate RewrittenInTime(req: Request, picks: seq<seq<bool>>, k: Path)
    requires PicksFit(req, picks, |req.items|)
  {
    exists j | 0 <= j < |req.items| :: Copies(req, picks, j) && RewrittenBefore(req, j, k)
  }

  /**
   A managed configuration names another file that the run removes, and is not rewritten in time for that to be
   durable; or it names a file in which an entry stages a copy, and is not rewritten before.
   */
  ghost predicate IsExposed(req: Request, d: Disk, picks: seq<seq<bool>>, k: Path, r: Path)
    requires PicksFit(req, picks, |req.items|)
  {
    || (r != k && IsRemoved(req, d, r) && !RewrittenInTime(req, picks, k))
    || (exists j | 0 <= j < |req.items| :: Stages(req, picks, j, r) && !RewrittenBefore(req, j, k))
  }

  ghost predicate Exposed(req: Request, d: Disk, picks: seq<seq<bool>>)
    requires PicksFit(req, picks, |req.items|)
  {
    exists k, r | IsConfNode(req, d, k) && r in References(d[k].content) :: IsExposed(req, d, picks, k, r)
  }

  // ---------------------------------------------------------------- where copies and writes stand in a run

  lemma {:induction false} StartsGrow(req: Request, d: Disk, picks: seq<seq<bool>>, i: nat, j: nat)
    requires i <= j && PicksFit(req, picks, j)
    ensures StartOf(req, d, picks, i) <= StartOf(req, d, picks, j)
  {
    hide JobOf, InstallOps, Run;
    if i < j {
      StartsGrow(req, d, picks, i, j - 1);
    }
  }

  /** A rename belongs to a copy of the entry whose turn it is. */
  lemma {:induction false} CopiesRename(host: Host, d: Disk, pairs: seq<Pair>, n: nat, op: Op) returns (pair: Pair)
    requires HaveDests(pairs) && n <= |pairs| && op in CopiesOps(host, d, pairs, n) && op.Rename?
    ensures pair in pairs && pair.dest != [] && op == Rename(Staging(pair.dest), pair.dest)
  {
    hide CopyOps, CopyShape, Run, Staging;
    var before := CopiesOps(host, d, pairs, n - 1);
    pair := pairs[n - 1];
    assert pair in pairs;
    if op in before {
      pair := CopiesRename(host, d, pairs, n - 1, op);
    } else {
      CopyRename(Run(d, before), ContentOf(host, pair.source), pair.dest, op);
    }
  }

  lemma CopyRename(d: Disk, content: Content, dest: Path, op: Op)
    requires dest != [] && op in CopyOps(d, content, dest) && op.Rename?
    ensures op == Rename(Staging(dest), dest)
  {
    CopyOpsShape(d, content, dest);
    hide CopyOps, Staging;
    assert CopyShape(op, dest);
  }

  /** The staging file of every copy is renamed. */
  lemma {:induction false} AllRenamed(host: Host, d: Disk, pairs: seq<Pair>, n: nat, i: nat)
    requires HaveDests(pairs) && i < n <= |pairs| && pairs[i].dest != []
    ensures Rename(Staging(pairs[i].dest), pairs[i].dest) in CopiesOps(host, d, pairs, n)
  {
    hide Staging, Run, CopyOps;
    assert pairs[n - 1] in pairs;
    var before := CopiesOps(host, d, pairs, n - 1);
    if i < n - 1 {
      AllRenamed(host, d, pairs, n - 1, i);
    } else {
      CopyRenames(Run(d, before), ContentOf(host, pairs[i].source), pairs[i].dest);
    }
  }

  lemma CopyRenames(d: Disk, content: Content, dest: Path)
    requires dest != []
    ensures Rename(Staging(dest), dest) in CopyOps(d, content, dest)
  {
    hide Staging, StageOps;
  }

  lemma {:induction false} PickedIndex<T>(items: seq<T>, picked: seq<bool>, x: T) returns (a: nat)
    requires |picked| == |items| && x in Select(items, picked)
    ensures a < |items| && picked[a] && items[a] == x
  {
    if picked[0] && x == items[0] {
      a := 0;
    } else {
      a := PickedIndex(items[1..], picked[1..], x);
      a := a + 1;
    }
  }

  /** The staging file of an entry's copy. */
  lemma StagedUnder(req: Request, e: Disk, item: Item, a: nat)
    requires Tree(e) && Modern(req) && item in req.items && a < |item.entry.Assets()|
    ensures |JobOf(req, e, item).changeset| == |item.entry.Assets()|
    ensures JobOf(req, e, item).changeset[a].dest != []
    ensures Key(Staging(JobOf(req, e, item).changeset[a].dest)) == StagingKey(req, item, item.entry.Assets()[a])
  {
    ModernItem(req, item);
    var asset := item.entry.Assets()[a];
    assert asset in item.entry.Assets();
    PairDest(req, e, item, asset);
    hide Tree, Modern, EffectiveSchema, WantedDest, Staging, AssetPair, GenerateEntry;
    assert JobOf(req, e, item).changeset[a] == AssetPair(req, e, item, asset);
    SameStaging(AssetPair(req, e, item, asset).dest, WantedDest(req, item, asset));
  }

  /** What an entry's turn renames is what its copies stage. */
  lemma TurnRenames(req: Request, e: Disk, item: Item, picked: seq<bool>, op: Op) returns (a: nat)
    requires Tree(e) && Modern(req) && item in req.items && |picked| == |item.entry.Assets()|
    requires op in InstallOps(req.host, e, JobOf(req, e, item), picked) && op.Rename?
    ensures a < |picked| && picked[a] && Key(op.path) == StagingKey(req, item, item.entry.Assets()[a])
  {
    hide Tree, Modern, JobOf, CopiesOps, ConfOps, Run, Staging, StagingKey, Select;
    var job := JobOf(req, e, item);
    var needed := Select(job.changeset, picked);
    var copies := CopiesOps(req.host, e, needed, |needed|);
    ConfOpsKinds(Run(e, copies), job);
    var pair := CopiesRename(req.host, e, needed, |needed|, op);
    a := PickedIndex(job.changeset, picked, pair);
    StagedUnder(req, e, item, a);
  }

  lemma TurnRenamed(req: Request, e: Disk, item: Item, picked: seq<bool>, a: nat) returns (op: Op)
    requires Tree(e) && Modern(req) && item in req.items && |picked| == |item.entry.Assets()|
    requires a < |picked| && picked[a]
    ensures op in InstallOps(req.host, e, JobOf(req, e, item), picked) && op.Rename?
    ensures Key(op.path) == StagingKey(req, item, item.entry.Assets()[a])
  {
    hide Tree, Modern, JobOf, CopiesOps, ConfOps, Run, Staging, StagingKey, Select;
    var job := JobOf(req, e, item);
    var needed := Select(job.changeset, picked);
    StagedUnder(req, e, item, a);
    var i := Selected(job.changeset, picked, a);
    AllRenamed(req.host, e, needed, |needed|, i);
    op := Rename(Staging(needed[i].dest), needed[i].dest);
  }

  /** Barriers are issued by copies. */
  lemma TurnBarrier(req: Request, e: Disk, item: Item, picked: seq<bool>)
    requires |picked| == |item.entry.Assets()| && forall a | 0 <= a < |picked| :: !picked[a]
    ensures Barrier !in InstallOps(req.host, e, JobOf(req, e, item), picked)
  {
    hide JobOf, CopyOps, ConfOps, Run;
    var job := JobOf(req, e, item);
    NonePicked(job.changeset, picked);
    assert CopiesOps(req.host, e, [], 0) == [];
    ConfOpsKinds(Run(e, []), job);
  }

  /** The turn an operation of installing belongs to; the last operation of a turn writes a configuration. */
  lemma TurnHolding(req: Request, d: Disk, run: SyncRun, q: nat) returns (j: nat)
    requires Fits(req, run) && q < Installed(req, d, run)
    ensures j < |req.items| && StartOf(req, d, run.picks, j) <= q < StartOf(req, d, run.picks, j + 1)
    ensures InstallPhase(req, d, run).ops[q] in TurnOps(req, d, run.picks, j)
    ensures !InstallPhase(req, d, run).ops[q].Write? ==> q + 1 < StartOf(req, d, run.picks, j + 1)
  {
    hide JobOf, InstallOps, Run;
    j := TurnAt(req, d, run.picks, |req.items|, q);
    TurnPart(req, d, run.picks, j, |req.items|);
    TurnEnds(req, d, run.picks, j);
    var ops, from, turn := InstallPhase(req, d, run).ops, StartOf(req, d, run.picks, j), TurnOps(req, d, run.picks, j);
    WithinPart(ops, from, turn, q);
    WithinPart(ops, from, turn, from + |turn| - 1);
  }

  lemma BarrierTurn(req: Request, d: Disk, run: SyncRun, q: nat) returns (j: nat)
    requires Tree(d) && Modern(req) && CompleteRun(req, d, run) && Fits(req, run) && q < Installed(req, d, run)
    requires InstallPhase(req, d, run).ops[q] == Barrier
    ensures j < |req.items| && Copies(req, run.picks, j)
    ensures StartOf(req, d, run.picks, j) <= q && q + 1 < StartOf(req, d, run.picks, j + 1)
  {
    hide Tree, Modern, CompleteRun, JobOf, InstallOps, Run, Installs;
    j := TurnHolding(req, d, run, q);
    if !Copies(req, run.picks, j) {
      TurnBarrier(req, DiskAfter(req, d, run.picks, j), req.items[j], run.picks[j]);
    }
  }

  lemma RenameTurn(req: Request, d: Disk, run: SyncRun, q: nat) returns (j: nat)
    requires Tree(d) && Modern(req) && CompleteRun(req, d, run) && Fits(req, run) && q < Installed(req, d, run)
    requires InstallPhase(req, d, run).ops[q].Rename?
    ensures j < |req.items|
    ensures Stages(req, run.picks, j, Key(InstallPhase(req, d, run).ops[q].path))
    ensures StartOf(req, d, run.picks, j) <= q && q + 1 < StartOf(req, d, run.picks, j + 1)
  {
    hide Tree, Modern, CompleteRun, JobOf, InstallOps, Run, Installs, SameScaffold, Made, RequestDirs, StagingKey;
    j := TurnHolding(req, d, run, q);
    TurnDisk(req, d, run, j);
    var op := InstallPhase(req, d, run).ops[q];
    var a := TurnRenames(req, DiskAfter(req, d, run.picks, j), req.items[j], run.picks[j], op);
    assert IsStaged(req, run.picks, j, a, Key(op.path));
  }

  /** An operation of an entry's turn, in the run. */
  lemma InTurn(req: Request, d: Disk, run: SyncRun, j: nat, l: nat)
    requires Fits(req, run) && j < |req.items| && l < |TurnOps(req, d, run.picks, j)|
    ensures StartOf(req, d, run.picks, j + 1) == StartOf(req, d, run.picks, j) + |TurnOps(req, d, run.picks, j)|
    ensures StartOf(req, d, run.picks, j) + l < Installed(req, d, run)
    ensures InstallPhase(req, d, run).ops[StartOf(req, d, run.picks, j) + l] == TurnOps(req, d, run.picks, j)[l]
  {
    hide Installs, TurnOps;
    TurnPart(req, d, run.picks, j, |req.items|);
    var from, turn := StartOf(req, d, run.picks, j), TurnOps(req, d, run.picks, j);
    WithinPart(InstallPhase(req, d, run).ops, from, turn, from + l);
  }

  /** A copy's rename in the entry's turn, before its configuration is written. */
  lemma StagesInTurn(req: Request, d: Disk, run: SyncRun, j: nat, r: Path) returns (l: nat)
    requires Tree(d) && Modern(req) && CompleteRun(req, d, run) && Fits(req, run) && j < |req.items|
    requires Stages(req, run.picks, j, r)
    ensures l + 1 < |TurnOps(req, d, run.picks, j)| && TurnOps(req, d, run.picks, j)[l].Rename?
    ensures Key(TurnOps(req, d, run.picks, j)[l].path) == r
  {
    hide Tree, Modern, CompleteRun, Installs, JobOf, InstallOps, SameScaffold, Made, RequestDirs, StagingKey;
    TurnDisk(req, d, run, j);
    TurnEnds(req, d, run.picks, j);
    var a: nat :| IsStaged(req, run.picks, j, a, r);
    var op := TurnRenamed(req, DiskAfter(req, d, run.picks, j), req.items[j], run.picks[j], a);
    var turn := TurnOps(req, d, run.picks, j);
    l :| 0 <= l < |turn| && turn[l] == op;
  }

  /** An entry that copies issues a barrier in its turn, before it writes its configuration. */
  lemma CopiesAt(req: Request, d: Disk, run: SyncRun, j: nat) returns (q: nat)
    requires Tree(d) && Modern(req) && CompleteRun(req, d, run) && Fits(req, run) && j < |req.items|
    requires Copies(req, run.picks, j)
    ensures StartOf(req, d, run.picks, j) <= q < Installed(req, d, run)
    ensures InstallPhase(req, d, run).ops[q] == Barrier
  {
    hide Tree, Modern, CompleteRun, JobOf, InstallOps, Run, StagingKey, Installs, IsReplacing;
    var a :| 0 <= a < |run.picks[j]| && run.picks[j][a];
    var r := StagingKey(req, req.items[j], req.items[j].entry.Assets()[a]);
    assert IsStaged(req, run.picks, j, a, r);
    var l := StagesInTurn(req, d, run, j, r);
    InTurn(req, d, run, j, l);
    InstallsFenced(req, d, run.picks, |req.items|);
    q := StartOf(req, d, run.picks, j) + l + 1;
    FencedAt(req, InstallPhase(req, d, run).ops, q - 1);
  }

  /** In the turn of entry `j`, the configurations written so far are those of the entries before it. */
  lemma UntouchedInTurn(req: Request, d: Disk, run: SyncRun, j: nat, n: nat, k: Path)
    requires Keeps(req, d) && CompleteRun(req, d, run) && Fits(req, run) && j < |req.items| && InEntries(k)
    requires StartOf(req, d, run.picks, j) <= n < StartOf(req, d, run.picks, j + 1) && n <= Installed(req, d, run)
    ensures Untouched(InstallPhase(req, d, run).ops, n, k) <==> !RewrittenBefore(req, j, k)
  {
    hide Tree, Modern, Genuine, Agrees, AllKept, CompleteRun, JobOf, InstallOps, Run, Alters, InEntries, WantedConf,
         WritesConfOf, IsConfWrite, Installs;
    var ops := InstallPhase(req, d, run).ops;
    if i :| 0 <= i < j && Key(WantedConf(req, req.items[i])) == k {
      var l := EndOfTurn(req, d, run, i);
      StartsGrow(req, d, run.picks, i + 1, j);
      WriteAlters(ops[l], k);
    }
    if l :| 0 <= l < n && Alters(ops[l], k) {
      var i := RewriterOf(req, d, run, l, k);
      if j <= i {
        StartsGrow(req, d, run.picks, j + 1, i + 1);
      }
    }
  }

  /** The entry that wrote a configuration. */
  lemma RewriterOf(req: Request, d: Disk, run: SyncRun, l: nat, k: Path) returns (i: nat)
    requires Keeps(req, d) && CompleteRun(req, d, run) && Fits(req, run) && l < Installed(req, d, run) && InEntries(k)
    requires Alters(InstallPhase(req, d, run).ops[l], k)
    ensures i < |req.items| && l == StartOf(req, d, run.picks, i + 1) - 1 && Key(WantedConf(req, req.items[i])) == k
  {
    hide Tree, Modern, Genuine, Agrees, AllKept, CompleteRun, JobOf, Run, InEntries, Installs, Installing, WantedConf;
    InstallsInstalling(req, d, run.picks, |req.items|);
    var op := InstallPhase(req, d, run).ops[l];
    assert op in InstallPhase(req, d, run).ops;
    InstallAlters(req, op, k);
    i := WrittenAt(req, d, run, l);
    SamePath(req, d, Run(d, InstallPhase(req, d, run).ops[..l]), op, req.items[i], k);
  }

  lemma SamePath(req: Request, d: Disk, e: Disk, op: Op, item: Item, k: Path)
    requires WritesConfOf(req, d, e, op, item) && Alters(op, k)
    ensures Key(WantedConf(req, item)) == k
  {
    hide WantedConf, JobOf, Prepared, WantedDest;
  }

  // ---------------------------------------------------------------- exposed volumes

  lemma SameUntouched(a: seq<Op>, b: seq<Op>, n: nat, k: Path)
    requires n <= |a| <= |b| && b[..|a|] == a
    ensures Untouched(a, n, k) <==> Untouched(b, n, k)
  {
    hide Alters;
    assert forall j | 0 <= j < n :: b[j] == b[..|a|][j];
  }

  lemma UntouchedLess(ops: seq<Op>, m: nat, n: nat, k: Path)
    requires m <= n <= |ops| && Untouched(ops, n, k)
    ensures Untouched(ops, m, k)
  {
    hide Alters;
  }

  /** What installing has taken away, while a configuration still named it, leaves that dangling. */
  lemma TakenBroken(req: Request, d: Disk, ops: seq<Op>, installed: nat, cleared: nat, k: Path, r: Path, m: nat)
    requires Modern(req) && IsRun(req, d, ops, installed, cleared) && m < |ops| && TakesAway(ops[m], r)
    requires IsConfNode(req, d, k) && r in References(d[k].content) && Untouched(ops, m + 1, k)
    ensures !CutsIntact(req, d, ops[..m + 1])
  {
    hide Modern, IsRun, Run, References, HasCleanedPrefix, InEntries, ConfKeys, AssetKeys, Alters, TakesAway, StagedFor,
         AtomicCrash;
    var x := Run(d, ops[..m + 1]);
    TakenIsNoAsset(req, d, ops, installed, cleared, m, r);
    ConfStays(req, d, ops, installed, cleared, m + 1, k);
    if StagedFor(req, x, r) {
      StagedIsAsset(req, x, r);
    }
    assert IsConfNode(req, x, k) && r in References(x[k].content);
    assert !Intact(req, x);
    AtomicOfRun(d, ops[..m + 1]);
  }

  /** An entry takes a staging file away, when no entry before it has rewritten the configuration. */
  lemma StagedTaken(req: Request, d: Disk, run: SyncRun, k: Path, r: Path, j: nat) returns (q: nat)
    requires Keeps(req, d) && CompleteRun(req, d, run) && Fits(req, run) && InEntries(k)
    requires j < |req.items| && Stages(req, run.picks, j, r) && !RewrittenBefore(req, j, k)
    ensures q < Installed(req, d, run) && TakesAway(InstallPhase(req, d, run).ops[q], r)
    ensures Untouched(InstallPhase(req, d, run).ops, q + 1, k)
  {
    hide Tree, Modern, Genuine, Agrees, AllKept, CompleteRun, Installs, InEntries, Stages, RewrittenBefore, Untouched,
         TurnOps;
    var l := StagesInTurn(req, d, run, j, r);
    InTurn(req, d, run, j, l);
    q := StartOf(req, d, run.picks, j) + l;
    UntouchedInTurn(req, d, run, j, q + 1, k);
  }

  lemma StagedExposed(req: Request, d: Disk, run: SyncRun, k: Path, r: Path, j: nat) returns (n: nat)
    requires Keeps(req, d) && CompleteRun(req, d, run) && Fits(req, run)
    requires IsConfNode(req, d, k) && r in References(d[k].content)
    requires j < |req.items| && Stages(req, run.picks, j, r) && !RewrittenBefore(req, j, k)
    ensures n <= |SyncOps(req, d, run)| && !CutsIntact(req, d, SyncOps(req, d, run)[..n])
  {
    hide Tree, Modern, Genuine, Agrees, AllKept, CompleteRun, Installs, IsRun, SyncOps, References, HasCleanedPrefix,
         InEntries, ConfKeys, CutsIntact, Stages, RewrittenBefore, Untouched, Run, TakesAway;
    var q := StagedTaken(req, d, run, k, r, j);
    RunIsRun(req, d, run);
    AtInstalled(req, d, run);
    var ops, installed := SyncOps(req, d, run), Installed(req, d, run);
    SameUntouched(InstallPhase(req, d, run).ops, ops, q + 1, k);
    assert ops[q] == ops[..installed][q];
    n := q + 1;
    TakenBroken(req, d, ops, installed, installed + |run.confs|, k, r, q);
  }

  /** The last barrier of a run is issued while entries are installed. */
  lemma BarrierEarly(req: Request, d: Disk, ops: seq<Op>, installed: nat, cleared: nat, m: nat)
    requires IsRun(req, d, ops, installed, cleared) && m <= |ops| && (m > 0 ==> ops[m - 1] == Barrier)
    ensures m <= installed <= cleared <= |ops|
  {
    hide IsRun, Clears;
    RunBounds(req, d, ops, installed, cleared);
    if m > 0 {
      OpKind(req, d, ops, installed, cleared, m - 1);
      BarrierClearsNot(req);
    }
  }

  lemma BarrierClearsNot(req: Request)
    ensures !Clears(req, Barrier)
  {
  }

  /** What is not rewritten in time is as it was when the last barrier has been issued. */
  lemma LateIsOld(req: Request, d: Disk, run: SyncRun, m: nat, k: Path)
    requires Keeps(req, d) && CompleteRun(req, d, run) && Fits(req, run)
    requires InEntries(k) && !RewrittenInTime(req, run.picks, k)
    requires m <= Installed(req, d, run) && (m > 0 ==> InstallPhase(req, d, run).ops[m - 1] == Barrier)
    ensures Untouched(InstallPhase(req, d, run).ops, m, k)
  {
    hide Tree, Modern, Genuine, Agrees, AllKept, CompleteRun, Installs, InEntries, RewrittenBefore, Alters, Copies;
    if m > 0 {
      var j := BarrierTurn(req, d, run, m - 1);
      UntouchedInTurn(req, d, run, j, m, k);
    }
  }

  /** Before that barrier, what is untouched was not rewritten in time. */
  lemma OldIsLate(req: Request, d: Disk, run: SyncRun, m: nat, k: Path)
    requires Keeps(req, d) && CompleteRun(req, d, run) && Fits(req, run)
    requires InEntries(k) && m <= Installed(req, d, run) && Untouched(InstallPhase(req, d, run).ops, m, k)
    requires forall q | m <= q < Installed(req, d, run) :: InstallPhase(req, d, run).ops[q] != Barrier
    ensures !RewrittenInTime(req, run.picks, k)
  {
    hide Tree, Modern, Genuine, Agrees, AllKept, CompleteRun, Installs, InEntries, RewrittenBefore, Alters, Copies,
         Untouched;
    forall j | 0 <= j < |req.items| && Copies(req, run.picks, j)
      ensures !RewrittenBefore(req, j, k)
    {
      var q := CopiesAt(req, d, run, j);
      EarlierUntouched(req, d, run, j, m, k);
    }
  }

  lemma EarlierUntouched(req: Request, d: Disk, run: SyncRun, j: nat, m: nat, k: Path)
    requires Keeps(req, d) && CompleteRun(req, d, run) && Fits(req, run) && j < |req.items|
    requires StartOf(req, d, run.picks, j) <= m <= Installed(req, d, run)
    requires Untouched(InstallPhase(req, d, run).ops, m, k)
    ensures !RewrittenBefore(req, j, k)
  {
    hide Tree, Modern, Genuine, Agrees, AllKept, CompleteRun, Installs, WantedConf, InEntries, Alters, IsConfWrite;
    if i :| 0 <= i < j && Key(WantedConf(req, req.items[i])) == k {
      var l := EndOfTurn(req, d, run, i);
      StartsGrow(req, d, run.picks, i + 1, j);
      WriteAlters(InstallPhase(req, d, run).ops[l], k);
    }
  }

  /** Once the last barrier is issued, no copy removes or renames any more. */
  lemma CalmEnd(req: Request, d: Disk, ops: seq<Op>, installed: nat, cleared: nat, m: nat)
    requires IsRun(req, d, ops, installed, cleared) && m <= |ops| && Barrier !in ops[m..]
    ensures forall op | op in ops[m..] :: IsCalm(req, op)
  {
    hide IsRun, IsCopy, Staging;
    assert ops[m..|ops|] == ops[m..];
    forall i | m <= i < |ops| && i < installed
      ensures !ops[i].Remove? && !ops[i].Rename?
    {
      if ops[i].Remove? || ops[i].Rename? {
        FencedAlone(req, d, ops, installed, cleared, m, |ops|, i);
        FenceAt(req, d, ops, installed, cleared, i);
      }
    }
    AllCalm(req, d, ops, installed, cleared, m, |ops|);
  }

  /** A file that is there after the last barrier, and gone at the end, is endangered. */
  lemma GoneEndangered(req: Request, d: Disk, ops: seq<Op>, installed: nat, cleared: nat, m: nat, r: Path)
    returns (op: Op)
    requires IsRun(req, d, ops, installed, cleared) && m <= |ops| && Barrier !in ops[m..]
    requires IsFile(Run(d, ops[..m]), r) && !IsFile(Run(d, ops), r)
    ensures op in ops[m..] && Endangers(op, r) && IsCalm(req, op)
  {
    hide IsRun, Run, IsCalm, Endangers, IsFile, AtomicCrash;
    CalmEnd(req, d, ops, installed, cleared, m);
    assert ops == ops[..m] + ops[m..];
    RunConcat(d, ops[..m], ops[m..]);
    AtomicOfRun(Run(d, ops[..m]), ops[m..]);
    if forall o | o in ops[m..] :: !Endangers(o, r) {
      CalmKeeps(req, Run(d, ops[..m]), ops[m..], Run(d, ops), r);
    }
    op :| op in ops[m..] && Endangers(op, r);
  }

  /** What a run removes, while a configuration that is not rewritten in time names it, leaves that dangling. */
  lemma RemovedHazard(req: Request, d: Disk, ops: seq<Op>, installed: nat, cleared: nat, m: nat, k: Path, r: Path)
    requires IsSetting(req, d) && IsRun(req, d, ops, installed, cleared) && m <= installed <= |ops|
    requires Barrier !in ops[m..] && Untouched(ops, m, k) && Intact(req, Run(d, ops[..m]))
    requires IsConfNode(req, d, k) && r in References(d[k].content) && r != k && r !in AssetKeys(req)
    requires !IsFile(Run(d, ops), r)
    ensures Hazard(req, Run(d, ops[..m]), ops[m..])
  {
    hide IsSetting, IsRun, Run, References, HasCleanedPrefix, ConfKeys, AssetKeys, InEntries, StagedFor, Hazard, IsCalm,
         Intact, Endangers, Untouched, Clears;
    RunBounds(req, d, ops, installed, cleared);
    var b := Run(d, ops[..m]);
    ConfStays(req, d, ops, installed, cleared, m, k);
    IntactAt(req, b, k, r);
    if StagedFor(req, b, r) {
      StagedIsAsset(req, b, r);
    }
    var op := GoneEndangered(req, d, ops, installed, cleared, m, r);
    CalmTree(req, op);
    ConfSafe(req, op, k, r);
    HazardIs(req, b, ops[m..], k, r, op);
  }

  lemma CalmTree(req: Request, op: Op)
    requires IsCalm(req, op)
    ensures op.RemoveTree? ==> Clears(req, op)
  {
    hide Clears;
  }

  lemma RemovedExposed(req: Request, d: Disk, run: SyncRun, k: Path, r: Path)
    requires Keeps(req, d) && Printable(req) && CompleteRun(req, d, run) && Fits(req, run) && Linked(req, d, [])
    requires IsConfNode(req, d, k) && r in References(d[k].content) && r != k
    requires IsRemoved(req, d, r) && !RewrittenInTime(req, run.picks, k)
    ensures !CutsIntact(req, d, SyncOps(req, d, run))
  {
    hide Tree, Modern, Genuine, Agrees, AllKept, Printable, CompleteRun, Installs, IsRun, SyncOps, Linked, References,
         HasCleanedPrefix, ConfKeys, AssetKeys, InEntries, CutsIntact, RewrittenInTime, Untouched, Run, IsSetting,
         IsRemoved, Pending, Durable, Hazard, Intact;
    var ops, installed := SyncOps(req, d, run), Installed(req, d, run);
    Setting(req, d, run);
    RunIsRun(req, d, run);
    AtInstalled(req, d, run);
    var m := DurableAt(d, ops);
    BarrierEarly(req, d, ops, installed, installed + |run.confs|, m);
    assert m > 0 ==> ops[..installed][m - 1] == ops[m - 1];
    LateIsOld(req, d, run, m, k);
    SameUntouched(InstallPhase(req, d, run).ops, ops, m, k);
    RemovedIsGone(req, d, run, r);
    RemovedNotAsked(req, d, r);
    assert ops[..|ops|] == ops;
    CutExactly(req, d, ops, installed, installed + |run.confs|, |ops|);
    if Intact(req, Run(d, ops[..m])) {
      RemovedHazard(req, d, ops, installed, installed + |run.confs|, m, k, r);
    }
  }

  lemma RemovedNotAsked(req: Request, d: Disk, r: Path)
    requires IsRemoved(req, d, r)
    ensures r !in AssetKeys(req)
  {
    hide ConfKeys, AssetKeys, IsStaleDir, IsCleaned, InConfArea;
  }

  // ---------------------------------------------------------------- what dangles is exposed

  lemma ExposedIf(req: Request, d: Disk, picks: seq<seq<bool>>, k: Path, r: Path)
    requires PicksFit(req, picks, |req.items|) && IsConfNode(req, d, k) && r in References(d[k].content)
    requires IsExposed(req, d, picks, k, r)
    ensures Exposed(req, d, picks)
  {
    hide IsConfNode, References, IsExposed;
  }

  /** A file that an old configuration names is renamed: it is one that an entry stages a copy in. */
  lemma RenamedExposed(req: Request, d: Disk, run: SyncRun, q: nat, k: Path, r: Path)
    requires Keeps(req, d) && CompleteRun(req, d, run) && Fits(req, run) && q < Installed(req, d, run)
    requires IsConfNode(req, d, k) && r in References(d[k].content) && Untouched(InstallPhase(req, d, run).ops, q, k)
    requires InstallPhase(req, d, run).ops[q].Rename? && Key(InstallPhase(req, d, run).ops[q].path) == r
    ensures Exposed(req, d, run.picks)
  {
    hide Tree, Modern, Genuine, Agrees, AllKept, CompleteRun, Installs, References, HasCleanedPrefix, ConfKeys,
         InEntries, RewrittenBefore, Untouched, Stages, IsRemoved, RewrittenInTime, Exposed;
    var j := RenameTurn(req, d, run, q);
    UntouchedInTurn(req, d, run, j, q, k);
    assert IsExposed(req, d, run.picks, k, r);
    ExposedIf(req, d, run.picks, k, r);
  }

  /** The durable disk is not intact: a staging file that a configuration names has been renamed. */
  lemma AwayExposed(req: Request, d: Disk, run: SyncRun, m: nat)
    requires Keeps(req, d) && Printable(req) && CompleteRun(req, d, run) && Fits(req, run) && Linked(req, d, [])
    requires m <= Installed(req, d, run) && !Intact(req, Run(d, InstallPhase(req, d, run).ops[..m]))
    ensures Exposed(req, d, run.picks)
  {
    hide Keeps, Printable, CompleteRun, Installs, IsRun, SyncOps, Linked, References, HasCleanedPrefix, ConfKeys,
         AssetKeys, InEntries, Untouched, Run, IsSetting, Exposed, StagedFor, TakesAway, Installing;
    var ops, a, installed := SyncOps(req, d, run), InstallPhase(req, d, run).ops, Installed(req, d, run);
    Setting(req, d, run);
    RunIsRun(req, d, run);
    AtInstalled(req, d, run);
    assert a[..m] == ops[..m];
    var x := Run(d, ops[..m]);
    var k, r := NotIntact(req, x);
    RefAway(req, d, ops, installed, installed + |run.confs|, m, k, r);
    if q :| 0 <= q < m && TakesAway(ops[q], r) {
      OpKind(req, d, ops, installed, installed + |run.confs|, q);
      TakenIsRenamed(req, ops[q], r);
      assert ops[..installed][q] == ops[q];
      UntouchedLess(ops, q, m, k);
      SameUntouched(a, ops, q, k);
      RenamedExposed(req, d, run, q, k, r);
    } else {
      FileStays(req, d, ops, installed, installed + |run.confs|, m, r);
    }
  }

  lemma TakenIsRenamed(req: Request, op: Op, r: Path)
    requires Installing(req, op) && TakesAway(op, r)
    ensures op.Rename? && Key(op.path) == r
  {
    hide Installing;
    if op.Remove? {
      RemovesAsset(req, op);
    }
  }

  lemma NotIntact(req: Request, x: Disk) returns (k: Path, r: Path)
    requires !Intact(req, x)
    ensures IsConfNode(req, x, k) && r in References(x[k].content) && !IsFile(x, r) && !StagedFor(req, x, r)
  {
    hide HasCleanedPrefix, InEntries, ConfKeys, References, StagedFor;
    k, r :| IsConfNode(req, x, k) && r in References(x[k].content) && !(IsFile(x, r) || StagedFor(req, x, r));
  }

  /** What is a hazard takes no asset, and concerns a configuration that is old. */
  lemma HazardIsOld(req: Request, d: Disk, ops: seq<Op>, installed: nat, cleared: nat, m: nat, n: nat, i: nat,
                    k: Path, r: Path)
    requires IsSetting(req, d) && IsRun(req, d, ops, installed, cleared) && m <= i < n <= |ops|
    requires Barrier !in ops[m..n] && IsConfNode(req, Run(d, ops[..m]), k)
    requires r in References(Run(d, ops[..m])[k].content) && IsHazard(req, Run(d, ops[..m]), k, r, ops[i])
    ensures IsOld(req, d, ops, m, k, r) && r != k
    ensures i < installed ==> i == m && ops[i].Rename? && Key(ops[i].path) == r
  {
    hide Tree, Prepared, Modern, AgreeAssets, Printable, Linked, IsRun, Run, References, HasCleanedPrefix, ConfKeys,
         AssetKeys, InEntries, StagedFor, IsOld, Clears, Installing;
    OpKind(req, d, ops, installed, cleared, i);
    HazardKind(req, Run(d, ops[..m]), ops[i], k, r);
    if i < installed {
      FencedAlone(req, d, ops, installed, cleared, m, n, i);
      if ops[i].Remove? {
        ReplacingStaged(req, d, ops, installed, cleared, m);
      } else {
        RenamedNoAsset(req, ops[i], r);
      }
    } else if r in AssetKeys(req) {
      AssetSafe(req, ops[i], r);
    }
    RefAway(req, d, ops, installed, cleared, m, k, r);
  }

  lemma HazardExposed(req: Request, d: Disk, run: SyncRun, m: nat, n: nat)
    requires Keeps(req, d) && Printable(req) && CompleteRun(req, d, run) && Fits(req, run) && Linked(req, d, [])
    requires m <= Installed(req, d, run) && m <= n <= |SyncOps(req, d, run)|
    requires Barrier !in SyncOps(req, d, run)[m..n]
    requires Hazard(req, Run(d, SyncOps(req, d, run)[..m]), SyncOps(req, d, run)[m..n])
    ensures Exposed(req, d, run.picks)
  {
    hide Keeps, Printable, CompleteRun, Installs, IsRun, SyncOps, Linked, References, HasCleanedPrefix, ConfKeys,
         AssetKeys, InEntries, Untouched, Run, IsSetting, Exposed, IsHazard, Hazard;
    var ops, a, installed := SyncOps(req, d, run), InstallPhase(req, d, run).ops, Installed(req, d, run);
    Setting(req, d, run);
    RunIsRun(req, d, run);
    AtInstalled(req, d, run);
    var k, r, op := HazardOf(req, Run(d, ops[..m]), ops[m..n]);
    var i := PendingAt(ops, m, n, op);
    HazardIsOld(req, d, ops, installed, installed + |run.confs|, m, n, i, k, r);
    SameUntouched(a, ops, m, k);
    if i < installed {
      assert ops[..installed][i] == ops[i];
      RenamedExposed(req, d, run, i, k, r);
    } else {
      assert ops[installed..][i - installed] == op;
      HazardEndangers(req, Run(d, ops[..m]), k, r, op);
      LaterExposed(req, d, run, m, n, i, k, r);
    }
  }

  lemma HazardEndangers(req: Request, b: Disk, k: Path, r: Path, op: Op)
    requires IsHazard(req, b, k, r, op)
    ensures Endangers(op, r)
  {
    hide StagedFor;
  }

  /** An old configuration names what cleaning up takes, before the disk with the new one is durable. */
  lemma LaterExposed(req: Request, d: Disk, run: SyncRun, m: nat, n: nat, i: nat, k: Path, r: Path)
    requires Keeps(req, d) && CompleteRun(req, d, run) && Fits(req, run)
    requires m <= Installed(req, d, run) <= i < n <= |SyncOps(req, d, run)| && Barrier !in SyncOps(req, d, run)[m..n]
    requires SyncOps(req, d, run)[i] in CleanupOps(run) && Endangers(SyncOps(req, d, run)[i], r)
    requires IsOld(req, d, SyncOps(req, d, run), m, k, r) && r != k
    requires Untouched(InstallPhase(req, d, run).ops, m, k)
    ensures Exposed(req, d, run.picks)
  {
    hide Keeps, CompleteRun, Installs, SyncOps, CleanupOps, References, HasCleanedPrefix, ConfKeys, AssetKeys,
         InEntries, Untouched, Exposed, IsRemoved, RewrittenInTime, Stages, RewrittenBefore, Endangers;
    var ops, a, installed := SyncOps(req, d, run), InstallPhase(req, d, run).ops, Installed(req, d, run);
    AtInstalled(req, d, run);
    TakenIsRemoved(req, d, run, ops[i], r);
    forall q | m <= q < installed
      ensures a[q] != Barrier
    {
      assert ops[m..n][q - m] == ops[q] == ops[..installed][q];
    }
    OldIsLate(req, d, run, m, k);
    assert IsExposed(req, d, run.picks, k, r);
    ExposedIf(req, d, run.picks, k, r);
  }

  lemma BrokenExposed(req: Request, d: Disk, run: SyncRun, n: nat)
    requires Keeps(req, d) && Printable(req) && CompleteRun(req, d, run) && Fits(req, run) && Linked(req, d, [])
    requires n <= |SyncOps(req, d, run)| && !CutsIntact(req, d, SyncOps(req, d, run)[..n])
    ensures Exposed(req, d, run.picks)
  {
    hide Keeps, Printable, CompleteRun, Installs, IsRun, SyncOps, Linked, IsSetting, Exposed, Hazard, Intact,
         CutsIntact, Pending, Durable, Run;
    var ops, installed := SyncOps(req, d, run), Installed(req, d, run);
    Setting(req, d, run);
    RunIsRun(req, d, run);
    AtInstalled(req, d, run);
    CutExactly(req, d, ops, installed, installed + |run.confs|, n);
    var m := DurableAt(d, ops[..n]);
    TakeParts(ops, m, n);
    BarrierEarly(req, d, ops, installed, installed + |run.confs|, m);
    if Intact(req, Run(d, ops[..m])) {
      HazardExposed(req, d, run, m, n);
    } else {
      assert InstallPhase(req, d, run).ops[..m] == ops[..installed][..m] == ops[..m];
      AwayExposed(req, d, run, m);
    }
  }

  // ---------------------------------------------------------------- exactly when

  /** Some power cut in the run leaves a configuration dangling, without tearing one. */
  ghost predicate CanBreak(req: Request, d: Disk, ops: seq<Op>) {
    exists n | 0 <= n <= |ops| :: !CutsIntact(req, d, ops[..n])
  }

  /**
   Integrity over a whole run, exactly.  Some power cut in a run leaves a managed configuration that names a
   missing file if and only if the volume is exposed: a configuration on it names a file that the run removes, and
   no entry that copies something comes after one that rewrites this configuration; or it names a file in which an
   entry stages a copy, and no entry before that one rewrites it.
   */
  lemma ExposedExactly(req: Request, d: Disk, run: SyncRun)
    requires Keeps(req, d) && Printable(req) && CompleteRun(req, d, run) && Fits(req, run) && Linked(req, d, [])
    ensures CanBreak(req, d, SyncOps(req, d, run)) <==> Exposed(req, d, run.picks)
  {
    hide Keeps, Printable, CompleteRun, Installs, SyncOps, Linked, CutsIntact, HasCleanedPrefix, InEntries,
         ConfKeys, References, IsRemoved, RewrittenInTime, Stages, RewrittenBefore;
    var ops := SyncOps(req, d, run);
    if n :| 0 <= n <= |ops| && !CutsIntact(req, d, ops[..n]) {
      BrokenExposed(req, d, run, n);
    }
    if Exposed(req, d, run.picks) {
      var k, r :| IsConfNode(req, d, k) && r in References(d[k].content) && IsExposed(req, d, run.picks, k, r);
      if r != k && IsRemoved(req, d, r) && !RewrittenInTime(req, run.picks, k) {
        RemovedExposed(req, d, run, k, r);
        assert ops[..|ops|] == ops;
      } else {
        var j :| 0 <= j < |req.items| && Stages(req, run.picks, j, r) && !RewrittenBefore(req, j, k);
        var n := StagedExposed(req, d, run, k, r, j);
      }
    }
  }

  // ---------------------------------------------------------------- which copies are made

  /** An entry before the `j`th asks for something there. */
  ghost predicate AskedBefore(req: Request, j: nat, k: Path)
    requires j <= |req.items|
  {
    exists i, asset | 0 <= i < j && asset in req.items[i].entry.Assets() ::
      Key(WantedDest(req, req.items[i], asset)) == k
  }

  /** The content is not there yet when the `j`th entry asks for it. */
  ghost predicate IsNeeded(req: Request, d: Disk, j: nat, a: nat)
    requires j < |req.items| && a < |req.items[j].entry.Assets()|
  {
    var item := req.items[j];
    var k := Key(WantedDest(req, item, item.entry.Assets()[a]));
    !Holds(d, k, ContentFor(req, item, item.entry.Assets()[a])) && !AskedBefore(req, j, k)
  }

  ghost function NeedsOf(req: Request, d: Disk, j: nat): (r: seq<bool>)
    requires j < |req.items|
    ensures |r| == |req.items[j].entry.Assets()|
    ensures forall a | 0 <= a < |r| :: r[a] == IsNeeded(req, d, j, a)
  {
    seq(|req.items[j].entry.Assets()|, a requires 0 <= a < |req.items[j].entry.Assets()| => IsNeeded(req, d, j, a))
  }

  /** The copies that a run without read errors makes from the volume. */
  ghost function Needs(req: Request, d: Disk): (r: seq<seq<bool>>)
    ensures PicksFit(req, r, |req.items|)
    ensures |r| == |req.items| && forall j | 0 <= j < |r| :: r[j] == NeedsOf(req, d, j)
  {
    seq(|req.items|, j requires 0 <= j < |req.items| => NeedsOf(req, d, j))
  }

  /** What nobody has asked for yet is as it was. */
  lemma {:induction false} UnaskedStays(req: Request, d: Disk, picks: seq<seq<bool>>, j: nat, item: Item,
                                        asset: HashedAsset)
    requires Tree(d) && Modern(req) && PicksFit(req, picks, j) && item in req.items && asset in item.entry.Assets()
    requires !AskedBefore(req, j, Key(WantedDest(req, item, asset)))
    ensures NodeAt(DiskAfter(req, d, picks, j), Key(WantedDest(req, item, asset)))
         == NodeAt(d, Key(WantedDest(req, item, asset)))
  {
    hide JobOf, Tree, Modern, WantedDest, Run, Touches, InstallOps, Installing, EffectiveSchema, IsDestOf, Select;
    var k := Key(WantedDest(req, item, asset));
    if j > 0 {
      UnaskedStays(req, d, picks, j - 1, item, asset);
      InstallsInstalling(req, d, picks, j - 1);
      ModernAt(req, j - 1);
      var e, other := DiskAfter(req, d, picks, j - 1), req.items[j - 1];
      forall pair | pair in Select(JobOf(req, e, other).changeset, picks[j - 1])
        ensures Key(pair.dest) != k
      {
        var b := JobPair(req, e, other, pair);
        LeadsThere(req, other, b, pair.dest);
      }
      InstallAvoids(req, e, item, asset, other, picks[j - 1]);
      RunFrame(e, InstallOps(req.host, e, JobOf(req, e, other), picks[j - 1]), k);
    }
  }

  lemma LeadsThere(req: Request, item: Item, asset: HashedAsset, dest: Path)
    requires IsDestOf(req, item, asset, dest)
    ensures Key(dest) == Key(WantedDest(req, item, asset))
  {
    hide WantedDest, Wish;
  }

  /** What an entry has asked for is there when a later one has its turn. */
  lemma AskedIsHeld(req: Request, d: Disk, run: SyncRun, j: nat, item: Item, asset: HashedAsset)
    requires Keeps(req, d) && CompleteRun(req, d, run) && Fits(req, run) && j < |req.items|
    requires item in req.items && asset in item.entry.Assets()
    requires AskedBefore(req, j, Key(WantedDest(req, item, asset)))
    ensures Holds(DiskAfter(req, d, run.picks, j), Key(WantedDest(req, item, asset)), ContentFor(req, item, asset))
  {
    hide Tree, Modern, AgreeAssets, AgreeConfs, AllKept, CompleteRun, Installs, JobOf, WantedDest, Holds, SameScaffold,
         Made, RequestDirs, AssetPair, AllSpare, IsGenuine;
    var k, c := Key(WantedDest(req, item, asset)), ContentFor(req, item, asset);
    var i, b :| 0 <= i < j && b in req.items[i].entry.Assets() && Key(WantedDest(req, req.items[i], b)) == k;
    AgreeOn(req, item, asset, req.items[i], b);
    SpareOthers(req, d, run, item, asset);
    TurnDisk(req, d, run, i);
    PairOfAsset(req, DiskAfter(req, d, run.picks, i), req.items[i], b);
    GenuineAsset(req, req.items[i], b);
    hide Genuine;
    AskedHolds(req, d, run, j, i, k, c);
  }

  lemma SpareOthers(req: Request, d: Disk, run: SyncRun, item: Item, asset: HashedAsset)
    requires Keeps(req, d) && CompleteRun(req, d, run) && Fits(req, run)
    requires item in req.items && asset in item.entry.Assets()
    ensures AllSpare(req, d, run, Key(WantedDest(req, item, asset)), ContentFor(req, item, asset))
  {
    hide Tree, Modern, Genuine, AgreeAssets, AgreeConfs, AllKept, CompleteRun, AllSpare, WantedDest;
    AssetSpared(req, d, run, item, asset);
  }

  /** On the disk an entry finds, a pair differs exactly when its content is needed. */
  lemma DiffersIs(req: Request, d: Disk, run: SyncRun, j: nat, a: nat)
    requires Keeps(req, d) && CompleteRun(req, d, run) && Fits(req, run) && j < |req.items|
    requires InstallsExact(req, d, run.picks, |req.items|) && a < |req.items[j].entry.Assets()|
    ensures a < |JobAt(req, d, run.picks, j).changeset|
    ensures Differs(req.host, DiskAfter(req, d, run.picks, j), JobAt(req, d, run.picks, j).changeset[a])
        <==> IsNeeded(req, d, j, a)
  {
    hide Tree, Modern, Genuine, AgreeAssets, AgreeConfs, AllKept, CompleteRun, Installs, JobOf, WantedDest,
         SameScaffold, Made, RequestDirs, AssetPair, InstallsExact, AskedBefore, Differs;
    var item, e := req.items[j], DiskAfter(req, d, run.picks, j);
    var asset := item.entry.Assets()[a];
    var k, c := Key(WantedDest(req, item, asset)), ContentFor(req, item, asset);
    TurnDisk(req, d, run, j);
    ExactPrefix(req, d, run.picks, j);
    PairAt(req, e, item, a);
    PairDiffers(req, e, item, asset);
    if AskedBefore(req, j, k) {
      AskedIsHeld(req, d, run, j, item, asset);
    } else {
      UnaskedStays(req, d, run.picks, j, item, asset);
    }
    if Holds(d, k, c) {
      AgreesEach(req, item, asset);
      IdenticalStays(req, d, run.picks, j, item, asset);
    }
  }

  lemma PairAt(req: Request, e: Disk, item: Item, a: nat)
    requires a < |item.entry.Assets()|
    ensures JobOf(req, e, item).changeset[a] == AssetPair(req, e, item, item.entry.Assets()[a])
  {
    hide AssetPair, GenerateEntry;
  }

  lemma PairDiffers(req: Request, e: Disk, item: Item, asset: HashedAsset)
    requires Tree(e) && Genuine(req) && item in req.items && asset in item.entry.Assets()
    ensures Differs(req.host, e, AssetPair(req, e, item, asset))
        <==> !Holds(e, Key(WantedDest(req, item, asset)), ContentFor(req, item, asset))
  {
    GenuineAsset(req, item, asset);
    hide Tree, Genuine, AssetPair, WantedDest, JobOf;
    PairOfAsset(req, e, item, asset);
  }

  /** Without read errors, what a run copies is told by the request and the volume. */
  lemma PicksAre(req: Request, d: Disk, run: SyncRun)
    requires Keeps(req, d) && CompleteRun(req, d, run) && Fits(req, run)
    requires InstallsExact(req, d, run.picks, |req.items|)
    ensures run.picks == Needs(req, d)
  {
    hide Keeps, CompleteRun, Installs, JobOf, IsNeeded, Differs;
    forall j | 0 <= j < |req.items|
      ensures run.picks[j] == NeedsOf(req, d, j)
    {
      assert Exact(req.host, DiskAfter(req, d, run.picks, j), JobAt(req, d, run.picks, j).changeset, run.picks[j]);
      forall a | 0 <= a < |run.picks[j]|
        ensures run.picks[j][a] == NeedsOf(req, d, j)[a]
      {
        DiffersIs(req, d, run, j, a);
      }
    }
  }

  /** So whether some power cut can leave a configuration dangling is told by the request and the volume. */
  lemma ExposedByVolume(req: Request, d: Disk, run: SyncRun)
    requires Keeps(req, d) && Printable(req) && CompleteRun(req, d, run) && Fits(req, run) && Linked(req, d, [])
    requires InstallsExact(req, d, run.picks, |req.items|)
    ensures CanBreak(req, d, SyncOps(req, d, run)) <==> Exposed(req, d, Needs(req, d))
  {
    hide Keeps, Printable, CompleteRun, Installs, SyncOps, Linked, CanBreak, Exposed, InstallsExact, Needs;
    PicksAre(req, d, run);
    ExposedExactly(req, d, run);
  }

  /**
   The ordinary upgrade: an entry that is dropped, whose configuration names a file that is removed with it.
   Whatever is copied, a power cut at the end may leave the configuration without the file.
   */
  lemma DroppedBreaks(req: Request, d: Disk, run: SyncRun, k: Path, r: Path) returns (c: Disk)
    requires Keeps(req, d) && Printable(req) && CompleteRun(req, d, run) && Fits(req, run) && Linked(req, d, [])
    requires IsConfNode(req, d, k) && k !in ConfKeys(req) && r in References(d[k].content)
    requires r != k && IsRemoved(req, d, r)
    ensures AtomicCrash(d, SyncOps(req, d, run), c) && !Intact(req, c)
  {
    hide Keeps, Printable, CompleteRun, Installs, SyncOps, Linked, AtomicCrash, Intact, IsConfNode, IsRemoved,
         References;
    NeverRewritten(req, run.picks, k);
    RemovedExposed(req, d, run, k, r);
    c :| AtomicCrash(d, SyncOps(req, d, run), c) && !Intact(req, c);
  }

  lemma NeverRewritten(req: Request, picks: seq<seq<bool>>, k: Path)
    requires PicksFit(req, picks, |req.items|) && k !in ConfKeys(req)
    ensures !RewrittenInTime(req, picks, k)
  {
    hide WantedConf, Copies;
  }

  /** From a volume with nothing in the way there is such a run, and such a cut. */
  lemma DroppedRun(req: Request, d: Disk, k: Path, r: Path) returns (run: SyncRun, c: Disk)
    requires Keeps(req, d) && Printable(req) && Unobstructed(req, d) && Linked(req, d, [])
    requires IsConfNode(req, d, k) && k !in ConfKeys(req) && r in References(d[k].content)
    requires r != k && IsRemoved(req, d, r)
    ensures CompleteRun(req, d, run) && Fits(req, run) && InstallsExact(req, d, run.picks, |req.items|)
    ensures AtomicCrash(d, SyncOps(req, d, run), c) && !Intact(req, c)
  {
    hide Tree, Modern, Genuine, Agrees, AllKept, Printable, CompleteRun, Installs, SyncOps, Linked, AtomicCrash, Intact,
         IsConfNode, IsRemoved, References, Unobstructed, InstallsExact;
    run := RunExists(req, d);
    c := DroppedBreaks(req, d, run, k, r);
  }

  // ---------------------------------------------------------------- torn configurations

  /** What was written last is pending. */
  lemma LastPending(d: Disk, ops: seq<Op>)
    requires ops != [] && Last(ops).Write?
    ensures Last(ops) in Pending(ops)
  {
    hide Pending, Durable, Run;
    var m := DurableAt(d, ops);
    assert Last(ops) == ops[m..][|ops| - 1 - m];
  }

  /** If configurations may be torn as well, every run is exposed: each entry writes one, without its own barrier. */
  lemma TornBreaks(req: Request, d: Disk, run: SyncRun) returns (n: nat)
    requires Keeps(req, d) && Printable(req) && CompleteRun(req, d, run) && Fits(req, run) && Linked(req, d, [])
    requires req.items != []
    ensures n <= |SyncOps(req, d, run)| && !TornIntact(req, d, SyncOps(req, d, run)[..n])
  {
    hide Tree, Modern, Genuine, Agrees, AllKept, Printable, CompleteRun, Installs, SyncOps, Linked, TornIntact,
         CutsIntact, IsRun, IsSetting, IsConfWrite, Pending;
    var ops, installed := SyncOps(req, d, run), Installed(req, d, run);
    var l := EndOfTurn(req, d, run, 0);
    AtInstalled(req, d, run);
    assert ops[..installed][l] == ops[l];
    n := l + 1;
    assert ops[..n][l] == ops[l];
    ConfWriteIsWrite(ops[l]);
    LastPending(d, ops[..n]);
    Setting(req, d, run);
    RunIsRun(req, d, run);
    TornExactly(req, d, ops, installed, installed + |run.confs|, n);
  }

  lemma ConfWriteIsWrite(op: Op)
    requires IsConfWrite(op)
    ensures op.Write?
  {
  }
}
