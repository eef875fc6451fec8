/** What each entry finds when its turn comes, and what it leaves, whatever the spelling on the volume. */
module Turns {
  import opened Text
  import opened Fat
  import opened Volumes
  import opened AtomicCopy
  import opened Compare
  import opened Assets
  import opened Conf
  import opened SyncPlan
  import opened Loaders
  import opened Wanted
  import opened Convergence
  import opened Outcome
  import opened Effects
  import opened Scaffold

  // ---------------------------------------------------------------- how directories are spelled in the end

  /** The directories of the later entries follow those of the earlier ones. */
  lemma {:induction false} RequestDirsSplit(req: Request, i: nat, n: nat) returns (rest: seq<Path>)
    requires i <= n <= |req.items|
    ensures RequestDirs(req, n) == RequestDirs(req, i) + rest
    ensures i < n ==> ItemDirs(req, req.items[i]) <= rest
  {
    hide ItemDirs;
    rest := [];
    if i < n {
      var before := RequestDirsSplit(req, i, n - 1);
      rest := before + ItemDirs(req, req.items[n - 1]);
      assert RequestDirs(req, i) + rest == RequestDirs(req, i) + before + ItemDirs(req, req.items[n - 1]);
    }
  }

  /** The directory of the configurations, or one inside a namespace. */
  predicate IsRequestDir(dir: Path) {
    dir == ["loader", "entries"] || (|dir| == 3 && |dir[0]| == 3)
  }

  lemma AboveIsScaffold(dir: Path, k: Path)
    requires IsRequestDir(dir) && k != [] && k <= Key(dir)
    ensures IsScaffold(k)
  {
    assert |k[0]| == |Key(dir)[0]| == |dir[0]|;
  }

  lemma {:induction false} RequestDirsShape(req: Request, n: nat)
    requires Modern(req) && n <= |req.items|
    ensures forall dir | dir in RequestDirs(req, n) :: IsRequestDir(dir)
  {
    hide ItemDirs, Modern, IsRequestDir;
    if n > 0 {
      RequestDirsShape(req, n - 1);
      ItemDirsShape(req, req.items[n - 1]);
    }
  }

  lemma ItemDirsShape(req: Request, item: Item)
    requires Modern(req) && item in req.items
    ensures forall dir | dir in ItemDirs(req, item) :: IsRequestDir(dir)
  {
    ModernItem(req, item);
    var dirs := AssetDirs(req, item);
    hide Modern, WantedDest, EffectiveSchema;
    forall dir | dir in dirs
      ensures |dir| == 3 && |dir[0]| == 3
    {
      var i :| 0 <= i < |dirs| && dirs[i] == dir;
      DestShape(req, item, item.entry.Assets()[i]);
    }
  }

  lemma {:induction false} MadeElsewhere(d: Disk, dirs: seq<Path>, k: Path)
    requires forall dir | dir in dirs :: !(k != [] && k <= Key(dir))
    ensures NodeAt(Made(d, dirs), k) == NodeAt(d, k)
  {
    hide WithDirs;
    if k in d {
      MadeKeeps(d, dirs, k);
    } else if k in Made(d, dirs) {
      MadeName(d, dirs, k);
    }
  }

  /** Making directories changes nothing outside the scaffold. */
  lemma PreparedElsewhere(req: Request, d: Disk, k: Path)
    requires Modern(req) && !IsScaffold(k)
    ensures NodeAt(Prepared(req, d), k) == NodeAt(d, k)
  {
    hide Made, RequestDirs;
    RequestDirsShape(req, |req.items|);
    forall dir | dir in RequestDirs(req, |req.items|)
      ensures !(k != [] && k <= Key(dir))
    {
      if k != [] && k <= Key(dir) {
        AboveIsScaffold(dir, k);
      }
    }
    MadeElsewhere(d, RequestDirs(req, |req.items|), k);
  }

  /** What an entry finds, or makes, is spelled as it will be in the end. */
  lemma SpelledInTheEnd(req: Request, d: Disk, e: Disk, i: nat, dir: Path, k: Path)
    requires Modern(req) && i < |req.items| && SameScaffold(e, Made(d, RequestDirs(req, i))) && IsScaffold(k)
    requires k <= Key(dir)
    requires dir == ItemDirs(req, req.items[i])[0] || dir == ["loader", "entries"]
    ensures NameAt(e, k, dir[|k| - 1]) == NameAt(Prepared(req, d), k, dir[|k| - 1])
  {
    hide Made, ItemDirs, WithDirs, Modern;
    var n := |req.items|;
    var rest := RequestDirsSplit(req, i, n);
    var p := Made(d, RequestDirs(req, i));
    assert NodeAt(e, k) == NodeAt(p, k);
    MadeConcat(d, RequestDirs(req, i), rest);
    if k in p {
      MadeKeeps(p, rest, k);
    } else if dir == ["loader", "entries"] {
      EntriesName(req, p, rest, k);
    } else {
      assert rest == [rest[0]] + rest[1..];
      FirstName(p, dir, rest[1..], k);
    }
  }

  lemma FirstName(p: Disk, dir: Path, rest: seq<Path>, k: Path)
    requires k !in p && k != [] && k <= Key(dir)
    ensures NodeAt(Made(p, [dir] + rest), k) == Some(Dir(dir[|k| - 1]))
  {
    MadeConcat(p, [dir], rest);
    MadeNext(p, [], dir);
    assert [] + [dir] == [dir];
    WithDirsAt(p, dir, k);
    hide WithDirs;
    assert Made(p, []) == p;
    MadeKeeps(Made(p, [dir]), rest, k);
  }

  lemma EntriesName(req: Request, p: Disk, rest: seq<Path>, k: Path)
    requires k !in p && k != [] && k <= Key(["loader", "entries"]) && Modern(req)
    requires forall dir | dir in rest :: dir in RequestDirs(req, |req.items|)
    ensures NameAt(Made(p, rest), k, ["loader", "entries"][|k| - 1]) == ["loader", "entries"][|k| - 1]
  {
    hide Made, RequestDirs;
    RequestDirsShape(req, |req.items|);
    if k in Made(p, rest) {
      MadeName(p, rest, k);
      var dir :| dir in rest && k <= Key(dir) && Made(p, rest)[k] == Dir(dir[|k| - 1]);
      assert |Key(dir)[0]| == |k[0]| == 6;
      assert |dir[0]| == 6;
    }
  }

  lemma PreparedTree(req: Request, d: Disk, e: Disk)
    requires Tree(d) && Tree(e) && Modern(req) && SameScaffold(e, Prepared(req, d))
    ensures Tree(Prepared(req, d))
  {
    var p := Prepared(req, d);
    hide Modern, Prepared;
    forall k | k in p
      ensures Placed(p, k)
    {
      if IsScaffold(k) {
        assert NodeAt(e, k) == NodeAt(p, k);
        assert Placed(e, k);
        if |k| > 1 {
          assert IsScaffold(Parent(k));
          assert NodeAt(e, Parent(k)) == NodeAt(p, Parent(k));
        }
      } else {
        PreparedElsewhere(req, d, k);
        assert Placed(d, k);
        if Parent(k) != [] {
          PreparedKeeps(req, d, Parent(k));
        }
      }
    }
  }

  lemma PreparedKeeps(req: Request, d: Disk, k: Path)
    requires k in d
    ensures NodeAt(Prepared(req, d), k) == NodeAt(d, k)
  {
    MadeKeeps(d, RequestDirs(req, |req.items|), k);
  }

  lemma OnDiskPair(d: Disk, a: string, b: string)
    ensures OnDisk(d, [a, b]) == [NameOf(d, [a]), NameOf(d, [a, b])]
  {
    assert Parent([a, b]) == [a] && Parent([a]) == [];
    assert OnDisk(d, [a]) == OnDisk(d, []) + [NameOf(d, [a])];
  }

  /** The directories an entry uses are spelled as they will be in the end. */
  lemma DirsAtEnd(req: Request, d: Disk, e: Disk, i: nat)
    requires Modern(req) && i < |req.items| && Tree(e) && Tree(Prepared(req, d))
    requires SameScaffold(e, Made(d, RequestDirs(req, i)))
    ensures var namespace := EffectiveSchema(req, req.items[i]).OsNamespace();
            NamespaceDir(e, namespace) == NamespaceDir(Prepared(req, d), namespace)
    ensures EntriesDir(e) == EntriesDir(Prepared(req, d))
  {
    var item, p := req.items[i], Prepared(req, d);
    var namespace := EffectiveSchema(req, item).OsNamespace();
    var dir := ItemDirs(req, item)[0];
    ModernItem(req, item);
    DestShape(req, item, item.entry.image);
    FirstDir(req, item);
    hide WantedDest, Modern, Prepared, Made, ItemDirs, Tree, NamespaceDir, EntriesDir, OnDisk, EffectiveSchema,
         SameScaffold;
    NamesAtEnd(req, d, e, i, dir, "EFI", namespace);
    NamesAtEnd(req, d, e, i, ["loader", "entries"], "loader", "entries");
    NamespaceOnDisk(e, namespace);
    NamespaceOnDisk(p, namespace);
    EntriesOnDisk(e);
    EntriesOnDisk(p);
  }

  lemma FirstDir(req: Request, item: Item)
    requires |WantedDest(req, item, item.entry.image)| == 4
    ensures var dir := ItemDirs(req, item)[0];
            |dir| == 3 && dir[..2] == WantedDest(req, item, item.entry.image)[..2]
  {
    assert item.entry.Assets()[0] == item.entry.image;
    hide WantedDest;
  }

  lemma NamesAtEnd(req: Request, d: Disk, e: Disk, i: nat, dir: Path, a: string, b: string)
    requires Modern(req) && i < |req.items| && SameScaffold(e, Made(d, RequestDirs(req, i)))
    requires dir == ItemDirs(req, req.items[i])[0] || dir == ["loader", "entries"]
    requires 2 <= |dir| <= 3 && dir[..2] == [a, b] && (|a| == 3 || |a| == 6)
    ensures OnDisk(e, [a, b]) == OnDisk(Prepared(req, d), [a, b])
  {
    hide Modern, Prepared, Made, ItemDirs, OnDisk, SameScaffold;
    OnDiskPair(e, a, b);
    OnDiskPair(Prepared(req, d), a, b);
    KeyTake(dir, 1);
    KeyTake(dir, 2);
    assert dir[..1] == [a];
    var j, k := Key([a]), Key([a, b]);
    assert j <= Key(dir) && k <= Key(dir);
    assert |j[0]| == |a| && |k[0]| == |a|;
    SpelledInTheEnd(req, d, e, i, dir, j);
    SpelledInTheEnd(req, d, e, i, dir, k);
    assert dir[0] == dir[..2][0] == a && dir[1] == dir[..2][1] == b;
  }

  /** What an entry copies and writes is worked out as if all directories had been there. */
  lemma JobAtEnd(req: Request, d: Disk, e: Disk, i: nat)
    requires Modern(req) && i < |req.items| && Tree(e) && Tree(Prepared(req, d))
    requires SameScaffold(e, Made(d, RequestDirs(req, i)))
    ensures var job, final := JobOf(req, e, req.items[i]), JobOf(req, Prepared(req, d), req.items[i]);
            job.changeset == final.changeset && job.text == final.text
  {
    var item, p := req.items[i], Prepared(req, d);
    DirsAtEnd(req, d, e, i);
    ModernItem(req, item);
    hide Modern, Prepared, Made, Tree, NamespaceDir, EntriesDir, EffectiveSchema, SameScaffold, GenerateEntry,
         WantedDest;
    var assets := item.entry.Assets();
    forall j | 0 <= j < |assets|
      ensures AssetPair(req, e, item, assets[j]) == AssetPair(req, p, item, assets[j])
    {
      DestDirs(req, e, item, assets[j]);
      DestDirs(req, p, item, assets[j]);
    }
  }

  // ---------------------------------------------------------------- a complete run, entry by entry

  /** The first entries could be installed if all could. */
  lemma {:induction false} InstallsNeed(req: Request, d: Disk, picks: seq<seq<bool>>, i: nat, n: nat)
    requires i <= n && PicksFit(req, picks, n) && AllCan(d, Installs(req, d, picks, n).ops)
    ensures AllCan(d, Installs(req, d, picks, i).ops)
    ensures i < n ==>
              AllCan(DiskAfter(req, d, picks, i),
                     InstallOps(req.host, DiskAfter(req, d, picks, i), JobAt(req, d, picks, i), picks[i]))
  {
    hide Run, AllCan, JobOf, InstallOps;
    if i < n {
      var s := Installs(req, d, picks, n - 1);
      InstallsRun(req, d, picks, n - 1);
      RunConcat(d, s.ops, InstallOps(req.host, s.disk, JobOf(req, s.disk, req.items[n - 1]), picks[n - 1]));
      InstallsNeed(req, d, picks, i, n - 1);
    }
  }

  /** The disk an entry is installed on, in a run that goes through. */
  lemma TurnDisk(req: Request, d: Disk, run: SyncRun, i: nat)
    requires Tree(d) && Modern(req) && CompleteRun(req, d, run) && i <= |req.items|
    ensures Fits(req, run) && PicksFit(req, run.picks, i)
    ensures Tree(DiskAfter(req, d, run.picks, i))
    ensures SameScaffold(DiskAfter(req, d, run.picks, i), Made(d, RequestDirs(req, i)))
  {
    CompletePicks(req, d, run);
    hide CompleteRun, Tree, Modern, Made, RequestDirs, SameScaffold, Installs, AllCan, JobOf, Justified, Installing;
    InstallsNeed(req, d, run.picks, i, |req.items|);
    InstallsInstalling(req, d, run.picks, i);
    assert InstallsJustified(req, d, run.picks, i);
    InstallsScaffold(req, d, run.picks, i);
  }

  /** An entry's turn goes from one disk to the next. */
  ghost predicate IsTurn(host: Host, e: Disk, job: Job, picked: seq<bool>, f: Disk) {
    && Justified(host, e, job.changeset, picked) && HaveDests(job.changeset)
    && AllCan(e, InstallOps(host, e, job, picked)) && f == Run(e, InstallOps(host, e, job, picked))
  }

  lemma Turn(req: Request, d: Disk, run: SyncRun, i: nat)
    requires CompleteRun(req, d, run) && i < |req.items|
    ensures Fits(req, run)
    ensures IsTurn(req.host, DiskAfter(req, d, run.picks, i), JobAt(req, d, run.picks, i), run.picks[i],
                   DiskAfter(req, d, run.picks, i + 1))
  {
    CompletePicks(req, d, run);
    hide CompleteRun, Run, AllCan, JobOf, InstallOps, Justified;
    InstallsNeed(req, d, run.picks, i, |req.items|);
    var s := Installs(req, d, run.picks, i);
    assert Installs(req, d, run.picks, i + 1) == Next(req, s, req.items[i], run.picks[i]);
    assert Justified(req.host, s.disk, JobAt(req, d, run.picks, i).changeset, run.picks[i]);
  }

  lemma CompletePicks(req: Request, d: Disk, run: SyncRun)
    requires CompleteRun(req, d, run)
    ensures Fits(req, run) && InstallsJustified(req, d, run.picks, |req.items|)
    ensures AllCan(d, Installs(req, d, run.picks, |req.items|).ops)
  {
    hide Installs, InstallsJustified, RemovesStale, Cleaned, AllCan, Results;
  }

  /** The end of installing: directories are spelled as prepared. */
  lemma PreparedIsTree(req: Request, d: Disk, run: SyncRun)
    requires Tree(d) && Modern(req) && CompleteRun(req, d, run)
    ensures Fits(req, run) && Tree(Prepared(req, d))
    ensures SameScaffold(InstallPhase(req, d, run).disk, Prepared(req, d))
  {
    TurnDisk(req, d, run, |req.items|);
    hide CompleteRun, Tree, Modern, SameScaffold, Installs, RequestDirs, Made;
    PreparedTree(req, d, InstallPhase(req, d, run).disk);
  }

  // ---------------------------------------------------------------- contents

  /** Part of the job is to put `c` under the key `k`. */
  ghost predicate Asks(host: Host, job: Job, k: Path, c: Content) {
    || (Key(job.conf) == k && job.text == c)
    || (exists pair | pair in job.changeset ::
          Key(pair.dest) == k && ContentOf(host, pair.source) == c && pair.source in host.files)
  }

  lemma InstallAsked(host: Host, e: Disk, job: Job, picked: seq<bool>, f: Disk, k: Path, c: Content)
    requires Tree(e) && IsTurn(host, e, job, picked, f) && Spares(host, job, k, c)
    requires Asks(host, job, k, c) || Holds(e, k, c)
    ensures Holds(f, k, c)
  {
    hide Run, AllCan, Holds, CopiesOps, ConfOps, Tree;
    var needed := Select(job.changeset, picked);
    var copies := CopiesOps(host, e, needed, |needed|);
    RunConcat(e, copies, ConfOps(Run(e, copies), job));
    TreeRun(e, copies);
    ConfOpsHold(Run(e, copies), job, k, c);
    if pair :| pair in job.changeset && Key(pair.dest) == k && ContentOf(host, pair.source) == c
               && pair.source in host.files {
      PairEstablished(host, e, job, picked, pair);
    } else if Holds(e, k, c) {
      InstallKeeps(host, e, job, picked, k, c);
    }
  }

  /** No entry puts anything else than `c` under the key `k`. */
  ghost predicate AllSpare(req: Request, d: Disk, run: SyncRun, k: Path, c: Content)
    requires Fits(req, run)
  {
    forall i | 0 <= i < |req.items| :: Spares(req.host, JobAt(req, d, run.picks, i), k, c)
  }

  /** What some entry asks for is there once it has had its turn. */
  lemma {:induction false} AskedHolds(req: Request, d: Disk, run: SyncRun, n: nat, i: nat, k: Path, c: Content)
    requires Tree(d) && Modern(req) && CompleteRun(req, d, run) && Fits(req, run) && i < n <= |req.items|
    requires AllSpare(req, d, run, k, c) && Asks(req.host, JobAt(req, d, run.picks, i), k, c)
    ensures Holds(DiskAfter(req, d, run.picks, n), k, c)
  {
    hide Tree, Modern, CompleteRun, Installs, JobOf, Spares, Asks, Holds, IsTurn, SameScaffold, Made, RequestDirs;
    if i < n - 1 {
      AskedHolds(req, d, run, n - 1, i, k, c);
    }
    TurnDisk(req, d, run, n - 1);
    Turn(req, d, run, n - 1);
    assert Spares(req.host, JobAt(req, d, run.picks, n - 1), k, c);
    InstallAsked(req.host, DiskAfter(req, d, run.picks, n - 1), JobAt(req, d, run.picks, n - 1), run.picks[n - 1],
                 DiskAfter(req, d, run.picks, n), k, c);
  }

  // ---------------------------------------------------------------- agreement

  /** Configurations that lead to one file system node ask for the same name and the same text. */
  ghost predicate AgreeConfs(req: Request, p: Disk) {
    forall item, other | item in req.items && other in req.items
                         && Key(WantedConf(req, item)) == Key(WantedConf(req, other)) ::
      && NameOf(p, WantedConf(req, item)) == NameOf(p, WantedConf(req, other))
      && JobOf(req, p, item).text == JobOf(req, p, other).text
  }

  lemma AgreeOnConf(req: Request, p: Disk, item: Item, other: Item)
    requires AgreeConfs(req, p) && item in req.items && other in req.items
    requires Key(WantedConf(req, item)) == Key(WantedConf(req, other))
    ensures NameOf(p, WantedConf(req, item)) == NameOf(p, WantedConf(req, other))
    ensures JobOf(req, p, item).text == JobOf(req, p, other).text
  {
    hide NameOf, WantedConf, JobOf;
  }

  // ---------------------------------------------------------------- names of files

  /** Never written, or spelled as wanted, or still what it was. */
  predicate LeafFine(d: Disk, e: Disk, k: Path, name: string) {
    k !in e || e[k].name == name || NodeAt(e, k) == NodeAt(d, k)
  }

  lemma LeafStep(req: Request, d: Disk, e: Disk, item: Item, asset: HashedAsset, op: Op)
    requires Modern(req) && AgreeAssets(req) && item in req.items && asset in item.entry.Assets() && Installing(req, op)
    requires LeafFine(d, e, Key(WantedDest(req, item, asset)), Wish(WantedDest(req, item, asset)))
    ensures LeafFine(d, Apply(e, op), Key(WantedDest(req, item, asset)), Wish(WantedDest(req, item, asset)))
  {
    var w := WantedDest(req, item, asset);
    ModernItem(req, item);
    DestShape(req, item, asset);
    WantedDestIsWanted(req, item, asset);
    hide WantedDest, IsWanted, Modern, AgreeAssets, CopyShape, Staging, Wish;
    if other, b, dest: Path :| other in req.items && b in other.entry.Assets() && |dest| == 4
                               && IsDestOf(req, other, b, dest) && CopyShape(op, dest) {
      StagingNotWanted(req, dest, w);
      if Key(dest) == Key(w) {
        AgreeOn(req, item, asset, other, b);
      }
      hide IsDestOf;
      CopyStep(d, e, op, dest, Key(w), Wish(w));
    }
  }

  lemma CopyStep(d: Disk, e: Disk, op: Op, dest: Path, k: Path, name: string)
    requires |dest| == 4 && CopyShape(op, dest) && LeafFine(d, e, k, name) && |k| == 4
    requires k != Key(Staging(dest)) && (Key(dest) == k ==> Last(dest) == name)
    ensures LeafFine(d, Apply(e, op), k, name)
  {
    hide Staging;
  }

  lemma {:induction false} LeafRun(req: Request, d: Disk, e: Disk, item: Item, asset: HashedAsset, ops: seq<Op>)
    requires Modern(req) && AgreeAssets(req) && item in req.items && asset in item.entry.Assets()
    requires forall op | op in ops :: Installing(req, op)
    requires LeafFine(d, e, Key(WantedDest(req, item, asset)), Wish(WantedDest(req, item, asset)))
    ensures LeafFine(d, Run(e, ops), Key(WantedDest(req, item, asset)), Wish(WantedDest(req, item, asset)))
    decreases |ops|
  {
    hide WantedDest, Modern, AgreeAssets, Installing, LeafFine, Wish, Apply;
    if ops != [] {
      assert ops[0] in ops && forall op | op in ops[1..] :: op in ops;
      LeafStep(req, d, e, item, asset, ops[0]);
      LeafRun(req, d, Apply(e, ops[0]), item, asset, ops[1..]);
    }
  }

  lemma LeafAtEnd(req: Request, d: Disk, run: SyncRun, item: Item, asset: HashedAsset)
    requires Tree(d) && Modern(req) && AgreeAssets(req) && Fits(req, run)
    requires item in req.items && asset in item.entry.Assets()
    ensures var w := WantedDest(req, item, asset); LeafFine(d, InstallPhase(req, d, run).disk, Key(w), Wish(w))
  {
    hide Tree, Modern, AgreeAssets, Installs, WantedDest, Run, Installing;
    var w := WantedDest(req, item, asset);
    assert LeafFine(d, d, Key(w), Wish(w));
    hide LeafFine;
    InstallsInstalling(req, d, run.picks, |req.items|);
    InstallsRun(req, d, run.picks, |req.items|);
    LeafRun(req, d, d, item, asset, InstallPhase(req, d, run).ops);
  }

  // ---------------------------------------------------------------- names of configurations

  predicate IsConfPath(k: Path) {
    |k| == 3 && |k[0]| == 6
  }

  predicate IsAssetPath(p: Path) {
    |p| == 4 && |p[0]| == 3
  }

  lemma {:induction false} CopiesAvoidConf(host: Host, d: Disk, pairs: seq<Pair>, n: nat, k: Path)
    requires HaveDests(pairs) && n <= |pairs| && IsConfPath(k)
    requires forall pair | pair in pairs :: IsAssetPath(pair.dest)
    ensures forall op | op in CopiesOps(host, d, pairs, n) :: !Touches(op, k)
  {
    hide CopyOps, Staging, Touches;
    if n > 0 {
      CopiesAvoidConf(host, d, pairs, n - 1, k);
      var pair := pairs[n - 1];
      assert pair in pairs;
      CopyAvoidsConf(Run(d, CopiesOps(host, d, pairs, n - 1)), ContentOf(host, pair.source), pair.dest, k);
    }
  }

  lemma CopyAvoidsConf(d: Disk, content: Content, dest: Path, k: Path)
    requires IsAssetPath(dest) && IsConfPath(k)
    ensures forall op | op in CopyOps(d, content, dest) :: !Touches(op, k)
  {
    CopyOpsShape(d, content, dest);
    hide CopyOps;
    forall op | op in CopyOps(d, content, dest)
      ensures !Touches(op, k)
    {
      if op.MkDir? && op.path != [] {
        assert |Key(op.path)[0]| == |op.path[0]| == |dest[0]|;
      }
    }
  }

  /** What an entry's turn does to a configuration. */
  lemma ConfTurn(host: Host, e: Disk, job: Job, picked: seq<bool>, f: Disk, k: Path)
    requires Tree(e) && IsTurn(host, e, job, picked, f) && IsConfPath(k) && IsConfPath(job.conf)
    requires forall pair | pair in job.changeset :: IsAssetPath(pair.dest)
    ensures k != Key(job.conf) ==> NodeAt(f, k) == NodeAt(e, k)
    ensures k == Key(job.conf) ==>
              NodeAt(f, k) == Some(File(if k in e then e[k].name else Last(job.conf), job.text))
  {
    hide Run, AllCan, CopiesOps, ConfOps, Tree, Touches;
    var needed := Select(job.changeset, picked);
    var copies := CopiesOps(host, e, needed, |needed|);
    RunConcat(e, copies, ConfOps(Run(e, copies), job));
    TreeRun(e, copies);
    CopiesAvoidConf(host, e, needed, |needed|, k);
    RunFrame(e, copies, k);
    ConfNodes(Run(e, copies), job, k);
  }

  lemma ConfNodes(e: Disk, job: Job, k: Path)
    requires Tree(e) && AllCan(e, ConfOps(e, job)) && IsConfPath(k)
    ensures var f := Run(e, ConfOps(e, job));
            && (k != Key(job.conf) ==> NodeAt(f, k) == NodeAt(e, k))
            && (k == Key(job.conf) ==>
                  && job.conf != []
                  && NodeAt(f, k) == Some(File(if k in e then e[k].name else Last(job.conf), job.text)))
  {
    var dirs := if Exists(e, Key(EntriesDir(e))) then [] else MkDirs(EntriesDir(e));
    var write := Write(job.conf, job.text);
    RunConcat(e, dirs, [write]);
    var w := Run(e, dirs);
    RunOne(w, write);
    EntriesKey(e);
    if dirs != [] {
      MkDirsRun(e, EntriesDir(e));
      WithDirsAt(e, EntriesDir(e), k);
    }
    hide EntriesDir, Run, AllCan, MkDirs, WithDirs;
    assert NodeAt(w, k) == NodeAt(e, k);
  }

  lemma JobConfLast(req: Request, e: Disk, item: Item)
    requires Tree(e)
    ensures JobOf(req, e, item).conf != []
    ensures Last(JobOf(req, e, item).conf) == NameAt(e, Key(WantedConf(req, item)), ConfName(req, item))
  {
    ConfPathKey(req, e, item);
    EntriesKey(e);
    KeyAppend(EntriesDir(e), [ConfName(req, item)]);
    KeyAppend(["loader", "entries"], [ConfName(req, item)]);
    assert ["loader", "entries"] + [ConfName(req, item)] == WantedConf(req, item);
    hide EntriesDir, GenerateEntry, AssetPairs, ConfName;
  }

  lemma JobShape(req: Request, e: Disk, item: Item)
    requires Tree(e) && Modern(req) && item in req.items
    ensures var job := JobOf(req, e, item);
            IsConfPath(job.conf) && Key(job.conf) == Key(WantedConf(req, item))
            && forall pair | pair in job.changeset :: IsAssetPath(pair.dest)
  {
    ModernItem(req, item);
    JobConfShape(req, e, e, item);
    hide JobOf, Modern, EffectiveSchema, WantedConf;
    forall pair | pair in JobOf(req, e, item).changeset
      ensures IsAssetPath(pair.dest)
    {
      var asset := JobPair(req, e, item, pair);
      DestShape(req, item, asset);
      hide WantedDest;
      assert |pair.dest[0]| == |Key(pair.dest)[0]| == |Key(WantedDest(req, item, asset))[0]| == 3;
    }
  }

  /** Spelled as it will be in the end, if it is there; and there, if it was at the start. */
  predicate ConfFine(d: Disk, e: Disk, k: Path, name: string) {
    (k in e ==> e[k].name == name) && (k in d ==> k in e)
  }

  lemma ConfFineTurn(req: Request, p: Disk, d: Disk, e: Disk, other: Item, picked: seq<bool>, f: Disk, item: Item)
    requires Tree(e) && Modern(req) && AgreeConfs(req, p) && other in req.items && item in req.items
    requires IsTurn(req.host, e, JobOf(req, e, other), picked, f)
    requires NodeAt(p, Key(WantedConf(req, item))) == NodeAt(d, Key(WantedConf(req, item)))
    requires ConfFine(d, e, Key(WantedConf(req, item)), NameOf(p, WantedConf(req, item)))
    ensures ConfFine(d, f, Key(WantedConf(req, item)), NameOf(p, WantedConf(req, item)))
  {
    var k := Key(WantedConf(req, item));
    hide Tree, Modern, AgreeConfs, JobOf, IsTurn, WantedConf, NameOf;
    JobShape(req, e, other);
    ConfKeyShape(req, item);
    ConfTurn(req.host, e, JobOf(req, e, other), picked, f, k);
    JobConfLast(req, e, other);
    if k == Key(WantedConf(req, other)) && k !in e {
      AgreeOnConf(req, p, item, other);
      NameOfAbsent(req, p, other);
    }
  }

  /** A configuration is spelled as it will be in the end from the moment it is there. */
  lemma {:induction false} ConfNamed(req: Request, d: Disk, run: SyncRun, n: nat, item: Item)
    requires Tree(d) && Modern(req) && CompleteRun(req, d, run) && Fits(req, run) && n <= |req.items|
    requires AgreeConfs(req, Prepared(req, d)) && item in req.items
    ensures ConfFine(d, DiskAfter(req, d, run.picks, n), Key(WantedConf(req, item)),
                     NameOf(Prepared(req, d), WantedConf(req, item)))
  {
    hide Tree, Modern, CompleteRun, AgreeConfs, Installs, JobOf, IsTurn, Made, RequestDirs, SameScaffold,
         WantedConf, Prepared, ConfFine, NameOf;
    ConfUnprepared(req, d, item);
    StartDisk(req, d, run.picks);
    if n > 0 {
      ConfNamed(req, d, run, n - 1, item);
      TurnDisk(req, d, run, n - 1);
      Turn(req, d, run, n - 1);
      ConfFineTurn(req, Prepared(req, d), d, DiskAfter(req, d, run.picks, n - 1), req.items[n - 1], run.picks[n - 1],
                   DiskAfter(req, d, run.picks, n), item);
    }
  }

  lemma StartDisk(req: Request, d: Disk, picks: seq<seq<bool>>)
    requires PicksFit(req, picks, 0)
    ensures DiskAfter(req, d, picks, 0) == d
  {
  }

  lemma ConfUnprepared(req: Request, d: Disk, item: Item)
    requires Modern(req)
    ensures NodeAt(Prepared(req, d), Key(WantedConf(req, item))) == NodeAt(d, Key(WantedConf(req, item)))
    ensures ConfFine(d, d, Key(WantedConf(req, item)), NameOf(Prepared(req, d), WantedConf(req, item)))
  {
    assert !IsScaffold(Key(WantedConf(req, item)));
    hide Modern, Prepared, ConfName;
    PreparedElsewhere(req, d, Key(WantedConf(req, item)));
  }

  lemma ConfKeyShape(req: Request, item: Item)
    ensures IsConfPath(Key(WantedConf(req, item)))
  {
  }

  lemma NameOfAbsent(req: Request, p: Disk, item: Item)
    requires Key(WantedConf(req, item)) !in p
    ensures NameOf(p, WantedConf(req, item)) == ConfName(req, item)
  {
  }

  lemma AssetSpared(req: Request, d: Disk, run: SyncRun, item: Item, asset: HashedAsset)
    requires Tree(d) && Modern(req) && AgreeAssets(req) && CompleteRun(req, d, run) && Fits(req, run)
    requires item in req.items && asset in item.entry.Assets()
    ensures AllSpare(req, d, run, Key(WantedDest(req, item, asset)), ContentFor(req, item, asset))
  {
    hide Tree, Modern, AgreeAssets, CompleteRun, Installs, JobOf, WantedDest, IsWanted, Staging, SameScaffold,
         Made, RequestDirs, ContentFor, EffectiveSchema, Wish;
    var w := WantedDest(req, item, asset);
    ModernItem(req, item);
    DestShape(req, item, asset);
    WantedDestIsWanted(req, item, asset);
    forall i | 0 <= i < |req.items|
      ensures Spares(req.host, JobAt(req, d, run.picks, i), Key(w), ContentFor(req, item, asset))
    {
      TurnDisk(req, d, run, i);
      JobSparesAsset(req, DiskAfter(req, d, run.picks, i), req.items[i], item, asset);
    }
  }

  lemma JobSparesAsset(req: Request, e: Disk, other: Item, item: Item, asset: HashedAsset)
    requires Tree(e) && Modern(req) && AgreeAssets(req) && other in req.items
    requires item in req.items && asset in item.entry.Assets()
    requires |WantedDest(req, item, asset)| == 4 && IsWanted(req, WantedDest(req, item, asset))
    ensures Spares(req.host, JobOf(req, e, other), Key(WantedDest(req, item, asset)), ContentFor(req, item, asset))
  {
    var w, job := WantedDest(req, item, asset), JobOf(req, e, other);
    ModernItem(req, other);
    JobShape(req, e, other);
    hide Tree, Modern, AgreeAssets, JobOf, WantedDest, IsWanted, Staging, EffectiveSchema, Wish;
    forall pair | pair in job.changeset
      ensures pair.dest != [] && Key(Staging(pair.dest)) != Key(w)
      ensures Key(pair.dest) == Key(w) ==> ContentOf(req.host, pair.source) == ContentFor(req, item, asset)
    {
      var b := JobPair(req, e, other, pair);
      StagingNotWanted(req, pair.dest, w);
      if Key(pair.dest) == Key(w) {
        AgreeOn(req, item, asset, other, b);
      }
    }
  }

  lemma ConfSpared(req: Request, d: Disk, run: SyncRun, item: Item)
    requires Tree(d) && Modern(req) && CompleteRun(req, d, run) && Fits(req, run) && item in req.items
    requires AgreeConfs(req, Prepared(req, d))
    ensures AllSpare(req, d, run, Key(WantedConf(req, item)), JobOf(req, Prepared(req, d), item).text)
  {
    hide Tree, Modern, AgreeConfs, CompleteRun, Installs, JobOf, WantedConf, Staging, SameScaffold, Made,
         RequestDirs, Prepared;
    var k, p := Key(WantedConf(req, item)), Prepared(req, d);
    ConfKeyShape(req, item);
    PreparedIsTree(req, d, run);
    forall i | 0 <= i < |req.items|
      ensures Spares(req.host, JobAt(req, d, run.picks, i), k, JobOf(req, p, item).text)
    {
      TurnDisk(req, d, run, i);
      var e, other := DiskAfter(req, d, run.picks, i), req.items[i];
      JobShape(req, e, other);
      JobAtEnd(req, d, e, i);
      if Key(WantedConf(req, other)) == k {
        AgreeOnConf(req, p, item, other);
      }
      forall pair | pair in JobOf(req, e, other).changeset
        ensures pair.dest != [] && Key(Staging(pair.dest)) != k && Key(pair.dest) != k
      {
        StagingDiffers(pair.dest);
      }
    }
  }

  /** After the first `n` entries everything they asked for is there: no entry disturbs another. */
  lemma EntriesHold(req: Request, d: Disk, run: SyncRun, n: nat, i: nat)
    requires Tree(d) && Modern(req) && Genuine(req) && AgreeAssets(req) && AgreeConfs(req, Prepared(req, d))
    requires CompleteRun(req, d, run) && Fits(req, run) && i < n <= |req.items|
    ensures JobHolds(req.host, DiskAfter(req, d, run.picks, n), JobAt(req, d, run.picks, i))
  {
    hide Tree, Modern, Genuine, AgreeAssets, AgreeConfs, CompleteRun, Installs, JobOf, WantedDest, WantedConf, Holds,
         SameScaffold, Made, RequestDirs, AllSpare, Prepared, EffectiveSchema;
    var item, e := req.items[i], DiskAfter(req, d, run.picks, i);
    var job := JobAt(req, d, run.picks, i);
    TurnDisk(req, d, run, i);
    PreparedIsTree(req, d, run);
    JobAtEnd(req, d, e, i);
    JobShape(req, e, item);
    ConfSpared(req, d, run, item);
    AskedHolds(req, d, run, n, i, Key(job.conf), job.text);
    ModernItem(req, item);
    forall pair | pair in job.changeset
      ensures Holds(DiskAfter(req, d, run.picks, n), Key(pair.dest), ContentOf(req.host, pair.source))
    {
      var asset := JobPair(req, e, item, pair);
      GenuineAsset(req, item, asset);
      AssetSpared(req, d, run, item, asset);
      AskedHolds(req, d, run, n, i, Key(pair.dest), ContentOf(req.host, pair.source));
    }
  }

  lemma GenuineAsset(req: Request, item: Item, asset: HashedAsset)
    requires Genuine(req) && item in req.items && asset in item.entry.Assets()
    ensures SourceOf(item, asset) in req.host.files
  {
    assert IsGenuine(req, item, asset);
  }

  /** At the end of installing every asset's content is there. */
  lemma AssetInstalled(req: Request, d: Disk, run: SyncRun, item: Item, asset: HashedAsset)
    requires Tree(d) && Modern(req) && Genuine(req) && AgreeAssets(req) && CompleteRun(req, d, run) && Fits(req, run)
    requires item in req.items && asset in item.entry.Assets()
    ensures Holds(InstallPhase(req, d, run).disk, Key(WantedDest(req, item, asset)), ContentFor(req, item, asset))
  {
    hide Tree, Modern, AgreeAssets, CompleteRun, Installs, JobOf, WantedDest, Holds, SameScaffold, Made,
         RequestDirs, AssetPair, AllSpare;
    var i :| 0 <= i < |req.items| && req.items[i] == item;
    AssetSpared(req, d, run, item, asset);
    TurnDisk(req, d, run, i);
    PairOfAsset(req, DiskAfter(req, d, run.picks, i), item, asset);
    assert IsGenuine(req, item, asset);
    hide Genuine;
    AskedHolds(req, d, run, |req.items|, i, Key(WantedDest(req, item, asset)), ContentFor(req, item, asset));
  }

  /** At the end of installing every configuration is there, spelled as it will be in the end. */
  lemma ConfInstalled(req: Request, d: Disk, run: SyncRun, item: Item)
    requires Tree(d) && Modern(req) && AgreeConfs(req, Prepared(req, d)) && CompleteRun(req, d, run) && Fits(req, run)
    requires item in req.items
    ensures var p := Prepared(req, d);
            NodeAt(InstallPhase(req, d, run).disk, Key(WantedConf(req, item)))
              == Some(File(NameOf(p, WantedConf(req, item)), JobOf(req, p, item).text))
  {
    hide Tree, Modern, AgreeConfs, CompleteRun, Installs, JobOf, WantedConf, SameScaffold, Made, RequestDirs,
         Prepared, AllSpare, NameOf;
    var i :| 0 <= i < |req.items| && req.items[i] == item;
    ConfSpared(req, d, run, item);
    TurnDisk(req, d, run, i);
    PreparedIsTree(req, d, run);
    JobAtEnd(req, d, DiskAfter(req, d, run.picks, i), i);
    JobShape(req, DiskAfter(req, d, run.picks, i), item);
    AskedHolds(req, d, run, |req.items|, i, Key(WantedConf(req, item)), JobOf(req, Prepared(req, d), item).text);
    ConfNamed(req, d, run, |req.items|, item);
  }
}
