/** What installing changes, whatever the volume held, and what cleaning up leaves. */
module Effects {
  import opened Text
  import opened Fat
  import opened AtomicCopy
  import opened Compare
  import opened Assets
  import opened Conf
  import opened SyncPlan
  import opened Loaders
  import opened Wanted
  import opened Convergence
  import opened Outcome
  import opened Frame

  // ---------------------------------------------------------------- agreement

  function ContentFor(req: Request, item: Item, asset: HashedAsset): Content {
    ContentOf(req.host, SourceOf(item, asset))
  }

  /** Whatever leads to the file system node of an asset asks for the same name and the same content. */
  ghost predicate AgreesAt(req: Request, item: Item, asset: HashedAsset) {
    forall other, b | other in req.items && b in other.entry.Assets()
                      && Key(WantedDest(req, item, asset)) == Key(WantedDest(req, other, b)) ::
      && Wish(WantedDest(req, item, asset)) == Wish(WantedDest(req, other, b))
      && ContentFor(req, item, asset) == ContentFor(req, other, b)
  }

  ghost predicate AgreeAssets(req: Request) {
    forall item, asset | item in req.items && asset in item.entry.Assets() :: AgreesAt(req, item, asset)
  }

  lemma AgreesEach(req: Request, item: Item, asset: HashedAsset)
    requires AgreeAssets(req) && item in req.items && asset in item.entry.Assets()
    ensures AgreesAt(req, item, asset)
  {
    hide AgreesAt;
  }

  lemma AgreeOn(req: Request, item: Item, asset: HashedAsset, other: Item, b: HashedAsset)
    requires AgreeAssets(req) && Key(WantedDest(req, item, asset)) == Key(WantedDest(req, other, b))
    requires item in req.items && asset in item.entry.Assets() && other in req.items && b in other.entry.Assets()
    ensures Wish(WantedDest(req, item, asset)) == Wish(WantedDest(req, other, b))
    ensures ContentFor(req, item, asset) == ContentFor(req, other, b)
  {
    hide WantedDest, Wish;
    assert AgreesAt(req, item, asset);
  }

  // ---------------------------------------------------------------- what installing does

  /** An operation of installing a request that follows no legacy schema. */
  ghost predicate Installing(req: Request, op: Op) {
    || op.Barrier?
    || (op.MkDir? && |op.path| <= 3)
    || (op.Write? && |op.path| == 3 && |op.path[0]| == 6)
    || (exists item, asset, dest: Path | item in req.items && asset in item.entry.Assets() && |dest| == 4 ::
          IsDestOf(req, item, asset, dest) && CopyShape(op, dest))
  }

  /** A destination, however the volume spells its directories; its last component is as wanted. */
  ghost predicate IsDestOf(req: Request, item: Item, asset: HashedAsset, dest: Path) {
    Key(dest) == Key(WantedDest(req, item, asset)) && dest != [] && Last(dest) == Wish(WantedDest(req, item, asset))
  }

  lemma PairDest(req: Request, d: Disk, item: Item, asset: HashedAsset)
    requires Tree(d) && !EffectiveSchema(req, item).Legacy?
    ensures |AssetPair(req, d, item, asset).dest| == 4
    ensures IsDestOf(req, item, asset, AssetPair(req, d, item, asset).dest)
  {
    var w, name := WantedDest(req, item, asset), asset.InstalledName(EffectiveSchema(req, item), req.table);
    AssetPairKey(req, d, item, asset);
    DestShape(req, item, asset);
    assert name == w[2..];
    assert |name| == 2;
    hide HashedAsset.InstalledName, NamespaceDir;
    assert Last(AssetPair(req, d, item, asset).dest) == name[1];
  }

  lemma JobPair(req: Request, d: Disk, item: Item, pair: Pair) returns (asset: HashedAsset)
    requires Tree(d) && !EffectiveSchema(req, item).Legacy? && pair in JobOf(req, d, item).changeset
    ensures asset in item.entry.Assets() && pair == AssetPair(req, d, item, asset)
    ensures |pair.dest| == 4 && IsDestOf(req, item, asset, pair.dest) && pair.source == SourceOf(item, asset)
  {
    var changeset, assets := JobOf(req, d, item).changeset, item.entry.Assets();
    var i :| 0 <= i < |changeset| && changeset[i] == pair;
    asset := assets[i];
    PairDest(req, d, item, asset);
    hide GenerateEntry, WantedDest, HashedAsset.InstalledName;
  }

  lemma {:induction false} CopiesInstalling(req: Request, d: Disk, e: Disk, item: Item, pairs: seq<Pair>, n: nat)
    requires Tree(e) && !EffectiveSchema(req, item).Legacy? && item in req.items
    requires HaveDests(pairs) && n <= |pairs| && forall pair | pair in pairs :: pair in JobOf(req, e, item).changeset
    ensures forall op | op in CopiesOps(req.host, d, pairs, n) :: Installing(req, op)
  {
    hide CopyOps, CopyShape, Tree, JobOf, IsDestOf, EffectiveSchema;
    if n > 0 {
      CopiesInstalling(req, d, e, item, pairs, n - 1);
      var before := CopiesOps(req.host, d, pairs, n - 1);
      var pair := pairs[n - 1];
      assert pair in pairs;
      var asset := JobPair(req, e, item, pair);
      CopyOpsShape(Run(d, before), ContentOf(req.host, pair.source), pair.dest);
      assert forall op | op in CopyOps(Run(d, before), ContentOf(req.host, pair.source), pair.dest) ::
          CopyShape(op, pair.dest);
    }
  }

  lemma ConfInstalling(req: Request, d: Disk, e: Disk, item: Item)
    requires Tree(d) && Tree(e)
    ensures forall op | op in ConfOps(d, JobOf(req, e, item)) :: Installing(req, op)
  {
    var job := JobOf(req, e, item);
    EntriesKey(d);
    ConfPathKey(req, e, item);
    hide JobOf, EntriesDir;
    assert |job.conf| == 3;
    assert |job.conf[0]| == |Key(job.conf)[0]| == 6;
    forall op | op in MkDirs(EntriesDir(d))
      ensures op.MkDir? && |op.path| <= 3
    {
      MkDirsShape(EntriesDir(d), op);
    }
  }

  lemma {:induction false} InstallsInstalling(req: Request, d: Disk, picks: seq<seq<bool>>, n: nat)
    requires Tree(d) && Modern(req) && PicksFit(req, picks, n)
    ensures forall op | op in Installs(req, d, picks, n).ops :: Installing(req, op)
    ensures Tree(DiskAfter(req, d, picks, n))
  {
    hide JobOf, InstallOps, Tree, Modern, Installing, EffectiveSchema;
    if n > 0 {
      InstallsInstalling(req, d, picks, n - 1);
      ModernAt(req, n - 1);
      var s := Installs(req, d, picks, n - 1);
      InstallInstalling(req, s.disk, req.items[n - 1], picks[n - 1]);
      TreeRun(s.disk, InstallOps(req.host, s.disk, JobOf(req, s.disk, req.items[n - 1]), picks[n - 1]));
    }
  }

  lemma InstallInstalling(req: Request, e: Disk, item: Item, picked: seq<bool>)
    requires Tree(e) && !EffectiveSchema(req, item).Legacy? && item in req.items
    requires |picked| == |item.entry.Assets()|
    ensures forall op | op in InstallOps(req.host, e, JobOf(req, e, item), picked) :: Installing(req, op)
  {
    hide JobOf, Tree, Installing, EffectiveSchema, CopiesOps, ConfOps, Run;
    var job := JobOf(req, e, item);
    var needed := Select(job.changeset, picked);
    var copies := CopiesOps(req.host, e, needed, |needed|);
    CopiesInstalling(req, e, e, item, needed, |needed|);
    TreeRun(e, copies);
    ConfInstalling(req, Run(e, copies), e, item);
  }

  // ---------------------------------------------------------------- misspelled directories stay

  lemma SparesShort(req: Request, op: Op, k: Path)
    requires Installing(req, op) && |k| == 3 && |k[0]| == 3
    ensures op.MkDir? || !Touches(op, k)
  {
    hide IsDestOf;
    assert op.Write? && |op.path| == 3 ==> |Key(op.path)[0]| == |op.path[0]|;
  }

  /** Installing changes no name of a kernel directory. */
  lemma DirNameStays(req: Request, d: Disk, picks: seq<seq<bool>>, n: nat, k: Path)
    requires Tree(d) && Modern(req) && PicksFit(req, picks, n) && |k| == 3 && |k[0]| == 3 && k in d
    ensures NodeAt(DiskAfter(req, d, picks, n), k) == NodeAt(d, k)
  {
    hide Tree, Modern, Installing, Installs, Run, Touches;
    InstallsInstalling(req, d, picks, n);
    InstallsRun(req, d, picks, n);
    var ops := Installs(req, d, picks, n).ops;
    forall op | op in ops
      ensures op.MkDir? || !Touches(op, k)
    {
      SparesShort(req, op, k);
    }
    MostlyMkDirs(d, ops, k, true);
  }

  // ---------------------------------------------------------------- identical files stay

  lemma {:induction false} CopiesAvoid(host: Host, d: Disk, pairs: seq<Pair>, n: nat, k: Path)
    requires HaveDests(pairs) && n <= |pairs| && |k| == 4
    requires forall pair | pair in pairs ::
               |pair.dest| == 4 && Key(pair.dest) != k && Key(Staging(pair.dest)) != k
    ensures forall op | op in CopiesOps(host, d, pairs, n) :: !Touches(op, k)
  {
    hide CopyOps, Staging;
    if n > 0 {
      CopiesAvoid(host, d, pairs, n - 1, k);
      var pair := pairs[n - 1];
      assert pair in pairs;
      CopyOpsShape(Run(d, CopiesOps(host, d, pairs, n - 1)), ContentOf(host, pair.source), pair.dest);
    }
  }

  /** Installing an entry does not touch a file that already holds what every entry wants there. */
  lemma IdenticalUntouched(req: Request, e: Disk, item: Item, asset: HashedAsset, other: Item, picked: seq<bool>)
    requires Tree(e) && Modern(req) && Genuine(req) && AgreesAt(req, item, asset)
    requires item in req.items && asset in item.entry.Assets() && other in req.items
    requires Exact(req.host, e, JobOf(req, e, other).changeset, picked)
    requires Holds(e, Key(WantedDest(req, item, asset)), ContentFor(req, item, asset))
    ensures forall op | op in InstallOps(req.host, e, JobOf(req, e, other), picked) ::
              !Touches(op, Key(WantedDest(req, item, asset)))
  {
    var k, job := Key(WantedDest(req, item, asset)), JobOf(req, e, other);
    ModernItem(req, other);
    hide JobOf, Tree, Modern, Genuine, AgreesAt, WantedDest, Differs, IsDestOf, EffectiveSchema, Touches;
    forall pair | pair in Select(job.changeset, picked)
      ensures Key(pair.dest) != k
    {
      var b := JobPair(req, e, other, pair);
      PickedDiffers(req.host, e, job.changeset, picked, pair);
      DifferingElsewhere(req, e, item, asset, other, b, pair);
    }
    InstallAvoids(req, e, item, asset, other, picked);
  }

  /** Installing an entry does not touch an asset that none of its copies leads to. */
  lemma InstallAvoids(req: Request, e: Disk, item: Item, asset: HashedAsset, other: Item, picked: seq<bool>)
    requires Tree(e) && Modern(req) && item in req.items && asset in item.entry.Assets() && other in req.items
    requires |picked| == |other.entry.Assets()|
    requires forall pair | pair in Select(JobOf(req, e, other).changeset, picked) ::
               Key(pair.dest) != Key(WantedDest(req, item, asset))
    ensures forall op | op in InstallOps(req.host, e, JobOf(req, e, other), picked) ::
              !Touches(op, Key(WantedDest(req, item, asset)))
  {
    var k, job := Key(WantedDest(req, item, asset)), JobOf(req, e, other);
    ModernItem(req, item);
    ModernItem(req, other);
    DestShape(req, item, asset);
    WantedDestIsWanted(req, item, asset);
    hide JobOf, Tree, Modern, WantedDest, IsWanted, Staging, Run, IsDestOf, EffectiveSchema, Touches;
    var needed := Select(job.changeset, picked);
    forall pair | pair in needed
      ensures |pair.dest| == 4 && Key(Staging(pair.dest)) != k
    {
      var b := JobPair(req, e, other, pair);
      StagingNotWanted(req, pair.dest, WantedDest(req, item, asset));
    }
    CopiesAvoid(req.host, e, needed, |needed|, k);
    var copies := CopiesOps(req.host, e, needed, |needed|);
    TreeRun(e, copies);
    ConfInstalling(req, Run(e, copies), e, other);
    forall op | op in ConfOps(Run(e, copies), job)
      ensures !Touches(op, k)
    {
      ConfOpsShort(req, Run(e, copies), e, other, op, k);
    }
  }

  lemma ConfOpsShort(req: Request, d: Disk, e: Disk, item: Item, op: Op, k: Path)
    requires Tree(d) && Tree(e) && op in ConfOps(d, JobOf(req, e, item)) && |k| == 4
    ensures !Touches(op, k)
  {
    var job := JobOf(req, e, item);
    EntriesKey(d);
    ConfPathKey(req, e, item);
    hide JobOf, EntriesDir;
    if op in MkDirs(EntriesDir(d)) {
      MkDirsShape(EntriesDir(d), op);
    }
  }

  lemma {:induction false} PickedDiffers(host: Host, d: Disk, pairs: seq<Pair>, picked: seq<bool>, pair: Pair)
    requires Exact(host, d, pairs, picked) && pair in Select(pairs, picked)
    ensures Differs(host, d, pair)
  {
    hide Differs;
    if !picked[0] || pair != pairs[0] {
      PickedDiffers(host, d, pairs[1..], picked[1..], pair);
    }
  }

  /** A pair that differs leads elsewhere than to a file that holds what is wanted. */
  lemma DifferingElsewhere(req: Request, e: Disk, item: Item, asset: HashedAsset, other: Item, b: HashedAsset,
                           pair: Pair)
    requires AgreesAt(req, item, asset) && Genuine(req)
    requires item in req.items && asset in item.entry.Assets() && other in req.items && b in other.entry.Assets()
    requires IsDestOf(req, other, b, pair.dest) && pair.source == SourceOf(other, b) && Differs(req.host, e, pair)
    requires Holds(e, Key(WantedDest(req, item, asset)), ContentFor(req, item, asset))
    ensures Key(pair.dest) != Key(WantedDest(req, item, asset))
  {
    hide WantedDest, Wish;
    assert IsGenuine(req, other, b);
  }

  lemma {:induction false} IdenticalStays(req: Request, d: Disk, picks: seq<seq<bool>>, n: nat,
                                          item: Item, asset: HashedAsset)
    requires Tree(d) && Modern(req) && Genuine(req) && AgreesAt(req, item, asset)
    requires PicksFit(req, picks, n) && InstallsExact(req, d, picks, n)
    requires item in req.items && asset in item.entry.Assets()
    requires Holds(d, Key(WantedDest(req, item, asset)), ContentFor(req, item, asset))
    ensures NodeAt(DiskAfter(req, d, picks, n), Key(WantedDest(req, item, asset)))
         == NodeAt(d, Key(WantedDest(req, item, asset)))
  {
    hide JobOf, Tree, Modern, Genuine, AgreesAt, WantedDest, Run, Touches, InstallOps, Exact, Installing,
         ContentFor;
    if n > 0 {
      IdenticalStays(req, d, picks, n - 1, item, asset);
      InstallsInstalling(req, d, picks, n - 1);
      var e := DiskAfter(req, d, picks, n - 1);
      IdenticalUntouched(req, e, item, asset, req.items[n - 1], picks[n - 1]);
      RunFrame(e, InstallOps(req.host, e, JobOf(req, e, req.items[n - 1]), picks[n - 1]),
               Key(WantedDest(req, item, asset)));
    }
  }

  // ---------------------------------------------------------------- what cleaning up leaves

  /** What an entry accounts for is an asset, its directory and file spelled as wanted. */
  lemma AccountedFor(req: Request, d: Disk, run: SyncRun, r: InstallResult, q: Path)
    returns (item: Item, asset: HashedAsset)
    requires Tree(d) && Modern(req) && Fits(req, run) && r in Results(req, d, run) && q in r.kernelFiles
    ensures item in req.items && asset in item.entry.Assets() && Key(q) == Key(WantedDest(req, item, asset))
    ensures |q| == 4 && |WantedDest(req, item, asset)| == 4
    ensures q[2] == WantedDest(req, item, asset)[2] && q[3] == WantedDest(req, item, asset)[3]
  {
    hide JobOf, Tree, Modern, WantedDest, Installs, EffectiveSchema;
    var results := Results(req, d, run);
    var i :| 0 <= i < |results| && results[i] == r;
    InstallsInstalling(req, d, run.picks, i);
    ModernAt(req, i);
    item := req.items[i];
    asset := DestAsset(req, DiskAfter(req, d, run.picks, i), item, q);
  }

  lemma DestAsset(req: Request, d: Disk, item: Item, q: Path) returns (asset: HashedAsset)
    requires Tree(d) && !EffectiveSchema(req, item).Legacy? && q in Dests(JobOf(req, d, item).changeset)
    ensures asset in item.entry.Assets() && Key(q) == Key(WantedDest(req, item, asset))
    ensures |q| == 4 && |WantedDest(req, item, asset)| == 4
    ensures q[2] == WantedDest(req, item, asset)[2] && q[3] == WantedDest(req, item, asset)[3]
  {
    var changeset := JobOf(req, d, item).changeset;
    var i :| 0 <= i < |changeset| && changeset[i].dest == q;
    asset := item.entry.Assets()[i];
    assert changeset[i] == AssetPair(req, d, item, asset);
    AssetPairKey(req, d, item, asset);
    DestShape(req, item, asset);
    NamespaceKey(d, EffectiveSchema(req, item).OsNamespace());
    hide HashedAsset.InstalledName, NamespaceDir, GenerateEntry;
    var name := asset.InstalledName(EffectiveSchema(req, item), req.table);
    assert name == WantedDest(req, item, asset)[2..];
  }

  lemma TwoPhases(req: Request, d: Disk, run: SyncRun)
    requires Tree(d) && Modern(req) && CompleteRun(req, d, run)
    ensures Fits(req, run)
    ensures var e, results := InstallPhase(req, d, run).disk, Results(req, d, run);
            && Tree(e) && Final(req, d, run) == Run(e, CleanupOps(run))
            && (forall op | op in CleanupOps(run) :: IsRemoval(op))
            && Cleaned(e, Final(req, d, run), req.schema, results)
            && RemovesStale(e, req.schema, results, run)
  {
    hide Tree, Modern, Installs, Run, AllCan, InstallsJustified, Cleaned, RemovesStale, Results, CleanupOps;
    var e := InstallPhase(req, d, run).disk;
    InstallsRun(req, d, run.picks, |req.items|);
    InstallsInstalling(req, d, run.picks, |req.items|);
    RunConcat(d, InstallPhase(req, d, run).ops, CleanupOps(run));
    CleanupRemoves(e, req.schema, Results(req, d, run), run);
  }
}
