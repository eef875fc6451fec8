/** After a synchronisation, listing what is installed gives back the kernels that were synchronised. */
module Rediscovery {
  import opened Text
  import opened Fat
  import opened Volumes
  import opened AtomicCopy
  import opened Compare
  import opened Entries
  import opened Assets
  import opened SyncPlan
  import opened Loaders
  import opened Wanted
  import opened Convergence
  import opened Outcome
  import opened Exactness
  import opened Idempotence
  import opened Effects
  import opened Scaffold
  import opened Turns
  import opened Recovery
  import opened Removal
  import opened Order
  import opened Discovery
  import opened Overrides
  import opened Installed
  import opened RoundTrip

  // ---------------------------------------------------------------- directories inside kernel directories

  lemma NestedStep(req: Request, d: Disk, op: Op, k: Path)
    requires Installing(req, op) && |k| == 4 && IsDir(Apply(d, op), k)
    ensures IsDir(d, k)
  {
    hide IsDestOf, Staging;
  }

  lemma {:induction false} NestedRun(req: Request, d: Disk, ops: seq<Op>, k: Path)
    requires (forall op | op in ops :: Installing(req, op)) && |k| == 4 && IsDir(Run(d, ops), k)
    ensures IsDir(d, k)
    decreases |ops|
  {
    hide Installing, Apply;
    if ops != [] {
      assert ops[0] in ops && forall op | op in ops[1..] :: op in ops;
      NestedRun(req, Apply(d, ops[0]), ops[1..], k);
      NestedStep(req, d, ops[0], k);
    }
  }

  predicate KeepsDir(op: Op, k: Path) {
    op.RemoveTree? ==> !(Key(op.path) <= k)
  }

  /** Only the removal of a tree takes directories away. */
  lemma {:induction false} DirStays(d: Disk, ops: seq<Op>, k: Path)
    requires k in d && d[k].Dir? && forall op | op in ops :: KeepsDir(op, k)
    ensures NodeAt(Run(d, ops), k) == Some(d[k])
    decreases |ops|
  {
    if ops != [] {
      assert ops[0] in ops && forall op | op in ops[1..] :: op in ops;
      DirStaysOnce(d, ops[0], k);
      hide Apply;
      DirStays(Apply(d, ops[0]), ops[1..], k);
    }
  }

  lemma DirStaysOnce(d: Disk, op: Op, k: Path)
    requires k in d && d[k].Dir? && KeepsDir(op, k)
    ensures k in Apply(d, op) && Apply(d, op)[k] == d[k]
  {
  }

  lemma InstallKeepsDir(req: Request, op: Op, k: Path)
    requires Installing(req, op)
    ensures KeepsDir(op, k)
  {
    hide IsDestOf;
  }

  /** A directory inside a kernel directory is neither made nor renamed by a run. */
  lemma NestedIsOld(req: Request, d: Disk, run: SyncRun, k: Path)
    requires Tree(d) && Modern(req) && CompleteRun(req, d, run) && |k| == 4 && |k[0]| == 3
    requires k in Final(req, d, run) && Final(req, d, run)[k].Dir?
    ensures k in d && d[k] == Final(req, d, run)[k] && k[..3] in d && k[..3] in Final(req, d, run)
    ensures d[k[..3]] == Final(req, d, run)[k[..3]]
  {
    hide Tree, Modern, Installs, Run, AllCan, InstallsJustified, RemovesStale, Cleaned, CleanupOps, Results,
         Installing, CompleteRun, Final;
    TwoPhases(req, d, run);
    var e, f := InstallPhase(req, d, run).disk, Final(req, d, run);
    InstallsInstalling(req, d, run.picks, |req.items|);
    InstallsRun(req, d, run.picks, |req.items|);
    TreeRun(e, CleanupOps(run));
    RemovalsShrink(e, CleanupOps(run), k);
    RemovalsShrink(e, CleanupOps(run), k[..3]);
    var ops := InstallPhase(req, d, run).ops;
    NestedRun(req, d, ops, k);
    forall op | op in ops
      ensures KeepsDir(op, k)
    {
      InstallKeepsDir(req, op, k);
    }
    DirStays(d, ops, k);
    ParentInTree(d, k);
    ParentInTree(f, k);
    DirNameStays(req, d, run.picks, |req.items|, k[..3]);
  }

  lemma ParentInTree(d: Disk, k: Path)
    requires Tree(d) && |k| == 4 && k in d
    ensures k[..3] in d && d[k[..3]].Dir? && Fold(d[k[..3]].name) == k[2] && Fold(d[k].name) == k[3]
  {
    assert Placed(d, k);
    assert Parent(k) == k[..3];
    assert Placed(d, k[..3]);
  }

  // ---------------------------------------------------------------- what lies below a namespace

  function PlaceOf(req: Request, item: Item, asset: HashedAsset): Place {
    var w := WantedDest(req, item, asset);
    if |w| == 4 then Place(w[2], w[3]) else Place("", "")
  }

  /** The directory of the path is called as it is wanted. */
  predicate IsNamed(p: Disk, w: Path) {
    |w| == 4 && NameOf(p, w[..3]) == w[2]
  }

  /** Where the assets lie, of the directories that are called as they are wanted. */
  ghost function Places(req: Request, p: Disk): set<Place> {
    set item, asset | item in req.items && asset in item.entry.Assets() && IsNamed(p, WantedDest(req, item, asset)) ::
      PlaceOf(req, item, asset)
  }

  /** Every entry is installed under the namespace. */
  ghost predicate AllUnder(req: Request, namespace: string) {
    && namespace in req.schema.CleanedNamespaces()
    && forall item | item in req.items :: EffectiveSchema(req, item).OsNamespace() == namespace
  }

  predicate IsBelow(namespace: string, k: Path) {
    |k| == 4 && k[..2] == Key(["EFI", namespace])
  }

  /** Everything two levels below the namespace directory. */
  ghost function ListedPlaces(f: Disk, namespace: string): set<Place> {
    set k | k in f && IsBelow(namespace, k) && k[..3] in f :: Place(f[k[..3]].name, f[k].name)
  }

  /** The directories among it. */
  ghost function Strays(d: Disk, namespace: string): set<Place> {
    set k | k in d && IsBelow(namespace, k) && k[..3] in d && d[k].Dir? :: Place(d[k[..3]].name, d[k].name)
  }

  /** A place belongs to one key. */
  function PlaceKey(namespace: string, q: Place): Path {
    Key(["EFI", namespace, q.dir, q.leaf])
  }

  lemma PlaceKeyOf(f: Disk, namespace: string, k: Path)
    requires Tree(f) && k in f && IsBelow(namespace, k)
    ensures k[..3] in f && k == PlaceKey(namespace, Place(f[k[..3]].name, f[k].name))
  {
    ParentInTree(f, k);
    var m, n := f[k[..3]].name, f[k].name;
    KeyAppend(["EFI", namespace], [m, n]);
    assert ["EFI", namespace] + [m, n] == ["EFI", namespace, m, n];
    assert k == k[..2] + [k[2], k[3]];
    assert Key([m, n]) == [k[2], k[3]];
  }

  lemma ListedKey(f: Disk, namespace: string, p: Path)
    requires Tree(f) && IsListed(f, NamespaceDir(f, namespace), p)
    ensures |p| == 4 && IsBelow(namespace, Key(p)) && Key(p) in f && f[Key(p)].name == p[3]
    ensures Key(p)[..3] in f && f[Key(p)[..3]].name == p[2] && p[..2] == NamespaceDir(f, namespace)
  {
    var base := NamespaceDir(f, namespace);
    NamespaceKey(f, namespace);
    ListedUnderKey(f, base);
    var dir := base + [p[|base|]];
    ListedUnderKey(f, dir);
    hide NamespaceDir, Children;
    assert |base| == |Key(base)| == 2;
    assert p == dir + [p[3]];
    KeyTake(p, 3);
    KeyTake(p, 2);
    assert p[..3] == dir && p[..2] == base;
  }

  lemma NodeIsListed(f: Disk, namespace: string, k: Path)
    requires Tree(f) && k in f && IsBelow(namespace, k)
    ensures k[..3] in f
    ensures var base := NamespaceDir(f, namespace); IsListed(f, base, base + [f[k[..3]].name, f[k].name])
  {
    KernelDirKey(f, namespace, k);
    NamespaceKey(f, namespace);
    var base := NamespaceDir(f, namespace);
    var m, n := f[k[..3]].name, f[k].name;
    ChildAt(f, base + [m], k) by {
      assert Parent(k) == k[..3];
    }
    hide NamespaceDir;
    var p := base + [m, n];
    assert p[..|base|] == base && p[|base|] == m && p[|base| + 1] == n;
    assert n in Children(f, Key(base + [m]));
    hide Children;
  }

  /** A listing of the namespace directory is laid out as the volume holds it. */
  lemma ListingLaidOut(f: Disk, namespace: string, paths: seq<Path>)
    requires Tree(f) && forall p :: p in paths <==> IsListed(f, NamespaceDir(f, namespace), p)
    ensures LaidOut(TreeSet(paths), NamespaceDir(f, namespace), ListedPlaces(f, namespace))
  {
    hide Tree, NamespaceDir, IsListed, TreeSet, Ascending;
    var base, places := NamespaceDir(f, namespace), ListedPlaces(f, namespace);
    TreeSetHolds(paths);
    forall p
      ensures p in TreeSet(paths) <==> IsPlaced(base, places, p)
    {
      if p in paths {
        ListedKey(f, namespace, p);
        assert Place(p[2], p[3]) in places;
      }
      if IsPlaced(base, places, p) {
        PlacedIs(base, places, p);
        var k :| k in f && IsBelow(namespace, k) && k[..3] in f
          && Place(f[k[..3]].name, f[k].name) == Place(p[|base|], p[|base| + 1]);
        NodeIsListed(f, namespace, k);
      }
    }
  }

  lemma ListedDiffer(f: Disk, namespace: string)
    requires Tree(f)
    ensures LeavesDiffer(ListedPlaces(f, namespace))
  {
    hide Tree;
    forall q, r | q in ListedPlaces(f, namespace) && r in ListedPlaces(f, namespace)
                  && q.dir == r.dir && Fold(q.leaf) == Fold(r.leaf)
      ensures q == r
    {
      var j :| j in f && IsBelow(namespace, j) && j[..3] in f && q == Place(f[j[..3]].name, f[j].name);
      var k :| k in f && IsBelow(namespace, k) && k[..3] in f && r == Place(f[k[..3]].name, f[k].name);
      PlaceKeyOf(f, namespace, j);
      PlaceKeyOf(f, namespace, k);
      SameFolded(namespace, q.dir, q.leaf, r.leaf);
    }
  }

  lemma SameFolded(namespace: string, dir: string, leaf: string, other: string)
    requires Fold(leaf) == Fold(other)
    ensures Key(["EFI", namespace, dir, leaf]) == Key(["EFI", namespace, dir, other])
  {
  }

  // ---------------------------------------------------------------- the installed layout

  ghost predicate IsVersion(req: Request, name: string) {
    exists item | item in req.items :: item.entry.inner.kernel.version == name
  }

  /** A directory that cleaning up keeps, if it is called so. */
  ghost predicate IsKeptDir(req: Request, name: string) {
    name == "shared" || IsVersion(req, name)
  }

  /** A file below the namespace directory is an asset, in a directory called as the asset wants it. */
  lemma FileIsPlaced(req: Request, d: Disk, run: SyncRun, namespace: string, k: Path)
    requires Keeps(req, d) && CompleteRun(req, d, run) && AllUnder(req, namespace)
    requires IsFile(Final(req, d, run), k) && IsBelow(namespace, k) && k[..3] in Final(req, d, run)
    ensures var f := Final(req, d, run); Place(f[k[..3]].name, f[k].name) in Places(req, Prepared(req, d))
  {
    hide Tree, Modern, Genuine, Agrees, AllKept, CompleteRun, Final, Prepared, WantedDest, InTarget, IsCleaned,
         IsManaged, SpelledBy, IsKept, ContentFor, PlaceOf, IsNamed, Wish, NameOf;
    var f, p := Final(req, d, run), Prepared(req, d);
    ManagedHere(req, f, namespace, k);
    ManagedIsAsked(req, d, run, k);
    var item, asset := TargetAsset(req, k);
    AsksKept(req, d, item, asset);
    BelowIsCleaned(req, namespace, k);
    var other, b := KeptSpelled(req, d, item, asset);
    SpelledIsNamed(req, p, k, other, b);
    AssetNode(req, d, run, other, b);
    DirNode(req, d, run, other, b);
    assert PlaceOf(req, other, b) in Places(req, p);
  }

  lemma AsksKept(req: Request, d: Disk, item: Item, asset: HashedAsset)
    requires AllKept(req, d) && item in req.items && asset in item.entry.Assets()
    ensures IsKept(req, d, item, asset)
  {
    hide IsKept;
  }

  lemma BelowIsCleaned(req: Request, namespace: string, k: Path)
    requires namespace in req.schema.CleanedNamespaces() && IsBelow(namespace, k)
    ensures IsCleaned(req, k)
  {
  }

  lemma SpelledIsNamed(req: Request, p: Disk, k: Path, item: Item, asset: HashedAsset)
    requires SpelledBy(req, p, k, item, asset)
    ensures IsNamed(p, WantedDest(req, item, asset)) && Key(WantedDest(req, item, asset)) == k
    ensures |WantedDest(req, item, asset)| == 4 && Wish(WantedDest(req, item, asset)) == WantedDest(req, item, asset)[3]
    ensures PlaceOf(req, item, asset) == Place(WantedDest(req, item, asset)[2], WantedDest(req, item, asset)[3])
    ensures NameOf(p, WantedDest(req, item, asset)[..3]) == WantedDest(req, item, asset)[2]
  {
    hide WantedDest;
  }

  /** At the end the file of an asset is named as wanted. */
  lemma AssetNode(req: Request, d: Disk, run: SyncRun, item: Item, asset: HashedAsset)
    requires Keeps(req, d) && CompleteRun(req, d, run) && item in req.items && asset in item.entry.Assets()
    ensures NodeAt(Final(req, d, run), Key(WantedDest(req, item, asset)))
         == Some(File(Wish(WantedDest(req, item, asset)), ContentFor(req, item, asset)))
  {
    hide Tree, Modern, Genuine, Agrees, AllKept, CompleteRun, Final, WantedDest, Prepared, ContentFor;
    KeptConverges(req, d, run);
    ConvergedHas(req, d, Final(req, d, run), item, asset);
  }

  /** At the end the directory of an asset is called as on the prepared volume. */
  lemma DirNode(req: Request, d: Disk, run: SyncRun, item: Item, asset: HashedAsset)
    requires Keeps(req, d) && CompleteRun(req, d, run) && item in req.items && asset in item.entry.Assets()
    ensures |WantedDest(req, item, asset)| == 4
    ensures var dir := WantedDest(req, item, asset)[..3];
            && Key(dir) == Key(WantedDest(req, item, asset))[..3] && Key(dir) in Final(req, d, run)
            && Final(req, d, run)[Key(dir)].name == NameOf(Prepared(req, d), dir)
  {
    hide Tree, Modern, Genuine, Agrees, AllKept, CompleteRun, Final, WantedDest, Prepared, Alike,
         IsShort;
    ModernItem(req, item);
    DestShape(req, item, asset);
    var dir := WantedDest(req, item, asset)[..3];
    KeyTake(WantedDest(req, item, asset), 3);
    DirIsShort(req, item, asset, 3);
    ShortThere(req, d, run, dir);
    FinalAlike(req, d, run);
    AlikeAt(req, Prepared(req, d), Final(req, d, run), dir);
  }

  lemma ManagedHere(req: Request, f: Disk, namespace: string, k: Path)
    requires namespace in req.schema.CleanedNamespaces() && IsBelow(namespace, k)
    requires IsFile(f, k)
    ensures IsManaged(req, f, k) && |k[0]| == 3
  {
    assert |k[..2][0]| == 3;
  }

  lemma TargetAsset(req: Request, k: Path) returns (item: Item, asset: HashedAsset)
    requires InTarget(req, k) && |k| == 4
    ensures item in req.items && asset in item.entry.Assets() && k == Key(WantedDest(req, item, asset))
  {
    hide WantedDest;
    item, asset :| item in req.items && asset in item.entry.Assets() && k == Key(WantedDest(req, item, asset));
  }

  /** Every asset in a directory called as wanted lies below the namespace directory, in a file. */
  lemma AssetIsListed(req: Request, d: Disk, run: SyncRun, namespace: string, item: Item, asset: HashedAsset)
    requires Keeps(req, d) && CompleteRun(req, d, run) && AllUnder(req, namespace)
    requires item in req.items && asset in item.entry.Assets()
    requires IsNamed(Prepared(req, d), WantedDest(req, item, asset))
    ensures PlaceOf(req, item, asset) in ListedPlaces(Final(req, d, run), namespace)
    ensures IsFile(Final(req, d, run), PlaceKey(namespace, PlaceOf(req, item, asset)))
  {
    hide Tree, Modern, Genuine, Agrees, AllKept, CompleteRun, Final, WantedDest, Prepared, ContentFor;
    var f, w := Final(req, d, run), WantedDest(req, item, asset);
    AssetNode(req, d, run, item, asset);
    DirNode(req, d, run, item, asset);
    ModernItem(req, item);
    DestShape(req, item, asset);
    KeyTake(w, 2);
    assert IsBelow(namespace, Key(w));
    assert w == w[..2] + [w[2], w[3]] == ["EFI", namespace, w[2], w[3]];
  }

  /** The directory a run leaves below a namespace is shared, or that of a version. */
  lemma LeftDirIsKept(req: Request, d: Disk, run: SyncRun, namespace: string, k: Path)
    requires Keeps(req, d) && CompleteRun(req, d, run) && AllUnder(req, namespace)
    requires k in Final(req, d, run) && IsBelow(namespace, k) && k[..3] in Final(req, d, run)
    ensures IsKeptDir(req, Final(req, d, run)[k[..3]].name)
  {
    hide Tree, Modern, Genuine, Agrees, AllKept, CompleteRun, Final, AtRest, NamespaceDir, KernelDirs, IsVersion,
         Cleaned, Installs, IsStaleTree;
    RunSettles(req, d, run);
    var e, f, results := InstallPhase(req, d, run).disk, Final(req, d, run), Results(req, d, run);
    DirIsListed(req, f, namespace, k);
    var dir := NamespaceDir(f, namespace) + [f[k[..3]].name];
    RemainingTree(req, e, f, results, dir);
    UnstaleIsKept(req, d, run, dir);
  }

  lemma DirIsListed(req: Request, f: Disk, namespace: string, k: Path)
    requires Tree(f) && namespace in req.schema.CleanedNamespaces() && k in f && IsBelow(namespace, k)
    ensures k[..3] in f && NamespaceDir(f, namespace) + [f[k[..3]].name] in KernelDirs(f, req.schema)
    ensures Key(NamespaceDir(f, namespace) + [f[k[..3]].name]) == k[..3]
  {
    KernelDirKey(f, namespace, k);
    hide NamespaceDir, Children;
  }

  lemma UnstaleIsKept(req: Request, d: Disk, run: SyncRun, dir: Path)
    requires Tree(d) && Modern(req) && Genuine(req) && CompleteRun(req, d, run) && Fits(req, run)
    requires !IsStaleTree(req.schema, Results(req, d, run), dir) && dir != []
    ensures IsKeptDir(req, Last(dir))
  {
    hide Tree, Modern, Genuine, CompleteRun, Installs, Prepared, NamespaceDir, EffectiveSchema, IsStaleTree;
    if Last(dir) != "shared" {
      var i := ResultOfDir(req.schema, Results(req, d, run), dir);
      ResultDir(req, d, run, i);
      assert Last(dir) == req.items[i].entry.inner.kernel.version;
    }
  }

  lemma ResultOfDir(schema: Schema, results: seq<InstallResult>, dir: Path) returns (i: nat)
    requires !IsStaleTree(schema, results, dir) && dir != [] && Last(dir) != "shared"
    ensures i < |results| && results[i].kernelDir == dir
  {
    var r :| r in results && r.kernelDir == dir;
    i :| 0 <= i < |results| && results[i] == r;
  }

  /** A directory inside a directory that is kept survives. */
  lemma StrayStays(req: Request, d: Disk, run: SyncRun, namespace: string, k: Path)
    requires Keeps(req, d) && CompleteRun(req, d, run) && AllUnder(req, namespace)
    requires k in d && d[k].Dir? && IsBelow(namespace, k) && k[..3] in d && IsKeptDir(req, d[k[..3]].name)
    ensures var f := Final(req, d, run); k in f && f[k] == d[k] && k[..3] in f && f[k[..3]] == d[k[..3]]
  {
    hide Tree, Modern, Genuine, Agrees, AllKept, CompleteRun, Final, Installs, Run, Results, Cleaned, CleanupOps,
         RemovesStale, Installing, IsKeptDir;
    TwoPhases(req, d, run);
    InstallsInstalling(req, d, run.picks, |req.items|);
    InstallsRun(req, d, run.picks, |req.items|);
    var e, ops := InstallPhase(req, d, run).disk, InstallPhase(req, d, run).ops;
    forall op | op in ops
      ensures KeepsDir(op, k)
    {
      InstallKeepsDir(req, op, k);
    }
    DirStays(d, ops, k);
    assert |k[..2][0]| == 3;
    DirNameStays(req, d, run.picks, |req.items|, k[..3]);
    forall op | op in CleanupOps(run)
      ensures KeepsDir(op, k)
    {
      StrayTreeKept(req, d, run, namespace, op, k);
    }
    DirStays(e, CleanupOps(run), k);
    TreeRun(e, CleanupOps(run));
    ParentInTree(Final(req, d, run), k);
    RemovalsShrink(e, CleanupOps(run), k[..3]);
  }

  lemma StrayTreeKept(req: Request, d: Disk, run: SyncRun, namespace: string, op: Op, k: Path)
    requires Keeps(req, d) && CompleteRun(req, d, run) && Fits(req, run) && AllUnder(req, namespace)
    requires op in CleanupOps(run) && k in d && IsBelow(namespace, k) && k[..3] in d && IsKeptDir(req, d[k[..3]].name)
    ensures KeepsDir(op, k)
  {
    hide Tree, Modern, Genuine, Agrees, AllKept, CompleteRun, Final, Installs, Results, Cleaned, CleanupOps,
         RemovesStale, KernelDirs, IsStaleTree, IsKeptDir;
    TwoPhases(req, d, run);
    var e, dir := InstallPhase(req, d, run).disk, op.path;
    if op.RemoveTree? && Key(dir) <= k {
      TreeListed(e, req.schema, Results(req, d, run), run, op);
      BelowEfi(e, req.schema, dir);
      assert Key(dir) == k[..3];
      StaleTreeIs(req, d, run, dir);
      KeptNotStale(req, d, namespace, k);
    }
  }

  lemma KeptNotStale(req: Request, d: Disk, namespace: string, k: Path)
    requires AllUnder(req, namespace) && IsBelow(namespace, k) && k[..3] in d && IsKeptDir(req, d[k[..3]].name)
    ensures !IsStaleDir(req, d, k[..3])
  {
    hide IsCleaned, EffectiveSchema;
    assert k[..3][..2] == k[..2];
    if item :| item in req.items && item.entry.inner.kernel.version == d[k[..3]].name {
      assert IsKernelDir(req, item, k[..3], d[k[..3]].name);
    }
  }

  lemma TreeListed(e: Disk, schema: Schema, results: seq<InstallResult>, run: SyncRun, op: Op)
    requires RemovesStale(e, schema, results, run) && op in CleanupOps(run) && op.RemoveTree?
    ensures op.path in KernelDirs(e, schema) && IsStaleTree(schema, results, op.path)
  {
    hide KernelDirs, IsStaleTree, LoaderFiles, FilesBelow;
  }

  /**
   After a complete run, what lies below the namespace directory are the assets of the entries - each key under
   the spelling that some entry wants and the volume has - and the directories that lay inside a directory which
   cleaning up keeps.
   */
  lemma InstalledLayout(req: Request, d: Disk, run: SyncRun, namespace: string, q: Place)
    requires Keeps(req, d) && CompleteRun(req, d, run) && AllUnder(req, namespace)
    ensures q in ListedPlaces(Final(req, d, run), namespace) <==>
              q in Places(req, Prepared(req, d)) || (q in Strays(d, namespace) && IsKeptDir(req, q.dir))
    ensures !(q in Places(req, Prepared(req, d)) && q in Strays(d, namespace) && IsKeptDir(req, q.dir))
  {
    hide Tree, Modern, Genuine, Agrees, AllKept, CompleteRun, Final, Prepared, PlaceOf, IsKeptDir, PlaceKey, Alike,
         IsNamed;
    FinalAlike(req, d, run);
    var f := Final(req, d, run);
    if q in ListedPlaces(f, namespace) {
      var k :| k in f && IsBelow(namespace, k) && k[..3] in f && q == Place(f[k[..3]].name, f[k].name);
      if f[k].File? {
        FileIsPlaced(req, d, run, namespace, k);
      } else {
        BelowShape(namespace, k);
        NestedIsOld(req, d, run, k);
        LeftDirIsKept(req, d, run, namespace, k);
      }
    }
    if q in Places(req, Prepared(req, d)) {
      var item, asset :| item in req.items && asset in item.entry.Assets() && PlaceOf(req, item, asset) == q
        && IsNamed(Prepared(req, d), WantedDest(req, item, asset));
      AssetIsListed(req, d, run, namespace, item, asset);
    }
    if q in Strays(d, namespace) && IsKeptDir(req, q.dir) {
      var k :| k in d && IsBelow(namespace, k) && k[..3] in d && d[k].Dir? && q == Place(d[k[..3]].name, d[k].name);
      StrayStays(req, d, run, namespace, k);
      PlaceKeyOf(d, namespace, k);
      BelowShape(namespace, k);
    }
  }

  lemma BelowShape(namespace: string, k: Path)
    requires IsBelow(namespace, k)
    ensures |k| == 4 && |k[0]| == 3
  {
    assert |k[..2][0]| == 3;
  }

  // ---------------------------------------------------------------- the places of a request

  /** No two assets of the same key differ in content. */
  ghost predicate CollisionFree(req: Request) {
    forall a, b | a in AllAssets(EntriesOf(req)) && b in AllAssets(EntriesOf(req)) && a.Key() == b.Key() ::
      a.hash == b.hash
  }

  /** The name an asset without a conflict is installed under. */
  lemma UnsuffixedName(asset: HashedAsset, schema: Schema, table: Table)
    requires ConflictIndex(table, asset).None? && !schema.Legacy? && WellNamed(asset)
    ensures asset.InstalledName(schema, table)
         == [if asset.kind.SharedInitrd? then "shared" else asset.kernelVersion, asset.fileName]
  {
    hide ConflictIndex;
    assert asset.fileName + "" == asset.fileName;
    WellNamedLeaf(asset);
  }

  lemma PlainPlace(req: Request, item: Item, asset: HashedAsset)
    requires Modern(req) && Genuine(req) && CollisionFree(req) && item in req.items && asset in item.entry.Assets()
    ensures PlaceOf(req, item, asset)
         == Place(if asset.kind.SharedInitrd? then "shared" else item.entry.inner.kernel.version, asset.fileName)
    ensures WellNamed(asset)
  {
    hide ConflictIndex, Tabulates, AllAssets, CollisionFree, Genuine, Modern, WellNamed, HashedAsset.InstalledName;
    ModernItem(req, item);
    NoConflict(req, item, asset);
    UnsuffixedName(asset, EffectiveSchema(req, item), req.table);
    GenuineVersion(req, item, asset);
    PlaceOfName(req, item, asset);
  }

  lemma GenuineVersion(req: Request, item: Item, asset: HashedAsset)
    requires Genuine(req) && item in req.items && asset in item.entry.Assets()
    ensures asset.kernelVersion == item.entry.inner.kernel.version
  {
    hide Tabulates, AllAssets;
    assert IsGenuine(req, item, asset);
  }

  lemma PlaceOfName(req: Request, item: Item, asset: HashedAsset)
    requires |asset.InstalledName(EffectiveSchema(req, item), req.table)| == 2
    ensures var name := asset.InstalledName(EffectiveSchema(req, item), req.table);
            PlaceOf(req, item, asset) == Place(name[0], name[1])
  {
    hide HashedAsset.InstalledName;
  }

  lemma NoConflict(req: Request, item: Item, asset: HashedAsset)
    requires Genuine(req) && CollisionFree(req) && item in req.items && asset in item.entry.Assets()
    ensures ConflictIndex(req.table, asset).None?
  {
    hide AllAssets, ConflictIndex, Tabulates;
    RequestAssets(req, item, asset);
    IndexedWhenConflicting(AllAssets(EntriesOf(req)), req.table, asset);
  }

  lemma InitrdKind(name: string)
    requires EndsWith(name, ".initrd")
    ensures KindOf(name) in {Some(VersionedInitRd), Some(SharedInitRd)} && name !in {"/", ".."}
  {
    assert Last(name) == name[|name| - 7..][6] == 'd';
    assert name[|name| - 2] == name[|name| - 7..][5] == 'r';
  }

  /** The versions of the request are usable as directory names. */
  ghost predicate PlainVersions(req: Request) {
    forall item | item in req.items :: item.entry.inner.kernel.version !in {"/", "..", "initrd.d"}
  }

  lemma PlacesPlain(req: Request, p: Disk)
    requires Modern(req) && Genuine(req) && CollisionFree(req) && PlainVersions(req)
    ensures PlainNames(Places(req, p))
  {
    hide Genuine, CollisionFree, PlaceOf, Modern, EndsWith, IsNamed, WantedDest;
    forall q | q in Places(req, p)
      ensures q.leaf !in {"/", ".."} && q.dir !in {"/", "..", "initrd.d"}
    {
      var item, asset :| item in req.items && asset in item.entry.Assets() && PlaceOf(req, item, asset) == q;
      PlainPlace(req, item, asset);
      if !asset.kind.Image? {
        InitrdKind(asset.fileName);
      }
    }
  }

  /** No node of the volume is called after the root or a parent directory. */
  ghost predicate RealNames(d: Disk) {
    forall k | k in d :: d[k].name !in {"/", ".."}
  }

  lemma ListedPlain(req: Request, d: Disk, run: SyncRun, namespace: string)
    requires Keeps(req, d) && CompleteRun(req, d, run) && AllUnder(req, namespace) && RealNames(d)
    requires CollisionFree(req) && PlainVersions(req)
    ensures PlainNames(ListedPlaces(Final(req, d, run), namespace))
  {
    hide Tree, Modern, Genuine, Agrees, AllKept, CompleteRun, Final, Prepared, PlaceOf, Places, ListedPlaces,
         CollisionFree, Strays;
    PlacesPlain(req, Prepared(req, d));
    forall q | q in ListedPlaces(Final(req, d, run), namespace)
      ensures q.leaf !in {"/", ".."} && q.dir !in {"/", "..", "initrd.d"}
    {
      InstalledLayout(req, d, run, namespace, q);
      if q !in Places(req, Prepared(req, d)) {
        StrayPlain(d, namespace, q);
      }
    }
  }

  lemma StrayPlain(d: Disk, namespace: string, q: Place)
    requires RealNames(d) && q in Strays(d, namespace)
    ensures q.leaf !in {"/", ".."}
  {
  }

  ghost predicate VersionsDiffer(req: Request) {
    forall i, j | 0 <= i < j < |req.items| ::
      req.items[i].entry.inner.kernel.version != req.items[j].entry.inner.kernel.version
  }

  /** The directory of a version is called so. */
  predicate IsNamedVersion(p: Disk, namespace: string, version: string) {
    NameOf(p, ["EFI", namespace, version]) == version
  }

  lemma VersionDir(req: Request, p: Disk, namespace: string, item: Item, asset: HashedAsset)
    requires Modern(req) && Genuine(req) && AllUnder(req, namespace) && item in req.items
    requires asset in item.entry.Assets() && !asset.kind.SharedInitrd?
    ensures IsNamed(p, WantedDest(req, item, asset))
        <==> IsNamedVersion(p, namespace, item.entry.inner.kernel.version)
  {
    GenuineVersion(req, item, asset);
    ModernItem(req, item);
    DestShape(req, item, asset);
    hide Modern, Genuine, WantedDest, NameOf;
    var w := WantedDest(req, item, asset);
    assert w[..3] == w[..2] + [w[2]] == ["EFI", namespace, w[2]];
  }

  lemma ImageOfVersion(req: Request, p: Disk, namespace: string, version: string)
    requires Modern(req) && Genuine(req) && CollisionFree(req) && AllUnder(req, namespace)
    ensures HasImage(Places(req, p), version) <==> IsVersion(req, version) && IsNamedVersion(p, namespace, version)
  {
    hide Modern, Genuine, CollisionFree, PlaceOf, EndsWith, IsNamed, IsNamedVersion, AllUnder, WantedDest;
    if item :| item in req.items && item.entry.inner.kernel.version == version {
      assert item.entry.image in item.entry.Assets();
      assert item.entry.image.kind.Image? by {
        ImageIsImage(req, item);
      }
      PlainPlace(req, item, item.entry.image);
      VersionDir(req, p, namespace, item, item.entry.image);
    }
    if HasImage(Places(req, p), version) {
      var item, asset :| item in req.items && asset in item.entry.Assets()
        && IsNamed(p, WantedDest(req, item, asset)) && PlaceOf(req, item, asset) == Place(version, "vmlinuz");
      PlainPlace(req, item, asset);
      WellNamedLeaf(asset);
      VersionDir(req, p, namespace, item, asset);
    }
  }

  lemma ImageIsImage(req: Request, item: Item)
    requires Genuine(req) && item in req.items
    ensures item.entry.image.kind.Image?
  {
  }

  /** The files in the directory of a version, if it is called so, are the version's own initrds, and its image. */
  lemma PlacesOfVersion(req: Request, p: Disk, namespace: string, item: Item, name: string)
    requires Modern(req) && Genuine(req) && CollisionFree(req) && VersionsDiffer(req) && item in req.items
    requires AllUnder(req, namespace) && IsNamedVersion(p, namespace, item.entry.inner.kernel.version)
    ensures Place(item.entry.inner.kernel.version, name) in Places(req, p) && name != "vmlinuz" <==>
              exists asset | asset in item.entry.initrd :: asset.kind.VersionedInitrd? && asset.fileName == name
  {
    var version := item.entry.inner.kernel.version;
    NotShared(req, item);
    hide Modern, Genuine, CollisionFree, PlaceOf, EndsWith, IsNamed, IsNamedVersion, AllUnder, WantedDest,
         VersionsDiffer;
    if Place(version, name) in Places(req, p) && name != "vmlinuz" {
      var other, b :| other in req.items && b in other.entry.Assets() && IsNamed(p, WantedDest(req, other, b))
        && PlaceOf(req, other, b) == Place(version, name);
      PlainPlace(req, other, b);
      SameVersion(req, item, other);
      NotImage(req, item, b, name);
    }
    if asset :| asset in item.entry.initrd && asset.kind.VersionedInitrd? && asset.fileName == name {
      assert asset in item.entry.Assets();
      PlainPlace(req, item, asset);
      WellNamedLeaf(asset);
      VersionDir(req, p, namespace, item, asset);
    }
  }

  lemma NotImage(req: Request, item: Item, b: HashedAsset, name: string)
    requires Genuine(req) && item in req.items && b in item.entry.Assets() && WellNamed(b)
    requires b.fileName == name && name != "vmlinuz" && !b.kind.SharedInitrd?
    ensures b in item.entry.initrd && b.kind.VersionedInitrd?
  {
    ImageIsImage(req, item);
    hide Genuine;
  }

  lemma SameVersion(req: Request, item: Item, other: Item)
    requires VersionsDiffer(req) && item in req.items && other in req.items
    requires item.entry.inner.kernel.version == other.entry.inner.kernel.version
    ensures item == other
  {
    var i :| 0 <= i < |req.items| && req.items[i] == item;
    var j :| 0 <= j < |req.items| && req.items[j] == other;
  }

  lemma NotShared(req: Request, item: Item)
    requires Modern(req) && Genuine(req) && item in req.items
    ensures item.entry.inner.kernel.version != "shared"
  {
    assert item.entry.image in item.entry.Assets();
    assert IsGenuine(req, item, item.entry.image) && WellNamed(item.entry.image);
  }

  // ---------------------------------------------------------------- from discovered kernels to assets

  lemma {:induction false} InitrdsComplete(host: Host, entry: Entry, files: seq<AuxFile>, file: AuxFile)
    requires HashInitrds(host, entry, files).Some? && file in files && AssetKindOf(file.kind).Some?
    ensures exists asset | asset in HashInitrds(host, entry, files).value ::
              asset.path == file.path && asset.kind == AssetKindOf(file.kind).value
  {
    hide JoinPath;
    if file == Last(files) {
      assert Last(HashInitrds(host, entry, files).value) in HashInitrds(host, entry, files).value;
    } else {
      InitrdsComplete(host, entry, files[..|files| - 1], file);
    }
  }

  /** The assets of a discovered kernel are well-named, unless its version is the name of the shared directory. */
  lemma OrderlyWellNamed(host: Host, entry: Entry, hashed: HashedEntry)
    requires HashEntry(host, entry) == Some(hashed) && Orderly(entry.kernel) && entry.kernel.version != "shared"
    ensures forall asset | asset in hashed.Assets() :: WellNamed(asset)
  {
    hide HashInitrds, JoinPath, SortedBy;
    forall asset | asset in hashed.Assets()
      ensures WellNamed(asset)
    {
      if asset != hashed.image {
        InitrdsGenuine(host, entry, entry.kernel.initrd, asset);
        var file :| file in entry.kernel.initrd && file.path == asset.path
          && AssetKindOf(file.kind) == Some(asset.kind);
        assert IsOrderly(entry.kernel.version, file);
      }
    }
  }

  /** The names of a kernel's own initrds are the names of the assets made of them. */
  lemma VersionedNames(host: Host, entry: Entry, hashed: HashedEntry, name: string)
    requires HashEntry(host, entry) == Some(hashed)
    ensures name in Names(OwnInitrds(entry.kernel.initrd)) <==>
              exists asset | asset in hashed.initrd :: asset.kind.VersionedInitrd? && asset.fileName == name
  {
    hide HashInitrds, JoinPath, OwnInitrds;
    var files := entry.kernel.initrd;
    if name in Names(OwnInitrds(files)) {
      var i :| 0 <= i < |OwnInitrds(files)| && Names(OwnInitrds(files))[i] == name;
      VersionedExactly(files, OwnInitrds(files)[i]);
      var file := OwnInitrds(files)[i];
      InitrdsComplete(host, entry, files, file);
      var asset :| asset in hashed.initrd && asset.path == file.path && asset.kind == VersionedInitrd;
      InitrdsGenuine(host, entry, files, asset);
    }
    if asset :| asset in hashed.initrd && asset.kind.VersionedInitrd? && asset.fileName == name {
      InitrdsGenuine(host, entry, files, asset);
      var file :| file in files && file.path == asset.path && AssetKindOf(file.kind) == Some(asset.kind);
      VersionedExactly(files, file);
      var i :| 0 <= i < |OwnInitrds(files)| && OwnInitrds(files)[i] == file;
      assert Names(OwnInitrds(files))[i] == name;
    }
  }

  lemma {:induction false} VersionedExactly(files: seq<AuxFile>, file: AuxFile)
    ensures file in OwnInitrds(files) <==> file in files && file.kind.VersionedInitRd?
  {
    if files != [] {
      assert files == files[..|files| - 1] + [Last(files)];
      VersionedExactly(files[..|files| - 1], file);
    }
  }

  /** Names of a kernel's own initrds that differ up to case. */
  ghost predicate NamesDiffer(kernel: Kernel) {
    var own := OwnInitrds(kernel.initrd);
    forall i, j | 0 <= i < j < |own| :: SortKey(own[i]) != SortKey(own[j])
  }

  lemma {:induction false} VersionedSorted(files: seq<AuxFile>)
    requires SortedBy(SortKey, files)
    ensures SortedBy(SortKey, OwnInitrds(files))
  {
    hide StringLess;
    if files != [] {
      var front, last := files[..|files| - 1], Last(files);
      VersionedSorted(front);
      forall i | 0 <= i < |OwnInitrds(front)|
        ensures !StringLess(SortKey(last), SortKey(OwnInitrds(front)[i]))
      {
        VersionedExactly(front, OwnInitrds(front)[i]);
        var j :| 0 <= j < |front| && front[j] == OwnInitrds(front)[i];
        assert !StringLess(SortKey(files[|files| - 1]), SortKey(files[j]));
      }
    }
  }

  // ---------------------------------------------------------------- the round trip

  /** A kernel read back: its image and its own initrds, in order; shared ones and other files are not. */
  ghost predicate IsReadBack(base: Path, kernel: Kernel, found: Kernel) {
    && found.version == kernel.version && found.image == base + [kernel.version, "vmlinuz"]
    && Names(found.initrd) == Names(OwnInitrds(kernel.initrd))
    && (forall file | file in found.initrd ::
          file.kind.VersionedInitRd? && file.path == base + [kernel.version, NameOrEmpty(file.path)])
    && found.extras == [] && found.variant == None
  }

  /** What is asked of the entries for their kernels to be read back. */
  ghost predicate Readbackable(req: Request, namespace: string) {
    && AllUnder(req, namespace) && CollisionFree(req) && VersionsDiffer(req) && PlainVersions(req)
    && forall item | item in req.items :: IsDiscovered(req, item)
  }

  /** The entry is of a kernel as discovery delivers it. */
  ghost predicate IsDiscovered(req: Request, item: Item) {
    && Orderly(item.entry.inner.kernel) && NamesDiffer(item.entry.inner.kernel)
    && HashEntry(req.host, item.entry.inner) == Some(item.entry)
  }

  /** A directory that discovery would take for a kernel, or for a file of one of the kernels. */
  ghost predicate Disturbs(req: Request, q: Place) {
    || q == Place("shared", "vmlinuz")
    || (IsVersion(req, q.dir) && q.leaf != q.dir && KindOf(q.leaf).Some?)
  }

  ghost predicate Undisturbed(req: Request, d: Disk, namespace: string) {
    forall q | q in Strays(d, namespace) :: !Disturbs(req, q)
  }

  /** The places of a finished run, without what is known of the run itself. */
  ghost predicate IsLayout(req: Request, p: Disk, places: set<Place>, strays: set<Place>) {
    forall q ::
      && (q in places <==> q in Places(req, p) || (q in strays && IsKeptDir(req, q.dir)))
      && !(q in Places(req, p) && q in strays && IsKeptDir(req, q.dir))
  }

  /** What the requests of a round trip have in common. */
  ghost predicate IsReadable(req: Request, namespace: string) {
    Modern(req) && Genuine(req) && Readbackable(req, namespace)
  }

  lemma ReadableItem(req: Request, namespace: string, item: Item)
    requires IsReadable(req, namespace) && item in req.items
    ensures Modern(req) && Genuine(req) && CollisionFree(req) && VersionsDiffer(req) && PlainVersions(req)
    ensures IsDiscovered(req, item) && AllUnder(req, namespace)
  {
    hide Modern, Genuine, CollisionFree, IsDiscovered;
  }

  /** A name placed in the directory of a version is its image, one of its own initrds, or a directory. */
  lemma NamesOfVersion(req: Request, p: Disk, namespace: string, places: set<Place>, strays: set<Place>, item: Item,
                       n: string)
    requires IsReadable(req, namespace) && IsLayout(req, p, places, strays) && item in req.items
    requires IsNamedVersion(p, namespace, item.entry.inner.kernel.version)
    ensures var kernel := item.entry.inner.kernel;
            && (Place(kernel.version, n) in places <==>
                  n == "vmlinuz" || n in Names(OwnInitrds(kernel.initrd)) || Place(kernel.version, n) in strays)
            && (n in Names(OwnInitrds(kernel.initrd)) ==>
                  IsCollectedName(kernel.version, n, true) && KindOf(n) == Some(VersionedInitRd)
                  && Place(kernel.version, n) !in strays)
            && (n == "vmlinuz" ==> Place(kernel.version, n) !in strays)
  {
    var kernel := item.entry.inner.kernel;
    ReadableItem(req, namespace, item);
    hide Modern, Genuine, CollisionFree, VersionsDiffer, Places, KindOf, OwnInitrds, SortedBy, HashEntry, IsLayout,
         NamesDiffer;
    PlacesOfVersion(req, p, namespace, item, n);
    VersionedNames(req.host, item.entry.inner, item.entry, n);
    ImageOfVersion(req, p, namespace, kernel.version);
    assert IsVersion(req, kernel.version);
    LayoutAt(req, p, places, strays, Place(kernel.version, n));
    if n in Names(OwnInitrds(kernel.initrd)) {
      OwnKind(kernel, n);
    }
  }

  lemma LayoutAt(req: Request, p: Disk, places: set<Place>, strays: set<Place>, q: Place)
    requires IsLayout(req, p, places, strays)
    ensures q in places <==> q in Places(req, p) || (q in strays && IsKeptDir(req, q.dir))
    ensures !(q in Places(req, p) && q in strays && IsKeptDir(req, q.dir))
  {
    hide Places, IsKeptDir;
  }

  /** No directory of the kernel's own disturbs it. */
  ghost predicate UndisturbedVersion(strays: set<Place>, version: string) {
    forall q | q in strays && q.dir == version :: q.leaf == version || KindOf(q.leaf).None?
  }

  /** A kernel is read back exactly when no directory in its own passes for one of its files. */
  lemma FoundOne(req: Request, p: Disk, namespace: string, places: set<Place>, strays: set<Place>, all: seq<Path>,
                 base: Path, item: Item)
    requires IsReadable(req, namespace) && IsLayout(req, p, places, strays) && item in req.items
    requires IsNamedVersion(p, namespace, item.entry.inner.kernel.version)
    requires LaidOut(all, base, places) && PlainNames(places) && LeavesDiffer(places)
    ensures VersionOf(base + [item.entry.inner.kernel.version, "vmlinuz"]).Some?
    ensures IsReadBack(base, item.entry.inner.kernel,
                       KernelOf(all, base + [item.entry.inner.kernel.version, "vmlinuz"]))
        <==> UndisturbedVersion(strays, item.entry.inner.kernel.version)
  {
    hide LaidOut, PlainNames, LeavesDiffer, HasImage, Places, KernelOf, HashEntry, OwnInitrds, KindOf, SortedBy,
         NamesAscend, IsReadable, IsLayout, IsCollectedName, NoExtraPlace, UndisturbedVersion, IsOwn;
    var kernel := item.entry.inner.kernel;
    var version := kernel.version;
    NamesOfVersion(req, p, namespace, places, strays, item, "vmlinuz");
    assert HasImage(places, version) by {
      ImagePlaced(places, version);
    }
    LaidOutKernel(all, base, places, version);
    var found := KernelOf(all, base + [version, "vmlinuz"]);
    if UndisturbedVersion(strays, version) {
      CleanVersion(req, p, namespace, places, strays, item);
      FoundNames(req, p, namespace, places, strays, item, Names(found.initrd));
      FoundKinds(req, p, namespace, places, strays, base, item, found.initrd);
    } else {
      DisturbedVersion(req, p, namespace, places, strays, item, found);
    }
  }

  lemma ImagePlaced(places: set<Place>, version: string)
    requires Place(version, "vmlinuz") in places
    ensures HasImage(places, version)
  {
  }

  /** Without disturbance nothing is collected but the kernel's own initrds. */
  lemma CleanVersion(req: Request, p: Disk, namespace: string, places: set<Place>, strays: set<Place>, item: Item)
    requires IsReadable(req, namespace) && IsLayout(req, p, places, strays) && item in req.items
    requires IsNamedVersion(p, namespace, item.entry.inner.kernel.version)
    requires UndisturbedVersion(strays, item.entry.inner.kernel.version)
    ensures NoExtraPlace(places, item.entry.inner.kernel.version)
  {
    hide Places, OwnInitrds, KindOf, IsReadable, IsLayout;
    var version := item.entry.inner.kernel.version;
    forall q | q in places && q.dir == version
      ensures !IsCollectedName(version, q.leaf, false)
    {
      NamesOfVersion(req, p, namespace, places, strays, item, q.leaf);
      assert q == Place(version, q.leaf);
    }
  }

  lemma FoundNames(req: Request, p: Disk, namespace: string, places: set<Place>, strays: set<Place>, item: Item,
                   names: seq<string>)
    requires IsReadable(req, namespace) && IsLayout(req, p, places, strays) && item in req.items
    requires IsNamedVersion(p, namespace, item.entry.inner.kernel.version)
    requires UndisturbedVersion(strays, item.entry.inner.kernel.version)
    requires NamesOf(places, item.entry.inner.kernel.version, names)
    ensures names == Names(OwnInitrds(item.entry.inner.kernel.initrd))
  {
    hide Places, OwnInitrds, KindOf, IsReadable, IsLayout, SortedBy, NamesAscend, HashEntry;
    var kernel := item.entry.inner.kernel;
    ReadableItem(req, namespace, item);
    VersionedSorted(kernel.initrd);
    SortedAscends(OwnInitrds(kernel.initrd));
    forall n
      ensures n in names <==> n in Names(OwnInitrds(kernel.initrd))
    {
      NamesOfVersion(req, p, namespace, places, strays, item, n);
      var q := Place(kernel.version, n);
      assert q in strays ==> q.leaf == kernel.version || KindOf(q.leaf).None?;
    }
    NamesUnique(names, Names(OwnInitrds(kernel.initrd)));
  }

  lemma FoundKinds(req: Request, p: Disk, namespace: string, places: set<Place>, strays: set<Place>, base: Path,
                   item: Item, initrd: seq<AuxFile>)
    requires IsReadable(req, namespace) && IsLayout(req, p, places, strays) && item in req.items
    requires IsNamedVersion(p, namespace, item.entry.inner.kernel.version)
    requires Names(initrd) == Names(OwnInitrds(item.entry.inner.kernel.initrd))
    requires forall file | file in initrd :: IsOwn(base, places, item.entry.inner.kernel.version, true, file)
    ensures forall file | file in initrd ::
              file.kind.VersionedInitRd?
              && file.path == base + [item.entry.inner.kernel.version, NameOrEmpty(file.path)]
  {
    hide Places, OwnInitrds, KindOf, IsReadable, IsLayout;
    forall file | file in initrd
      ensures file.kind.VersionedInitRd?
      ensures file.path == base + [item.entry.inner.kernel.version, NameOrEmpty(file.path)]
    {
      assert IsOwn(base, places, item.entry.inner.kernel.version, true, file);
      var i :| 0 <= i < |initrd| && initrd[i] == file;
      assert Names(initrd)[i] == NameOrEmpty(file.path);
      NamesOfVersion(req, p, namespace, places, strays, item, NameOrEmpty(file.path));
    }
  }

  lemma DisturbedVersion(req: Request, p: Disk, namespace: string, places: set<Place>, strays: set<Place>, item: Item,
                         found: Kernel)
    requires IsReadable(req, namespace) && IsLayout(req, p, places, strays) && item in req.items
    requires IsNamedVersion(p, namespace, item.entry.inner.kernel.version)
    requires !UndisturbedVersion(strays, item.entry.inner.kernel.version)
    requires NamesOf(places, item.entry.inner.kernel.version, Names(found.initrd))
    requires found.extras == [] <==> NoExtraPlace(places, item.entry.inner.kernel.version)
    ensures Names(found.initrd) != Names(OwnInitrds(item.entry.inner.kernel.initrd)) || found.extras != []
  {
    hide Places, OwnInitrds, KindOf, IsReadable, IsLayout, NamesAscend;
    var version := item.entry.inner.kernel.version;
    var q :| q in strays && q.dir == version && q.leaf != version && KindOf(q.leaf).Some?;
    NamesOfVersion(req, p, namespace, places, strays, item, q.leaf);
    assert q == Place(version, q.leaf) && q in places;
    if IsInitrd(KindOf(q.leaf).value) {
      assert IsCollectedName(version, q.leaf, true);
      assert q.leaf in Names(found.initrd);
    } else {
      assert IsCollectedName(version, q.leaf, false);
    }
  }

  lemma OwnKind(kernel: Kernel, name: string)
    requires Orderly(kernel) && name in Names(OwnInitrds(kernel.initrd))
    ensures KindOf(name) == Some(VersionedInitRd) && name != kernel.version
    ensures IsCollectedName(kernel.version, name, true)
  {
    hide SortedBy, OwnInitrds;
    var own := OwnInitrds(kernel.initrd);
    var i :| 0 <= i < |own| && Names(own)[i] == name;
    VersionedExactly(kernel.initrd, own[i]);
    assert IsOrderly(kernel.version, own[i]);
  }

  /** Directories inside a kernel directory lie in one that is called as it will be. */
  ghost predicate StraysNamed(p: Disk, namespace: string, strays: set<Place>) {
    forall q | q in strays :: IsNamedVersion(p, namespace, q.dir)
  }

  lemma OldNamesStay(req: Request, d: Disk, namespace: string)
    requires Tree(d)
    ensures StraysNamed(Prepared(req, d), namespace, Strays(d, namespace))
  {
    hide Tree, Prepared;
    forall q | q in Strays(d, namespace)
      ensures IsNamedVersion(Prepared(req, d), namespace, q.dir)
    {
      var k :| k in d && IsBelow(namespace, k) && k[..3] in d && d[k].Dir? && q == Place(d[k[..3]].name, d[k].name);
      ParentInTree(d, k);
      KeyAppend(["EFI", namespace], [q.dir]);
      assert ["EFI", namespace] + [q.dir] == ["EFI", namespace, q.dir] && Key([q.dir]) == [k[2]];
      assert k[..3] == k[..2] + [k[2]];
      PreparedKeeps(req, d, k[..3]);
    }
  }

  /** A version whose directory is called so, or a directory that passes for a shared image. */
  ghost predicate IsListedVersion(req: Request, p: Disk, namespace: string, strays: set<Place>, v: string) {
    (IsVersion(req, v) && IsNamedVersion(p, namespace, v)) || (v == "shared" && Place("shared", "vmlinuz") in strays)
  }

  /** The versions found are those of the entries, and that of a directory that passes for a shared image. */
  lemma FoundVersions(req: Request, p: Disk, namespace: string, places: set<Place>, strays: set<Place>, v: string)
    requires IsReadable(req, namespace) && IsLayout(req, p, places, strays) && StraysNamed(p, namespace, strays)
    ensures HasImage(places, v) <==> IsListedVersion(req, p, namespace, strays, v)
  {
    hide Modern, Genuine, CollisionFree, Places, IsLayout, IsDiscovered, IsVersion;
    ImageOfVersion(req, p, namespace, v);
    LayoutAt(req, p, places, strays, Place(v, "vmlinuz"));
  }

  /** What discovery finds, by version. */
  ghost predicate Matches(req: Request, p: Disk, namespace: string, base: Path, strays: set<Place>,
                          m: map<string, Kernel>) {
    && (forall v | v in m :: m[v].version == v)
    && (forall v :: v in m <==> IsListedVersion(req, p, namespace, strays, v))
    && forall item | item in req.items && item.entry.inner.kernel.version in m ::
         IsReadBack(base, item.entry.inner.kernel, m[item.entry.inner.kernel.version])
         <==> UndisturbedVersion(strays, item.entry.inner.kernel.version)
  }

  /**
   The round trip.  After a complete run, whatever the listing of the namespace directory gives - in any
   order - discovery finds the versions whose directories are called as they are; each with its image and with its
   own initrds in their order, exactly if no directory passes for a file of it.  The only other kernel it finds is
   a directory that passes for a shared image.
   */
  lemma Rediscovers(req: Request, d: Disk, run: SyncRun, namespace: string, paths: seq<Path>)
    requires Keeps(req, d) && CompleteRun(req, d, run) && Readbackable(req, namespace) && RealNames(d)
    requires forall p :: p in paths <==> IsListed(Final(req, d, run), NamespaceDir(Final(req, d, run), namespace), p)
    ensures Discovered(TreeSet(paths)).Ok?
    ensures Matches(req, Prepared(req, d), namespace, NamespaceDir(Final(req, d, run), namespace), Strays(d, namespace),
                    Discovered(TreeSet(paths)).value)
  {
    hide Tree, Modern, Genuine, Agrees, AllKept, CompleteRun, Final, Prepared, NamespaceDir, IsListed, TreeSet, LaidOut,
         PlainNames, LeavesDiffer, CollisionFree, Strays, ListedPlaces, IsDiscovered, IsLayout, Matches, Discovered,
         Alike, StraysNamed;
    var f := Final(req, d, run);
    FinalAlike(req, d, run);
    ListingLaidOut(f, namespace, paths);
    ListedDiffer(f, namespace);
    ListedPlain(req, d, run, namespace);
    RunLayout(req, d, run, namespace);
    OldNamesStay(req, d, namespace);
    LayoutDiscovered(req, Prepared(req, d), namespace, ListedPlaces(f, namespace), Strays(d, namespace), TreeSet(paths),
                     NamespaceDir(f, namespace));
  }

  lemma LayoutDiscovered(req: Request, p: Disk, namespace: string, places: set<Place>, strays: set<Place>,
                         all: seq<Path>, base: Path)
    requires IsReadable(req, namespace) && IsLayout(req, p, places, strays) && StraysNamed(p, namespace, strays)
    requires LaidOut(all, base, places) && PlainNames(places) && LeavesDiffer(places)
    ensures Discovered(all).Ok? && Matches(req, p, namespace, base, strays, Discovered(all).value)
  {
    hide IsReadable, IsLayout, LaidOut, PlainNames, LeavesDiffer, HasImage, IsReadBack, KernelOf, VersionOf,
         IsListedVersion, UndisturbedVersion, Discovered, IsNamedVersion, StraysNamed;
    LaidOutDiscovered(all, base, places);
    var m := Discovered(all).value;
    forall v
      ensures v in m <==> IsListedVersion(req, p, namespace, strays, v)
      ensures v in m ==> m[v].version == v
    {
      FoundVersions(req, p, namespace, places, strays, v);
      if v in m {
        KernelVersion(all, base + [v, "vmlinuz"], v);
      }
    }
    forall item | item in req.items && item.entry.inner.kernel.version in m
      ensures IsReadBack(base, item.entry.inner.kernel, m[item.entry.inner.kernel.version])
          <==> UndisturbedVersion(strays, item.entry.inner.kernel.version)
    {
      FoundIsNamed(req, p, namespace, strays, item);
      FoundOne(req, p, namespace, places, strays, all, base, item);
    }
  }

  lemma FoundIsNamed(req: Request, p: Disk, namespace: string, strays: set<Place>, item: Item)
    requires IsReadable(req, namespace) && item in req.items
    requires IsListedVersion(req, p, namespace, strays, item.entry.inner.kernel.version)
    ensures IsNamedVersion(p, namespace, item.entry.inner.kernel.version)
  {
    hide Modern, Genuine, Readbackable, IsNamedVersion;
    NotShared(req, item);
  }

  lemma KernelVersion(all: seq<Path>, image: Path, v: string)
    requires VersionOf(image) == Some(v)
    ensures KernelOf(all, image).version == v
  {
  }

  lemma RunLayout(req: Request, d: Disk, run: SyncRun, namespace: string)
    requires Keeps(req, d) && CompleteRun(req, d, run) && AllUnder(req, namespace)
    ensures IsLayout(req, Prepared(req, d), ListedPlaces(Final(req, d, run), namespace), Strays(d, namespace))
  {
    hide Keeps, CompleteRun, Final, Prepared, Places, Strays, ListedPlaces, IsKeptDir;
    forall q
      ensures q in ListedPlaces(Final(req, d, run), namespace) <==>
                q in Places(req, Prepared(req, d)) || (q in Strays(d, namespace) && IsKeptDir(req, q.dir))
      ensures !(q in Places(req, Prepared(req, d)) && q in Strays(d, namespace) && IsKeptDir(req, q.dir))
    {
      InstalledLayout(req, d, run, namespace, q);
    }
  }

  lemma ItemVersion(req: Request, item: Item)
    requires item in req.items
    ensures IsVersion(req, item.entry.inner.kernel.version)
  {
  }

  /** The kernels of the items read back, each exactly once, and no others. */
  ghost predicate AreReadBack(base: Path, items: seq<Item>, kernels: seq<Kernel>) {
    && (forall i, j | 0 <= i < j < |kernels| :: kernels[i].version != kernels[j].version)
    && (forall item | item in items ::
          exists found | found in kernels :: IsReadBack(base, item.entry.inner.kernel, found))
    && (forall found | found in kernels ::
          exists item | item in items :: IsReadBack(base, item.entry.inner.kernel, found))
  }

  /** The directory of every version is called so, once all directories are made. */
  ghost predicate AllNamed(req: Request, p: Disk, namespace: string) {
    forall item | item in req.items :: IsNamedVersion(p, namespace, item.entry.inner.kernel.version)
  }

  /**
   What `installed_kernels` returns after a complete run are the kernels of the entries, and no others, if
   and only if the directory of each version comes to be called so, and no directory on the volume passes for a
   kernel, or for a file of one of the kernels.
   */
  lemma InstalledAreSynchronised(req: Request, d: Disk, run: SyncRun, namespace: string, kernels: seq<Kernel>)
    requires Keeps(req, d) && CompleteRun(req, d, run) && Readbackable(req, namespace) && RealNames(d)
    requires AreInstalled(Final(req, d, run), NamespaceDir(Final(req, d, run), namespace), kernels)
    ensures AreReadBack(NamespaceDir(Final(req, d, run), namespace), req.items, kernels)
        <==> AllNamed(req, Prepared(req, d), namespace) && Undisturbed(req, d, namespace)
  {
    hide Keeps, CompleteRun, Final, NamespaceDir, IsListed, TreeSet, Discovered, Readbackable, IsValues,
         AreReadBack, RealNames, Strays, Undisturbed, Matches, Prepared, AllNamed;
    var base, strays := NamespaceDir(Final(req, d, run), namespace), Strays(d, namespace);
    var paths: seq<Path> :| (forall p :: p in paths <==> IsListed(Final(req, d, run), base, p))
      && Gives(paths, kernels);
    Rediscovers(req, d, run, namespace, paths);
    KeepsParts(req, d);
    NotSharedVersion(req);
    UndisturbedParts(req, d, namespace);
    MatchKernels(req, Prepared(req, d), namespace, base, strays, Discovered(TreeSet(paths)).value, kernels);
  }

  lemma NotSharedVersion(req: Request)
    requires Modern(req) && Genuine(req)
    ensures !IsVersion(req, "shared")
  {
    hide Modern, Genuine;
    forall item | item in req.items
      ensures item.entry.inner.kernel.version != "shared"
    {
      NotShared(req, item);
    }
  }

  lemma UndisturbedParts(req: Request, d: Disk, namespace: string)
    ensures Undisturbed(req, d, namespace) <==> AllUndisturbed(req, Strays(d, namespace))
  {
    hide Strays, KindOf;
    var strays := Strays(d, namespace);
    if Undisturbed(req, d, namespace) {
      forall item | item in req.items
        ensures UndisturbedVersion(strays, item.entry.inner.kernel.version)
      {
        forall q | q in strays && q.dir == item.entry.inner.kernel.version
          ensures q.leaf == item.entry.inner.kernel.version || KindOf(q.leaf).None?
        {
          assert !Disturbs(req, q);
        }
      }
      assert Disturbs(req, Place("shared", "vmlinuz"));
    }
  }

  /** No directory disturbs anything. */
  ghost predicate AllUndisturbed(req: Request, strays: set<Place>) {
    && Place("shared", "vmlinuz") !in strays
    && forall item | item in req.items :: UndisturbedVersion(strays, item.entry.inner.kernel.version)
  }

  lemma MatchKernels(req: Request, p: Disk, namespace: string, base: Path, strays: set<Place>, m: map<string, Kernel>,
                     kernels: seq<Kernel>)
    requires IsValues(kernels, m) && Matches(req, p, namespace, base, strays, m) && !IsVersion(req, "shared")
    ensures AreReadBack(base, req.items, kernels) <==> AllNamed(req, p, namespace) && AllUndisturbed(req, strays)
  {
    hide IsValues, Matches, AreReadBack, AllUndisturbed, AllNamed;
    if AreReadBack(base, req.items, kernels) {
      ReadBackUndisturbed(req, p, namespace, base, strays, m, kernels);
    }
    if AllNamed(req, p, namespace) && AllUndisturbed(req, strays) {
      UndisturbedReadBack(req, p, namespace, base, strays, m, kernels);
    }
  }

  lemma ReadBackUndisturbed(req: Request, p: Disk, namespace: string, base: Path, strays: set<Place>,
                            m: map<string, Kernel>, kernels: seq<Kernel>)
    requires IsValues(kernels, m) && Matches(req, p, namespace, base, strays, m) && !IsVersion(req, "shared")
    requires AreReadBack(base, req.items, kernels)
    ensures AllNamed(req, p, namespace) && AllUndisturbed(req, strays)
  {
    hide IsValues, UndisturbedVersion, IsVersion, IsNamedVersion, Matches, AreReadBack;
    NothingElse(req, p, namespace, base, strays, m, kernels);
    forall item | item in req.items
      ensures IsNamedVersion(p, namespace, item.entry.inner.kernel.version)
      ensures UndisturbedVersion(strays, item.entry.inner.kernel.version)
    {
      FoundEach(req, p, namespace, base, strays, m, kernels, item);
    }
  }

  lemma NothingElse(req: Request, p: Disk, namespace: string, base: Path, strays: set<Place>, m: map<string, Kernel>,
                    kernels: seq<Kernel>)
    requires IsValues(kernels, m) && Matches(req, p, namespace, base, strays, m) && !IsVersion(req, "shared")
    requires AreReadBack(base, req.items, kernels)
    ensures Place("shared", "vmlinuz") !in strays
  {
    hide IsValues, IsVersion, Matches, IsListedVersion, AreReadBack;
    MatchVersion(req, p, namespace, base, strays, m, "shared");
    FoundShared(req, p, namespace, strays);
    if "shared" in m {
      MatchedIsVersion(req, p, namespace, base, strays, m, kernels, "shared");
    }
  }

  lemma MatchedIsVersion(req: Request, p: Disk, namespace: string, base: Path, strays: set<Place>,
                         m: map<string, Kernel>, kernels: seq<Kernel>, v: string)
    requires IsValues(kernels, m) && Matches(req, p, namespace, base, strays, m)
    requires AreReadBack(base, req.items, kernels) && v in m
    ensures IsVersion(req, v)
  {
    ValuesOf(m, kernels);
    hide IsValues, IsReadBack, IsVersion, Matches, IsListedVersion, AreReadBack;
    MatchVersion(req, p, namespace, base, strays, m, v);
    var item := ReadBackFrom(base, req.items, kernels, m[v]);
    ReadBackVersion(base, item.entry.inner.kernel, m[v]);
    ItemVersion(req, item);
  }

  lemma FoundEach(req: Request, p: Disk, namespace: string, base: Path, strays: set<Place>, m: map<string, Kernel>,
                  kernels: seq<Kernel>, item: Item)
    requires IsValues(kernels, m) && Matches(req, p, namespace, base, strays, m) && !IsVersion(req, "shared")
    requires AreReadBack(base, req.items, kernels) && item in req.items
    ensures IsNamedVersion(p, namespace, item.entry.inner.kernel.version)
    ensures UndisturbedVersion(strays, item.entry.inner.kernel.version)
  {
    ValuesOf(m, kernels);
    hide IsValues, UndisturbedVersion, IsReadBack, IsVersion, IsNamedVersion, Matches, IsListedVersion, AreReadBack;
    var found := ReadBackAs(base, req.items, kernels, item);
    ReadBackVersion(base, item.entry.inner.kernel, found);
    MatchVersion(req, p, namespace, base, strays, m, found.version);
    MatchItem(req, p, namespace, base, strays, m, item);
    ItemVersion(req, item);
    FoundNamed(req, p, namespace, strays, found.version);
  }

  lemma ReadBackAs(base: Path, items: seq<Item>, kernels: seq<Kernel>, item: Item) returns (found: Kernel)
    requires AreReadBack(base, items, kernels) && item in items
    ensures found in kernels && IsReadBack(base, item.entry.inner.kernel, found)
  {
    hide IsReadBack;
    found :| found in kernels && IsReadBack(base, item.entry.inner.kernel, found);
  }

  lemma ReadBackFrom(base: Path, items: seq<Item>, kernels: seq<Kernel>, found: Kernel) returns (item: Item)
    requires AreReadBack(base, items, kernels) && found in kernels
    ensures item in items && IsReadBack(base, item.entry.inner.kernel, found)
  {
    hide IsReadBack;
    item :| item in items && IsReadBack(base, item.entry.inner.kernel, found);
  }

  lemma MatchVersion(req: Request, p: Disk, namespace: string, base: Path, strays: set<Place>, m: map<string, Kernel>,
                     v: string)
    requires Matches(req, p, namespace, base, strays, m)
    ensures v in m <==> IsListedVersion(req, p, namespace, strays, v)
    ensures v in m ==> m[v].version == v
  {
    hide IsListedVersion, IsReadBack, UndisturbedVersion;
  }

  lemma MatchItem(req: Request, p: Disk, namespace: string, base: Path, strays: set<Place>, m: map<string, Kernel>,
                  item: Item)
    requires Matches(req, p, namespace, base, strays, m) && item in req.items && item.entry.inner.kernel.version in m
    ensures IsReadBack(base, item.entry.inner.kernel, m[item.entry.inner.kernel.version])
        <==> UndisturbedVersion(strays, item.entry.inner.kernel.version)
  {
    hide IsListedVersion, IsReadBack, UndisturbedVersion;
  }

  lemma FoundShared(req: Request, p: Disk, namespace: string, strays: set<Place>)
    ensures Place("shared", "vmlinuz") in strays ==> IsListedVersion(req, p, namespace, strays, "shared")
  {
    hide IsVersion, IsNamedVersion;
  }

  lemma FoundNamed(req: Request, p: Disk, namespace: string, strays: set<Place>, v: string)
    requires IsListedVersion(req, p, namespace, strays, v) && IsVersion(req, v) && !IsVersion(req, "shared")
    ensures IsNamedVersion(p, namespace, v)
  {
    hide IsVersion, IsNamedVersion;
  }

  lemma ReadBackVersion(base: Path, kernel: Kernel, found: Kernel)
    requires IsReadBack(base, kernel, found)
    ensures found.version == kernel.version
  {
  }

  lemma UndisturbedReadBack(req: Request, p: Disk, namespace: string, base: Path, strays: set<Place>,
                            m: map<string, Kernel>, kernels: seq<Kernel>)
    requires IsValues(kernels, m) && Matches(req, p, namespace, base, strays, m)
    requires AllNamed(req, p, namespace) && AllUndisturbed(req, strays)
    ensures AreReadBack(base, req.items, kernels)
  {
    ValuesOf(m, kernels);
    hide IsReadBack, IsValues, UndisturbedVersion, IsNamedVersion;
    forall item | item in req.items
      ensures item.entry.inner.kernel.version in m
      ensures exists found | found in kernels :: IsReadBack(base, item.entry.inner.kernel, found)
    {
      assert IsListedVersion(req, p, namespace, strays, item.entry.inner.kernel.version);
      assert m[item.entry.inner.kernel.version] in kernels;
    }
    forall found | found in kernels
      ensures exists item | item in req.items :: IsReadBack(base, item.entry.inner.kernel, found)
    {
      assert IsListedVersion(req, p, namespace, strays, found.version);
      var item :| item in req.items && item.entry.inner.kernel.version == found.version;
      assert m[found.version] == found;
    }
  }

  lemma ValuesOf(m: map<string, Kernel>, kernels: seq<Kernel>)
    requires IsValues(kernels, m)
    ensures forall i, j | 0 <= i < j < |kernels| :: kernels[i].version != kernels[j].version
    ensures forall v | v in m :: m[v] in kernels
    ensures forall found | found in kernels :: found.version in m && m[found.version] == found
  {
  }
}
