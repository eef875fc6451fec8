/** Crash recovery: one complete run makes up for a run that was cut short, and it can be carried out. */
module Recovery {
  import opened Text
  import opened Fat
  import opened AtomicCopy
  import opened Compare
  import opened Entries
  import opened Assets
  import opened Conf
  import opened Cmdlines
  import opened SyncPlan
  import opened Loaders
  import opened Wanted
  import opened Outcome
  import opened Effects
  import opened Frame
  import opened Scaffold
  import opened Turns
  import opened Exactness
  import opened Feasible

  // ---------------------------------------------------------------- the same outcome

  /** A directory on the way to an asset or a configuration, or a configuration. */
  ghost predicate IsShort(req: Request, p: Path) {
    IsWanted(req, p) && |p| <= 3
  }

  /** Two volumes spell all of these alike. */
  ghost predicate Alike(req: Request, p: Disk, q: Disk) {
    forall w | IsShort(req, w) :: NameOf(q, w) == NameOf(p, w)
  }

  lemma DirIsShort(req: Request, item: Item, asset: HashedAsset, n: nat)
    requires Modern(req) && item in req.items && asset in item.entry.Assets() && 0 < n <= 3
    ensures n <= |WantedDest(req, item, asset)| && IsShort(req, WantedDest(req, item, asset)[..n])
  {
    ModernItem(req, item);
    DestShape(req, item, asset);
    WantedDestIsWanted(req, item, asset);
    hide WantedDest, IsWanted, Modern;
    WantedPrefix(req, WantedDest(req, item, asset), WantedDest(req, item, asset)[..n]);
  }

  lemma ConfIsShort(req: Request, item: Item)
    requires item in req.items
    ensures IsShort(req, WantedConf(req, item))
  {
    WantedConfIsWanted(req, item);
    hide IsWanted;
  }

  lemma AlikeItem(req: Request, p: Disk, q: Disk, item: Item)
    requires Tree(p) && Tree(q) && Modern(req) && Alike(req, p, q) && item in req.items
    ensures JobOf(req, q, item).text == JobOf(req, p, item).text
    ensures NameOf(q, WantedConf(req, item)) == NameOf(p, WantedConf(req, item))
  {
    AlikeNamespace(req, p, q, item);
    ConfIsShort(req, item);
    hide WantedConf, Modern, NameOf, Tree, IsShort, NamespaceDir, EffectiveSchema, GenerateEntry;
  }

  lemma AlikeNamespace(req: Request, p: Disk, q: Disk, item: Item)
    requires Tree(p) && Tree(q) && Modern(req) && Alike(req, p, q) && item in req.items
    ensures var namespace := EffectiveSchema(req, item).OsNamespace();
            NamespaceDir(q, namespace) == NamespaceDir(p, namespace)
  {
    var namespace, image := EffectiveSchema(req, item).OsNamespace(), item.entry.image;
    ModernItem(req, item);
    DestShape(req, item, image);
    assert image in item.entry.Assets();
    DirIsShort(req, item, image, 1);
    DirIsShort(req, item, image, 2);
    var w := WantedDest(req, item, image);
    assert w[..1] == w[..2][..1] == ["EFI"];
    hide WantedDest, WantedConf, Modern, NameOf, Tree, IsShort, NamespaceDir, EffectiveSchema, GenerateEntry, OnDisk;
    OnDiskPair(p, "EFI", namespace);
    OnDiskPair(q, "EFI", namespace);
    NamespaceOnDisk(p, namespace);
    NamespaceOnDisk(q, namespace);
  }

  lemma AlikeTargets(req: Request, p: Disk, q: Disk)
    requires Tree(p) && Tree(q) && Modern(req) && Alike(req, p, q)
    ensures forall k, node :: IsTarget(req, p, k, node) <==> IsTarget(req, q, k, node)
    ensures AgreeConfs(req, p) ==> AgreeConfs(req, q)
  {
    hide Tree, Modern, Alike, NameOf, WantedConf, WantedDest, JobOf, IsAssetTarget;
    forall item | item in req.items
      ensures JobOf(req, q, item).text == JobOf(req, p, item).text
      ensures NameOf(q, WantedConf(req, item)) == NameOf(p, WantedConf(req, item))
    {
      AlikeItem(req, p, q, item);
    }
  }

  /**
   The managed state a complete run ends in depends on the request and on how the volume, once all
   directories are made, spells them and the configurations; on nothing else of what the volume held.
   */
  lemma SameOutcome(req: Request, d: Disk, run: SyncRun, e: Disk, other: SyncRun)
    requires Tree(d) && Tree(e) && Modern(req) && Genuine(req)
    requires Agrees(req, d) && AllKept(req, d) && AllKept(req, e) && Alike(req, Prepared(req, d), Prepared(req, e))
    requires CompleteRun(req, d, run) && CompleteRun(req, e, other)
    ensures ManagedState(req, Final(req, e, other)) == ManagedState(req, Final(req, d, run))
  {
    hide Tree, Modern, Genuine, AgreeAssets, AgreeConfs, AllKept, Alike, Prepared, CompleteRun, Final,
         ManagedState, IsTarget, SameScaffold, Installs;
    PreparedIsTree(req, d, run);
    PreparedIsTree(req, e, other);
    AlikeTargets(req, Prepared(req, d), Prepared(req, e));
    KeptConverges(req, d, run);
    KeptConverges(req, e, other);
    NodesDecide(ManagedState(req, Final(req, d, run)), ManagedState(req, Final(req, e, other)));
  }

  lemma NodesDecide(m: Disk, n: Disk)
    requires forall k, node :: NodeAt(m, k) == Some(node) <==> NodeAt(n, k) == Some(node)
    ensures m == n
  {
    forall k | k in m
      ensures k in n && n[k] == m[k]
    {
      assert NodeAt(m, k) == Some(m[k]);
      assert NodeAt(n, k) == Some(m[k]);
    }
    forall k | k in n
      ensures k in m
    {
      assert NodeAt(n, k) == Some(n[k]);
      assert NodeAt(m, k) == Some(n[k]);
    }
  }

  /**
   The outcome is a function of the inputs: two synchronisations of the same entries, from volumes that
   spell alike, end in the same managed state.
   */
  lemma SameInputsSameOutcome(host: Host, schema: Schema, global: GlobalCmdline, entries: seq<Entry>,
                              req: Request, d: Disk, run: SyncRun, again: Request, e: Disk, other: SyncRun)
    requires IsRequest(req, host, schema, global, entries) && IsRequest(again, host, schema, global, entries)
    requires Tree(d) && Tree(e) && Modern(req)
    requires Agrees(req, d) && AllKept(req, d) && AllKept(req, e) && Alike(req, Prepared(req, d), Prepared(req, e))
    requires CompleteRun(req, d, run) && CompleteRun(again, e, other)
    ensures ManagedState(again, Final(again, e, other)) == ManagedState(req, Final(req, d, run))
  {
    hide IsRequest, Tree, Modern, Agrees, AllKept, Alike, Prepared, CompleteRun, ManagedState, Final;
    RequestIsGenuine(req, host, schema, global, entries);
    RequestUnique(req, again, host, schema, global, entries);
    SameOutcome(req, d, run, e, other);
  }

  // ---------------------------------------------------------------- operations that keep a volume on track

  /** The operation leaves `w` alone, or creates it with the spelling of `p`. */
  ghost predicate TracksAt(p: Disk, op: Op, w: Path) {
    match op
    case MkDir(q) => Key(q) == Key(w) ==> q != [] && Last(q) == NameOf(p, w)
    case Write(q, _) => Key(q) == Key(w) ==> q != [] && Last(q) == NameOf(p, w)
    case Remove(q) => Key(q) != Key(w)
    case RemoveTree(q, _) => !(Key(q) <= Key(w))
    case Rename(a, b) => Key(a) != Key(w) && Key(b) != Key(w)
    case Barrier => true
  }

  ghost predicate Tracks(req: Request, p: Disk, op: Op) {
    && (Installing(req, op) || IsRemoval(op))
    && forall w | IsShort(req, w) :: TracksAt(p, op, w)
  }

  /** What is there is spelled as it was, or will be; and what was there still is, but for assets. */
  ghost predicate OnTrack(req: Request, d: Disk, c: Disk) {
    && (forall w | IsShort(req, w) :: ConfFine(d, c, Key(w), NameOf(Prepared(req, d), w)))
    && (forall item, asset | item in req.items && asset in item.entry.Assets() ::
          LeafFine(d, c, Key(WantedDest(req, item, asset)), Wish(WantedDest(req, item, asset))))
  }

  lemma TrackStart(req: Request, d: Disk)
    ensures OnTrack(req, d, d)
  {
    hide IsShort, WantedDest, Prepared;
    forall w | IsShort(req, w)
      ensures ConfFine(d, d, Key(w), NameOf(Prepared(req, d), w))
    {
      if Key(w) in d {
        PreparedKeeps(req, d, Key(w));
      }
    }
  }

  lemma TrackName(d: Disk, c: Disk, p: Disk, op: Op, w: Path)
    requires ConfFine(d, c, Key(w), NameOf(p, w)) && TracksAt(p, op, w)
    ensures ConfFine(d, Apply(c, op), Key(w), NameOf(p, w))
  {
    hide NameOf;
  }

  lemma TrackLeaf(d: Disk, c: Disk, op: Op, k: Path, name: string)
    requires LeafFine(d, c, k, name) && IsRemoval(op)
    ensures LeafFine(d, Apply(c, op), k, name)
  {
  }

  lemma TrackApply(req: Request, d: Disk, c: Disk, op: Op)
    requires Modern(req) && AgreeAssets(req) && OnTrack(req, d, c) && Tracks(req, Prepared(req, d), op)
    ensures OnTrack(req, d, Apply(c, op))
  {
    hide Modern, AgreeAssets, IsShort, WantedDest, Prepared, ConfFine, LeafFine, TracksAt, Apply, NameOf, Wish,
         Installing;
    forall w | IsShort(req, w)
      ensures ConfFine(d, Apply(c, op), Key(w), NameOf(Prepared(req, d), w))
    {
      TrackName(d, c, Prepared(req, d), op, w);
    }
    forall item, asset | item in req.items && asset in item.entry.Assets()
      ensures LeafFine(d, Apply(c, op), Key(WantedDest(req, item, asset)), Wish(WantedDest(req, item, asset)))
    {
      if Installing(req, op) {
        LeafStep(req, d, c, item, asset, op);
      } else {
        TrackLeaf(d, c, op, Key(WantedDest(req, item, asset)), Wish(WantedDest(req, item, asset)));
      }
    }
  }

  lemma TornTracks(req: Request, p: Disk, op: Op, torn: Op)
    requires Tracks(req, p, op) && TornOf(op, torn)
    ensures Tracks(req, p, torn)
  {
    hide IsShort, NameOf, IsDestOf;
    forall w | IsShort(req, w)
      ensures TracksAt(p, torn, w)
    {
      assert TracksAt(p, op, w);
    }
  }

  /** Whatever a power cut leaves of such operations is on track. */
  lemma {:induction false} TrackCrash(req: Request, d: Disk, e: Disk, ops: seq<Op>, c: Disk)
    requires Modern(req) && AgreeAssets(req) && OnTrack(req, d, e) && CrashOf(e, ops, c)
    requires forall op | op in ops :: Tracks(req, Prepared(req, d), op)
    ensures OnTrack(req, d, c)
    decreases |ops|
  {
    hide Modern, AgreeAssets, OnTrack, Tracks, Prepared, Apply, TornOf;
    if ops != [] {
      var op := ops[0];
      assert op in ops && forall o | o in ops[1..] :: o in ops;
      if CrashOf(Apply(e, op), ops[1..], c) {
        TrackApply(req, d, e, op);
        TrackCrash(req, d, Apply(e, op), ops[1..], c);
      } else if CrashOf(e, ops[1..], c) {
        TrackCrash(req, d, e, ops[1..], c);
      } else {
        var torn: Op :| TornOf(op, torn) && CrashOf(Apply(e, torn), ops[1..], c);
        TornTracks(req, Prepared(req, d), op, torn);
        TrackApply(req, d, e, torn);
        TrackCrash(req, d, Apply(e, torn), ops[1..], c);
      }
    }
  }

  // ---------------------------------------------------------------- volumes on track

  /** Directories missing from both volumes are made alike. */
  lemma {:induction false} MadeAlike(d: Disk, c: Disk, dirs: seq<Path>, k: Path)
    requires k !in d && k !in c
    ensures NodeAt(Made(c, dirs), k) == NodeAt(Made(d, dirs), k)
  {
    hide WithDirs;
    if dirs != [] {
      var front := dirs[..|dirs| - 1];
      MadeAlike(d, c, front, k);
      WithDirsAt(Made(d, front), Last(dirs), k);
      WithDirsAt(Made(c, front), Last(dirs), k);
    }
  }

  lemma TrackAlike(req: Request, d: Disk, c: Disk)
    requires OnTrack(req, d, c)
    ensures Alike(req, Prepared(req, d), Prepared(req, c))
  {
    hide IsShort, WantedDest, RequestDirs, Made;
    forall w | IsShort(req, w)
      ensures NameOf(Prepared(req, c), w) == NameOf(Prepared(req, d), w)
    {
      var k, dirs := Key(w), RequestDirs(req, |req.items|);
      assert ConfFine(d, c, k, NameOf(Prepared(req, d), w));
      if k in c {
        MadeKeeps(c, dirs, k);
      } else {
        MadeAlike(d, c, dirs, k);
      }
    }
  }

  lemma AlikeSpelled(req: Request, p: Disk, q: Disk, k: Path)
    requires Modern(req) && Alike(req, p, q) && IsSpelled(req, p, k)
    ensures IsSpelled(req, q, k)
  {
    hide Modern, Alike, WantedDest, NameOf, IsShort;
    var item, asset :| item in req.items && asset in item.entry.Assets() && SpelledBy(req, p, k, item, asset);
    DirIsShort(req, item, asset, 3);
    AlikeAt(req, p, q, WantedDest(req, item, asset)[..3]);
    assert SpelledBy(req, q, k, item, asset);
  }

  lemma AlikeAt(req: Request, p: Disk, q: Disk, w: Path)
    requires Alike(req, p, q) && IsShort(req, w)
    ensures NameOf(q, w) == NameOf(p, w)
  {
    hide IsShort, NameOf;
  }

  lemma TrackKept(req: Request, d: Disk, c: Disk)
    requires Modern(req) && OnTrack(req, d, c) && AllKept(req, d)
    ensures AllKept(req, c)
  {
    TrackAlike(req, d, c);
    hide Modern, Alike, WantedDest, IsShort, Prepared, IsSpelled, IsCleaned, ConfFine;
    forall item, asset | item in req.items && asset in item.entry.Assets()
      ensures IsKept(req, c, item, asset)
    {
      var w := WantedDest(req, item, asset);
      assert IsKept(req, d, item, asset);
      assert LeafFine(d, c, Key(w), Wish(w));
      if IsCleaned(req, Key(w)) {
        AlikeSpelled(req, Prepared(req, d), Prepared(req, c), Key(w));
      }
    }
  }

  // ---------------------------------------------------------------- a run keeps the volume on track

  /** An operation of installing belongs to an entry's turn. */
  lemma {:induction false} TurnOf(req: Request, d: Disk, picks: seq<seq<bool>>, n: nat, op: Op) returns (i: nat)
    requires PicksFit(req, picks, n) && op in Installs(req, d, picks, n).ops
    ensures i < n && op in InstallOps(req.host, DiskAfter(req, d, picks, i), JobAt(req, d, picks, i), picks[i])
  {
    hide InstallOps, JobOf, Run;
    if op in Installs(req, d, picks, n - 1).ops {
      i := TurnOf(req, d, picks, n - 1, op);
    } else {
      i := n - 1;
    }
  }

  lemma {:induction false} CopyOf(host: Host, d: Disk, pairs: seq<Pair>, n: nat, op: Op) returns (pair: Pair)
    requires HaveDests(pairs) && n <= |pairs| && op in CopiesOps(host, d, pairs, n)
    ensures pair in pairs && pair.dest != [] && CopyShape(op, pair.dest)
  {
    hide CopyOps, CopyShape, Run;
    var before := CopiesOps(host, d, pairs, n - 1);
    pair := pairs[n - 1];
    assert pair in pairs;
    if op in before {
      pair := CopyOf(host, d, pairs, n - 1, op);
    } else {
      CopyOpsShape(Run(d, before), ContentOf(host, pair.source), pair.dest);
    }
  }

  /** What an operation of an entry's turn can be, if it concerns a short path. */
  lemma EntryOp(req: Request, e: Disk, item: Item, picked: seq<bool>, op: Op)
    requires Tree(e) && Modern(req) && item in req.items && |picked| == |item.entry.Assets()|
    requires op in InstallOps(req.host, e, JobOf(req, e, item), picked)
    ensures op.Write? && |op.path| <= 3 ==> op.path == JobOf(req, e, item).conf
    ensures op.MkDir? && op.path != [] ==>
              |op.path| == 3 || |op.path[0]| == 6
              || (|op.path| <= 2 && op.path <= NamespaceDir(e, EffectiveSchema(req, item).OsNamespace()))
    ensures op.Remove? ==> |op.path| == 4
    ensures op.Rename? ==> |op.path| == |op.to| == 4
    ensures !op.RemoveTree?
  {
    ModernItem(req, item);
    hide Tree, Modern, JobOf, CopiesOps, ConfOps, Run, EffectiveSchema, NamespaceDir;
    var job := JobOf(req, e, item);
    var needed := Select(job.changeset, picked);
    var copies := CopiesOps(req.host, e, needed, |needed|);
    if op in copies {
      var pair := CopyOf(req.host, e, needed, |needed|, op);
      CopyEntryOp(req, e, item, pair, op);
    } else {
      ConfEntryOp(Run(e, copies), job, op) by {
        TreeRun(e, copies);
      }
    }
  }

  lemma CopyEntryOp(req: Request, e: Disk, item: Item, pair: Pair, op: Op)
    requires Tree(e) && Modern(req) && item in req.items && !EffectiveSchema(req, item).Legacy?
    requires pair in JobOf(req, e, item).changeset && pair.dest != [] && CopyShape(op, pair.dest)
    ensures op.Write? ==> |op.path| == 4
    ensures op.MkDir? && op.path != [] ==>
              |op.path| == 3
              || (|op.path| <= 2 && op.path <= NamespaceDir(e, EffectiveSchema(req, item).OsNamespace()))
    ensures op.Remove? ==> |op.path| == 4
    ensures op.Rename? ==> |op.path| == |op.to| == 4
    ensures !op.RemoveTree?
  {
    hide Tree, Modern, JobOf, WantedDest, EffectiveSchema, NamespaceDir, IsDestOf;
    var asset := JobPair(req, e, item, pair);
    StagingDiffers(pair.dest);
    assert |Staging(pair.dest)| == |Key(Staging(pair.dest))|;
    DestDirs(req, e, item, asset);
    NamespaceKey(e, EffectiveSchema(req, item).OsNamespace());
    var base := NamespaceDir(e, EffectiveSchema(req, item).OsNamespace());
    assert |base| == |Key(base)| == 2 && pair.dest[..2] == base;
    hide Staging, AssetPair;
    if op.MkDir? && |op.path| <= 2 {
      assert op.path == pair.dest[..|op.path|] == base[..|op.path|];
    }
  }

  lemma ConfEntryOp(f: Disk, job: Job, op: Op)
    requires Tree(f) && op in ConfOps(f, job)
    ensures op == Write(job.conf, job.text) || (op.MkDir? && op.path != [] && |op.path[0]| == 6)
  {
    EntriesKey(f);
    var dir := EntriesDir(f);
    assert |dir[0]| == |Key(dir)[0]| == 6;
    hide EntriesDir, MkDirs;
    if op in MkDirs(dir) {
      MkDirsShape(dir, op);
      assert op.path[0] == dir[0];
    }
  }

  /** Every directory the entries need is there once it is made. */
  lemma {:induction false} MadeThere(d: Disk, dirs: seq<Path>, dir: Path, k: Path)
    requires dir in dirs && k != [] && k <= Key(dir)
    ensures k in Made(d, dirs)
  {
    hide WithDirs;
    var front := dirs[..|dirs| - 1];
    WithDirsAt(Made(d, front), Last(dirs), k);
    if dir != Last(dirs) {
      assert dir in front;
      MadeThere(d, front, dir, k);
    }
  }

  lemma {:induction false} DirOfRequest(req: Request, n: nat, i: nat, j: nat)
    requires i < n <= |req.items| && j < |req.items[i].entry.Assets()|
    ensures ParentOf(WantedDest(req, req.items[i], req.items[i].entry.Assets()[j])) in RequestDirs(req, n)
  {
    hide WantedDest;
    if i < n - 1 {
      DirOfRequest(req, n - 1, i, j);
    } else {
      var dirs := AssetDirs(req, req.items[i]);
      assert dirs[j] in dirs;
      assert dirs[j] in ItemDirs(req, req.items[i]);
    }
  }

  lemma PreparedHas(req: Request, d: Disk, w: Path)
    requires Modern(req) && IsShort(req, w) && |w[0]| == 3
    ensures Key(w) in Prepared(req, d)
  {
    hide Made, RequestDirs, WantedDest, Modern;
    var item, asset := ShortDir(req, w);
    var i :| 0 <= i < |req.items| && req.items[i] == item;
    var j :| 0 <= j < |item.entry.Assets()| && item.entry.Assets()[j] == asset;
    ModernItem(req, item);
    DestShape(req, item, asset);
    DirOfRequest(req, |req.items|, i, j);
    var dir := ParentOf(WantedDest(req, item, asset));
    KeyTake(dir, |w|);
    assert w == dir[..|w|];
    MadeThere(d, RequestDirs(req, |req.items|), dir, Key(w));
  }

  lemma ShortDir(req: Request, w: Path) returns (item: Item, asset: HashedAsset)
    requires IsShort(req, w) && |w[0]| == 3
    ensures item in req.items && asset in item.entry.Assets() && w <= WantedDest(req, item, asset) && 0 < |w| <= 3
  {
    hide WantedDest;
    assert !InConf(req, w) by {
      hide ConfName;
    }
    item, asset :| item in req.items && asset in item.entry.Assets() && w <= WantedDest(req, item, asset);
  }

  lemma ShortHead(req: Request, w: Path)
    requires IsShort(req, w)
    ensures w != [] && (|w[0]| == 3 || |w[0]| == 6) && (|w[0]| == 6 && |w| == 3 ==> InConf(req, w))
  {
    hide ConfName, HashedAsset.InstalledName;
  }

  /** Making a directory of a namespace, or the namespace itself. */
  lemma NamespaceTracks(req: Request, d: Disk, i: nat, q: Path, w: Path)
    requires Modern(req) && Tree(Prepared(req, d)) && i < |req.items| && IsShort(req, w) && Key(q) == Key(w)
    requires q != [] && q <= NamespaceDir(Prepared(req, d), EffectiveSchema(req, req.items[i]).OsNamespace())
    ensures Last(q) == NameOf(Prepared(req, d), w)
  {
    var p, namespace := Prepared(req, d), EffectiveSchema(req, req.items[i]).OsNamespace();
    NamespaceOnDisk(p, namespace);
    var full := ["EFI", namespace];
    OnDiskTake(p, full, |q|);
    assert q == OnDisk(p, full[..|q|]);
    OnDiskLast(p, full[..|q|]);
    OnDiskKey(p, full[..|q|]);
    assert |w[0]| == |Key(w)[0]| == |Key(full[..|q|])[0]| == |full[..|q|][0]| == 3;
    hide Prepared, Modern, OnDisk, NamespaceDir;
    PreparedHas(req, d, w);
  }

  /** Writing a configuration. */
  lemma ConfTracks(req: Request, d: Disk, run: SyncRun, i: nat, w: Path)
    requires Tree(d) && Modern(req) && AgreeConfs(req, Prepared(req, d)) && CompleteRun(req, d, run) && Fits(req, run)
    requires i < |req.items| && IsShort(req, w) && Key(JobAt(req, d, run.picks, i).conf) == Key(w)
    ensures JobAt(req, d, run.picks, i).conf != []
    ensures Last(JobAt(req, d, run.picks, i).conf) == NameOf(Prepared(req, d), w)
  {
    var e, item, p := DiskAfter(req, d, run.picks, i), req.items[i], Prepared(req, d);
    hide Tree, Modern, AgreeConfs, CompleteRun, Installs, JobOf, Prepared, SameScaffold, Made, RequestDirs, NameOf,
         ConfName;
    TurnDisk(req, d, run, i);
    JobConfShape(req, e, e, item);
    JobConfLast(req, e, item);
    ConfNamed(req, d, run, i, item);
    ConfUnprepared(req, d, item);
    assert |w| == |Key(w)| == 3 && |w[0]| == |Key(w)[0]| == 6;
    var other := WantedConfOf(req, w);
    AgreeOnConf(req, p, item, other);
    if Key(WantedConf(req, item)) !in e {
      NameOfAbsent(req, p, item);
    }
  }

  lemma InstallTracks(req: Request, d: Disk, run: SyncRun, op: Op)
    requires Tree(d) && Modern(req) && AgreeConfs(req, Prepared(req, d)) && CompleteRun(req, d, run) && Fits(req, run)
    requires op in InstallPhase(req, d, run).ops
    ensures Tracks(req, Prepared(req, d), op)
  {
    hide Tree, Modern, AgreeConfs, CompleteRun, Installs, JobOf, Prepared, SameScaffold, Made, RequestDirs,
         InstallOps, Installing, IsShort, NamespaceDir, EffectiveSchema, TracksAt, AllCan;
    var p := Prepared(req, d);
    InstallsInstalling(req, d, run.picks, |req.items|);
    PreparedIsTree(req, d, run);
    AllLastHere(req, d, run, op);
    var i := TurnOf(req, d, run.picks, |req.items|, op);
    NamespaceAtEnd(req, d, run, i);
    EntryOp(req, DiskAfter(req, d, run.picks, i), req.items[i], run.picks[i], op);
    forall w | IsShort(req, w)
      ensures TracksAt(p, op, w)
    {
      ShortHead(req, w);
      ShortLength(req, w);
      if op.MkDir? && Key(op.path) == Key(w) {
        MkDirTracks(req, d, i, op.path, w);
      } else if op.Write? && Key(op.path) == Key(w) {
        assert |op.path| == |Key(op.path)| == |w|;
        ConfTracks(req, d, run, i, w);
      }
      OpTracks(p, op, w);
    }
  }

  /** What does not create a short path leaves it alone, when it installs. */
  lemma OpTracks(p: Disk, op: Op, w: Path)
    requires 0 < |w| <= 3 && !op.RemoveTree?
    requires (op.MkDir? || op.Write?) && Key(op.path) == Key(w) ==> op.path != [] && Last(op.path) == NameOf(p, w)
    requires op.Remove? ==> |op.path| == 4
    requires op.Rename? ==> |op.path| == |op.to| == 4
    ensures TracksAt(p, op, w)
  {
    hide NameOf;
    assert |Key(w)| == |w|;
    assert op.Remove? || op.Rename? ==> |Key(op.path)| == 4;
    assert op.Rename? ==> |Key(op.to)| == 4;
  }

  lemma ShortLength(req: Request, w: Path)
    requires IsShort(req, w)
    ensures 0 < |w| <= 3
  {
    hide InConf, InDest;
  }

  lemma AllLastHere(req: Request, d: Disk, run: SyncRun, op: Op)
    requires Tree(d) && Modern(req) && CompleteRun(req, d, run) && Fits(req, run)
    requires op in InstallPhase(req, d, run).ops
    ensures Lasts(Prepared(req, d), op)
  {
    hide Tree, Modern, CompleteRun, Installs, Made, RequestDirs, Lasts, SameScaffold, AllCan, InstallsJustified;
    CompletePicks(req, d, run);
    InstallsScaffold(req, d, run.picks, |req.items|);
    assert AllLast(Prepared(req, d), InstallPhase(req, d, run).ops);
  }

  /** A directory is made with the spelling it has in the end. */
  lemma MkDirTracks(req: Request, d: Disk, i: nat, q: Path, w: Path)
    requires Modern(req) && Tree(Prepared(req, d)) && i < |req.items| && IsShort(req, w) && Key(q) == Key(w) && w != []
    requires Lasts(Prepared(req, d), MkDir(q))
    requires q != [] ==>
               |q| == 3 || |q[0]| == 6
               || q <= NamespaceDir(Prepared(req, d), EffectiveSchema(req, req.items[i]).OsNamespace())
    ensures q != [] && Last(q) == NameOf(Prepared(req, d), w)
  {
    hide Tree, Modern, Prepared, IsShort, NamespaceDir, EffectiveSchema;
    assert |q| == |Key(q)| == |Key(w)| == |w|;
    if |q| != 3 && |q[0]| != 6 {
      NamespaceTracks(req, d, i, q, w);
    }
  }

  lemma CleanupTracks(req: Request, d: Disk, run: SyncRun, op: Op)
    requires Tree(d) && Modern(req) && Genuine(req) && Agrees(req, d) && AllKept(req, d)
    requires CompleteRun(req, d, run) && Fits(req, run) && op in CleanupOps(run)
    ensures Tracks(req, Prepared(req, d), op)
  {
    hide Tree, Modern, Genuine, AgreeAssets, AgreeConfs, IsKept, CompleteRun, Installs, Prepared, Final, Results,
         Cleaned, CleanupOps, RemovesStale, IsShort, Touches, TracksAt, WantedConf, WantedDest;
    TwoPhases(req, d, run);
    RemovalShape(InstallPhase(req, d, run).disk, req.schema, Results(req, d, run), run, op);
    forall w | IsShort(req, w)
      ensures TracksAt(Prepared(req, d), op, w)
    {
      ShortAbove(req, w);
      if item :| item in req.items && w <= WantedConf(req, item) {
        CleanupSparesConf(req, d, run, item, op);
        WantedConfShape(req, item);
        SparedAbove(Prepared(req, d), op, w, WantedConf(req, item));
      } else {
        var item, asset :| item in req.items && asset in item.entry.Assets() && w <= WantedDest(req, item, asset);
        assert IsKept(req, d, item, asset);
        CleanupSparesKept(req, d, run, item, asset, op);
        AssetKeyShape(req, item, asset);
        SparedAbove(Prepared(req, d), op, w, WantedDest(req, item, asset));
      }
    }
  }

  lemma WantedConfShape(req: Request, item: Item)
    ensures |WantedConf(req, item)| == 3 && |WantedConf(req, item)[0]| == 6
  {
  }

  lemma ShortAbove(req: Request, w: Path)
    requires IsShort(req, w)
    ensures || (exists item | item in req.items :: w <= WantedConf(req, item))
            || (exists item, asset | item in req.items && asset in item.entry.Assets() ::
                  w <= WantedDest(req, item, asset))
    ensures |w| <= 3
  {
    hide WantedConf, WantedDest;
  }

  /** Cleaning up removes configurations, subtrees at kernel directories, and files in these. */
  predicate IsCleanupShape(op: Op) {
    || (op.RemoveTree? && |op.path| == 3 && |Key(op.path)[0]| == 3)
    || (op.Remove? && (|op.path| == 4 || (|op.path| == 3 && |Key(op.path)[0]| == 6)))
  }

  lemma RemovalShape(e: Disk, schema: Schema, results: seq<InstallResult>, run: SyncRun, op: Op)
    requires Tree(e) && RemovesStale(e, schema, results, run) && op in CleanupOps(run)
    ensures IsCleanupShape(op)
  {
    hide Tree, LoaderFiles, KernelDirs, IsStaleConf, IsStaleTree, IsStaleFile, FilesBelow;
    if op in run.confs {
      LoaderFileKey(e, schema, op.path);
      assert |Key(op.path)[..2][0]| == |Key(["loader", "entries"])[0]|;
    } else if op in run.trees {
      BelowEfi(e, schema, op.path);
    } else {
      var dir :| dir in KernelDirs(e, schema) && op.path in FilesBelow(e, dir);
      BelowEfi(e, schema, dir);
      var n := FileListed(e, dir, op.path);
    }
  }

  /** What spares a path spares the directories on the way to it. */
  lemma SparedAbove(p: Disk, op: Op, w: Path, full: Path)
    requires w <= full && |w| <= 3 && !Touches(op, Key(full))
    requires (|full| == 3 && |full[0]| == 6) || (|full| == 4 && |full[0]| == 3)
    requires IsCleanupShape(op)
    ensures TracksAt(p, op, w)
  {
    KeyTake(full, |w|);
    assert w == full[..|w|];
    assert Key(w) <= Key(full);
    if w != [] {
      assert |Key(w)[0]| == |w[0]| == |full[0]|;
    }
  }

  lemma RunTracks(req: Request, d: Disk, run: SyncRun, op: Op)
    requires Tree(d) && Modern(req) && Genuine(req) && Agrees(req, d) && AllKept(req, d) && CompleteRun(req, d, run)
    requires op in SyncOps(req, d, run)
    ensures Tracks(req, Prepared(req, d), op)
  {
    hide Tree, Modern, Genuine, AgreeAssets, AgreeConfs, AllKept, CompleteRun, SyncOps, Installs, Prepared, Tracks,
         CleanupOps;
    SyncOpsParts(req, d, run);
    if op in InstallPhase(req, d, run).ops {
      InstallTracks(req, d, run, op);
    } else {
      CleanupTracks(req, d, run, op);
    }
  }

  // ---------------------------------------------------------------- after a cut

  /** What a cut run leaves behind keeps every asset, and its directories will be spelled as planned. */
  lemma CutIsOnTrack(req: Request, d: Disk, run: SyncRun, n: nat, c: Disk)
    requires Tree(d) && Modern(req) && Genuine(req) && Agrees(req, d) && AllKept(req, d) && CompleteRun(req, d, run)
    requires n <= |SyncOps(req, d, run)| && CrashOf(d, SyncOps(req, d, run)[..n], c)
    ensures Tree(c) && AllKept(req, c) && Alike(req, Prepared(req, d), Prepared(req, c))
  {
    hide Tree, Modern, Genuine, AgreeAssets, AgreeConfs, AllKept, CompleteRun, SyncOps, Prepared, Tracks, CrashOf,
         OnTrack, Alike;
    SyncOpsParts(req, d, run);
    TreeCrash(d, SyncOps(req, d, run)[..n], c);
    TrackStart(req, d);
    forall op | op in SyncOps(req, d, run)[..n]
      ensures Tracks(req, Prepared(req, d), op)
    {
      assert op in SyncOps(req, d, run);
      RunTracks(req, d, run, op);
    }
    TrackCrash(req, d, d, SyncOps(req, d, run)[..n], c);
    TrackAlike(req, d, c);
    TrackKept(req, d, c);
  }

  /**
   Crash recovery.  Cut a run at any operation - also inside a copy - and let the medium lose or tear
   whatever the last barrier had not made durable: one complete run from what is left ends in the managed
   state the uncut run would have ended in.
   */
  lemma RecoversFromCut(req: Request, d: Disk, run: SyncRun, n: nat, c: Disk, again: SyncRun)
    requires Tree(d) && Modern(req) && Genuine(req) && Agrees(req, d) && AllKept(req, d) && CompleteRun(req, d, run)
    requires n <= |SyncOps(req, d, run)| && CrashOf(d, SyncOps(req, d, run)[..n], c)
    requires CompleteRun(req, c, again)
    ensures ManagedState(req, Final(req, c, again)) == ManagedState(req, Final(req, d, run))
  {
    CutIsOnTrack(req, d, run, n, c);
    hide Tree, Modern, Genuine, Agrees, AllKept, Alike, Prepared, CompleteRun, SyncOps, Final, ManagedState;
    SameOutcome(req, d, run, c, again);
  }

  /**
   Recovery is possible: cut a run anywhere, and no installation from what is left gets stuck, if nothing
   was in the way before the run.
   */
  lemma NeverStuckAfterCut(req: Request, d: Disk, run: SyncRun, n: nat, c: Disk, picks: seq<seq<bool>>)
    requires Tree(d) && Modern(req) && Unobstructed(req, d) && CompleteRun(req, d, run)
    requires n <= |SyncOps(req, d, run)| && CrashOf(d, SyncOps(req, d, run)[..n], c)
    ensures Tree(c) && Unobstructed(req, c) && !Stuck(req, c, picks)
  {
    hide Tree, Modern, CompleteRun, SyncOps, KeepsClear, FilesOf, AllClear, PrefixFree, Stuck, CrashOf, CleanupOps,
         Installs, Results, Cleaned, RemovesStale;
    SyncOpsParts(req, d, run);
    TwoPhases(req, d, run);
    InstallsKeepClear(req, d, run.picks, |req.items|);
    FilesPrefixFree(req);
    forall op | op in SyncOps(req, d, run)[..n]
      ensures KeepsClear(FilesOf(req), op)
    {
      assert op in SyncOps(req, d, run);
      if op in CleanupOps(run) {
        RemovalKeeps(FilesOf(req), op);
      }
    }
    ClearCrash(d, FilesOf(req), SyncOps(req, d, run)[..n], c);
    TreeCrash(d, SyncOps(req, d, run)[..n], c);
    NeverStuck(req, c, picks);
  }

  /** After every power cut there is a complete run, and it recovers. */
  lemma RecoveryExists(req: Request, d: Disk, run: SyncRun, n: nat, c: Disk) returns (again: SyncRun)
    requires Tree(d) && Modern(req) && Genuine(req) && Agrees(req, d) && AllKept(req, d) && CompleteRun(req, d, run)
    requires Unobstructed(req, d)
    requires n <= |SyncOps(req, d, run)| && CrashOf(d, SyncOps(req, d, run)[..n], c)
    ensures CompleteRun(req, c, again)
    ensures ManagedState(req, Final(req, c, again)) == ManagedState(req, Final(req, d, run))
  {
    hide Genuine, Tree, Modern, Agrees, AllKept, Unobstructed, CompleteRun, SyncOps, CrashOf, ManagedState, Final,
         Stuck, InstallsExact;
    NeverStuckAfterCut(req, d, run, n, c, []);
    again := RunExists(req, c);
    RecoversFromCut(req, d, run, n, c, again);
  }
}
