/** The directories a request brings into being, and how the volume spells them in the end. */
module Scaffold {
  import opened Text
  import opened Fat
  import opened Volumes
  import opened AtomicCopy
  import opened Compare
  import opened Assets
  import opened Conf
  import opened SyncPlan
  import opened Loaders
  import opened Wanted
  import opened Effects

  // ---------------------------------------------------------------- making directories in order

  /** The volume once the given directories are made, one after another. */
  function Made(d: Disk, dirs: seq<Path>): Disk {
    if dirs == [] then d else WithDirs(Made(d, dirs[..|dirs| - 1]), Last(dirs))
  }

  lemma MadeNext(d: Disk, dirs: seq<Path>, dir: Path)
    ensures Made(d, dirs + [dir]) == WithDirs(Made(d, dirs), dir)
  {
    assert (dirs + [dir])[..|dirs|] == dirs;
  }

  lemma {:induction false} MadeConcat(d: Disk, a: seq<Path>, b: seq<Path>)
    ensures Made(d, a + b) == Made(Made(d, a), b)
    decreases |b|
  {
    if b == [] {
      assert a + b == a;
    } else {
      assert (a + b)[..|a + b| - 1] == a + b[..|b| - 1];
      MadeConcat(d, a, b[..|b| - 1]);
    }
  }

  /** What is there stays as it is. */
  lemma {:induction false} MadeKeeps(d: Disk, dirs: seq<Path>, k: Path)
    requires k in d
    ensures NodeAt(Made(d, dirs), k) == NodeAt(d, k)
  {
    hide WithDirs;
    if dirs != [] {
      MadeKeeps(d, dirs[..|dirs| - 1], k);
      WithDirsAt(Made(d, dirs[..|dirs| - 1]), Last(dirs), k);
    }
  }

  /** What is new is a directory, spelled as one of those that were to be made. */
  lemma {:induction false} MadeName(d: Disk, dirs: seq<Path>, k: Path)
    requires k !in d && k in Made(d, dirs)
    ensures exists dir | dir in dirs :: k != [] && k <= Key(dir) && Made(d, dirs)[k] == Dir(dir[|k| - 1])
  {
    hide WithDirs;
    var front := dirs[..|dirs| - 1];
    assert dirs == front + [Last(dirs)];
    WithDirsAt(Made(d, front), Last(dirs), k);
    if k in Made(d, front) {
      MadeName(d, front, k);
      var dir :| dir in front && k != [] && k <= Key(dir) && Made(d, front)[k] == Dir(dir[|k| - 1]);
      assert dir in dirs;
    } else {
      assert Last(dirs) in dirs;
    }
  }

  /** Everything down to the key is there. */
  ghost predicate IsThere(d: Disk, k: Path) {
    forall j: Path {:trigger j in d} | j != [] && j <= k :: j in d
  }

  lemma {:induction false} WithDirsThere(d: Disk, p: Path)
    requires IsThere(d, Key(p))
    ensures WithDirs(d, p) == d
  {
    if p != [] {
      KeyParent(p);
      assert IsThere(d, Key(Parent(p)));
      WithDirsThere(d, Parent(p));
      assert Key(p) in d;
    }
  }

  lemma ThereInTree(d: Disk, k: Path)
    requires Tree(d) && (k == [] || k in d)
    ensures IsThere(d, k)
    decreases |k|
  {
    if k != [] {
      assert Placed(d, k);
      ThereInTree(d, Parent(k));
      forall j: Path | j != [] && j <= k
        ensures j in d
      {
        if j != k {
          assert j <= Parent(k);
        }
      }
    }
  }

  /** Making directories that are there already can be left out. */
  lemma {:induction false} MadeSelect(d: Disk, dirs: seq<Path>, picked: seq<bool>)
    requires |picked| == |dirs|
    requires forall i | 0 <= i < |dirs| && !picked[i] :: IsThere(d, Key(dirs[i]))
    ensures Made(d, Select(dirs, picked)) == Made(d, dirs)
    decreases |dirs|
  {
    hide WithDirs, IsThere;
    if dirs != [] {
      var n := |dirs| - 1;
      var front, before := dirs[..n], picked[..n];
      MadeSelect(d, front, before);
      assert front + [dirs[n]] == dirs && before + [picked[n]] == picked;
      SelectSnoc(front, before, dirs[n], picked[n]);
      if picked[n] {
        MadeNext(d, Select(front, before), dirs[n]);
      } else {
        assert Select(front, before) + [] == Select(front, before);
        StillThere(d, front, Key(dirs[n]));
        WithDirsThere(Made(d, front), dirs[n]);
      }
    }
  }

  lemma StillThere(d: Disk, dirs: seq<Path>, k: Path)
    requires IsThere(d, k)
    ensures IsThere(Made(d, dirs), k)
  {
    forall j: Path | j != [] && j <= k
      ensures j in Made(d, dirs)
    {
      MadeKeeps(d, dirs, j);
    }
  }

  // ---------------------------------------------------------------- the scaffold

  /** Keys at which installing only ever makes directories. */
  predicate IsScaffold(k: Path) {
    k != [] && ((|k| <= 3 && |k[0]| == 3) || (|k| <= 2 && |k[0]| == 6))
  }

  /** A directory all of whose path lies in the scaffold. */
  predicate IsScaffoldDir(p: Path) {
    p == [] || IsScaffold(p)
  }

  ghost predicate SameScaffold(d: Disk, e: Disk) {
    forall k | IsScaffold(k) :: NodeAt(d, k) == NodeAt(e, k)
  }

  /** Two spellings of a path that agree where the volume does not decide. */
  ghost predicate AgreeWhereAbsent(d: Disk, p: Path, q: Path) {
    Key(p) == Key(q) && |p| == |q| && forall n | 0 < n <= |p| && Key(p)[..n] !in d :: p[n - 1] == q[n - 1]
  }

  lemma SameWithDirs(d: Disk, e: Disk, p: Path, q: Path)
    requires SameScaffold(d, e) && IsScaffoldDir(p) && AgreeWhereAbsent(d, p, q)
    ensures SameScaffold(WithDirs(d, p), WithDirs(e, q))
  {
    hide WithDirs;
    forall k | IsScaffold(k)
      ensures NodeAt(WithDirs(d, p), k) == NodeAt(WithDirs(e, q), k)
    {
      WithDirsAt(d, p, k);
      WithDirsAt(e, q, k);
      assert NodeAt(d, k) == NodeAt(e, k);
      if k !in d && k <= Key(p) {
        assert Key(p)[..|k|] == k;
      }
    }
  }

  /** A copy leaves the scaffold as making its directories does. */
  lemma CopyScaffold(d: Disk, e: Disk, content: Content, dest: Path, dir: Path)
    requires Tree(d) && |dest| == 4 && |dest[0]| == 3 && AllCan(d, CopyOps(d, content, dest))
    requires SameScaffold(d, e) && AgreeWhereAbsent(d, Parent(dest), dir)
    ensures SameScaffold(Run(d, CopyOps(d, content, dest)), WithDirs(e, dir))
  {
    hide Run, AllCan, CopyOps, WithDirs, Tree, AgreeWhereAbsent;
    CopyRun(d, content, dest);
    SameWithDirs(d, e, Parent(dest), dir);
    hide SameScaffold;
    ScaffoldUntouched(WithDirs(d, Parent(dest)), AfterCopy(d, content, dest), dest, File(Last(dest), content));
    SameTransfers(AfterCopy(d, content, dest), WithDirs(d, Parent(dest)), WithDirs(e, dir));
  }

  lemma ScaffoldUntouched(d: Disk, f: Disk, dest: Path, node: Node)
    requires |dest| == 4 && f == (d - {Key(Staging(dest))})[Key(dest) := node]
    ensures SameScaffold(f, d)
  {
  }

  lemma SameTransfers(d: Disk, e: Disk, f: Disk)
    requires SameScaffold(d, e) && SameScaffold(e, f)
    ensures SameScaffold(d, f)
  {
  }

  // ---------------------------------------------------------------- the directories of a request

  /** The directories one entry needs, in the order they are looked at. */
  function ItemDirs(req: Request, item: Item): (r: seq<Path>)
    ensures |r| == |item.entry.Assets()| + 1
  {
    AssetDirs(req, item) + [["loader", "entries"]]
  }

  function AssetDirs(req: Request, item: Item): (r: seq<Path>)
    ensures |r| == |item.entry.Assets()|
    ensures forall i | 0 <= i < |r| :: r[i] == ParentOf(WantedDest(req, item, item.entry.Assets()[i]))
  {
    var assets := item.entry.Assets();
    seq(|assets|, i requires 0 <= i < |assets| => ParentOf(WantedDest(req, item, assets[i])))
  }

  function RequestDirs(req: Request, n: nat): seq<Path>
    requires n <= |req.items|
  {
    if n == 0 then [] else RequestDirs(req, n - 1) + ItemDirs(req, req.items[n - 1])
  }

  /** The volume with all directories of the request made, in order: the first to need one spells it. */
  function Prepared(req: Request, d: Disk): Disk {
    Made(d, RequestDirs(req, |req.items|))
  }

  // ---------------------------------------------------------------- one entry

  /** A pair leads to the wanted path, under whatever spelling `e` has. */
  ghost predicate LeadsTo(e: Disk, pair: Pair, dir: Path) {
    |pair.dest| == 4 && |pair.dest[0]| == 3 && |dir| == 3 && AgreeWhereAbsent(e, Parent(pair.dest), dir)
  }

  lemma AssetLeads(req: Request, e: Disk, item: Item, asset: HashedAsset)
    requires Tree(e) && !EffectiveSchema(req, item).Legacy?
    ensures LeadsTo(e, AssetPair(req, e, item, asset), ParentOf(WantedDest(req, item, asset)))
  {
    var w, dest := WantedDest(req, item, asset), AssetPair(req, e, item, asset).dest;
    var namespace := EffectiveSchema(req, item).OsNamespace();
    PairDest(req, e, item, asset);
    DestShape(req, item, asset);
    KeyParent(dest);
    KeyParent(w);
    NamespaceKey(e, namespace);
    assert |dest[0]| == |Key(dest)[0]| == |Key(w)[0]| == 3;
    DestDirs(req, e, item, asset);
    hide WantedDest, HashedAsset.InstalledName;
    var base := NamespaceDir(e, namespace);
    NamespaceSpelled(e, namespace);
    assert Parent(dest)[..2] == base && Parent(w)[..2] == ["EFI", namespace];
    forall n | 0 < n <= 3 && Key(Parent(dest))[..n] !in e
      ensures Parent(dest)[n - 1] == Parent(w)[n - 1]
    {
      if n <= 2 {
        KeyTake(Parent(dest), 2);
        assert Key(Parent(dest))[..n] == Key(base)[..n];
        assert Parent(dest)[n - 1] == base[n - 1];
      }
    }
  }

  lemma DestDirs(req: Request, e: Disk, item: Item, asset: HashedAsset)
    requires !EffectiveSchema(req, item).Legacy?
    ensures var base, w := NamespaceDir(e, EffectiveSchema(req, item).OsNamespace()), WantedDest(req, item, asset);
            |w| == 4 && AssetPair(req, e, item, asset).dest == base + [w[2], w[3]]
  {
    DestShape(req, item, asset);
    var name := asset.InstalledName(EffectiveSchema(req, item), req.table);
    assert name == WantedDest(req, item, asset)[2..];
    assert |name| == 2;
    hide HashedAsset.InstalledName, NamespaceDir;
    assert name == [name[0], name[1]];
  }

  /** The namespace directory is spelled as asked for where the volume does not decide. */
  lemma NamespaceSpelled(e: Disk, namespace: string)
    requires Tree(e)
    ensures AgreeWhereAbsent(e, NamespaceDir(e, namespace), ["EFI", namespace])
  {
    NamespaceKey(e, namespace);
    var base, k := NamespaceDir(e, namespace), Key(["EFI", namespace]);
    JoinKeepsKey(e, [], "EFI");
    assert Key(["EFI"]) == k[..1];
    KeyAppend(JoinAt(e, [], "EFI"), [namespace]);
    assert Key(JoinAt(e, [], "EFI") + [namespace]) == k;
    assert [] + ["EFI"] == ["EFI"];
    assert k[..2] == k;
  }

  lemma EntriesSpelled(e: Disk)
    requires Tree(e)
    ensures AgreeWhereAbsent(e, EntriesDir(e), ["loader", "entries"])
  {
    EntriesKey(e);
    var base, k := EntriesDir(e), Key(["loader", "entries"]);
    JoinKeepsKey(e, [], "loader");
    assert Key(["loader"]) == k[..1];
    KeyAppend(JoinAt(e, [], "loader"), ["entries"]);
    assert Key(JoinAt(e, [], "loader") + ["entries"]) == k;
    assert [] + ["loader"] == ["loader"];
    assert k[..2] == k;
  }

  /** Where there was something there still is, so that agreement carries over. */
  lemma AgreeLater(d: Disk, e: Disk, p: Path, q: Path)
    requires AgreeWhereAbsent(d, p, q) && IsScaffoldDir(p)
    requires forall k | IsScaffold(k) && k in d :: k in e
    ensures AgreeWhereAbsent(e, p, q)
  {
    forall n | 0 < n <= |p| && Key(p)[..n] !in e
      ensures p[n - 1] == q[n - 1]
    {
      var k := Key(p)[..n];
      assert |k[0]| == |p[0]|;
      assert IsScaffold(k);
    }
  }

  /** Copying leaves the scaffold as making the directories does. */
  lemma {:induction false} CopiesScaffold(host: Host, e: Disk, p: Disk, pairs: seq<Pair>, dirs: seq<Path>, n: nat)
    requires Tree(e) && SameScaffold(e, p) && HaveDests(pairs) && n <= |pairs| == |dirs|
    requires AllCan(e, CopiesOps(host, e, pairs, n))
    requires forall i | 0 <= i < |pairs| :: LeadsTo(e, pairs[i], dirs[i])
    ensures SameScaffold(Run(e, CopiesOps(host, e, pairs, n)), Made(p, dirs[..n]))
  {
    hide Run, AllCan, CopyOps, WithDirs, Tree, SameScaffold, AgreeWhereAbsent;
    if n > 0 {
      var before, pair := CopiesOps(host, e, pairs, n - 1), pairs[n - 1];
      var f, content := Run(e, before), ContentOf(host, pair.source);
      RunConcat(e, before, CopyOps(f, content, pair.dest));
      CopiesScaffold(host, e, p, pairs, dirs, n - 1);
      TreeRun(e, before);
      assert LeadsTo(e, pair, dirs[n - 1]);
      ScaffoldStays(e, p, f, dirs[..n - 1]);
      AgreeLater(e, f, Parent(pair.dest), dirs[n - 1]);
      CopyScaffold(f, Made(p, dirs[..n - 1]), content, pair.dest, dirs[n - 1]);
      assert dirs[..n] == dirs[..n - 1] + [dirs[n - 1]];
      MadeNext(p, dirs[..n - 1], dirs[n - 1]);
    } else {
      RunNone(e);
      assert dirs[..0] == [];
    }
  }

  lemma ScaffoldStays(e: Disk, p: Disk, f: Disk, dirs: seq<Path>)
    requires SameScaffold(e, p) && SameScaffold(f, Made(p, dirs))
    ensures forall k | IsScaffold(k) && k in e :: k in f
  {
    forall k | IsScaffold(k) && k in e
      ensures k in f
    {
      assert NodeAt(e, k) == NodeAt(p, k);
      MadeKeeps(p, dirs, k);
      assert NodeAt(f, k) == NodeAt(Made(p, dirs), k);
    }
  }

  lemma ConfScaffold(e: Disk, p: Disk, job: Job)
    requires Tree(e) && SameScaffold(e, p) && AllCan(e, ConfOps(e, job)) && |job.conf| == 3 && |job.conf[0]| == 6
    requires Key(Parent(job.conf)) == Key(EntriesDir(e))
    ensures SameScaffold(Run(e, ConfOps(e, job)), WithDirs(p, ["loader", "entries"]))
  {
    var dirs := if Exists(e, Key(EntriesDir(e))) then [] else MkDirs(EntriesDir(e));
    var write := Write(job.conf, job.text);
    RunConcat(e, dirs, [write]);
    RunOne(Run(e, dirs), write);
    EntriesKey(e);
    KeyParent(job.conf);
    EntriesSpelled(e);
    hide EntriesDir, Run, AllCan, MkDirs, WithDirs;
    if dirs == [] {
      RunNone(e);
      assert Exists(e, Key(EntriesDir(e)));
      EntriesThere(e, p);
      SameTransfers(Apply(e, write), e, p);
    } else {
      MkDirsRun(e, EntriesDir(e));
      assert |EntriesDir(e)[0]| == |Key(EntriesDir(e))[0]| == 6;
      SameWithDirs(e, p, EntriesDir(e), ["loader", "entries"]);
      SameTransfers(Apply(WithDirs(e, EntriesDir(e)), write), WithDirs(e, EntriesDir(e)),
                    WithDirs(p, ["loader", "entries"]));
    }
  }

  lemma EntriesThere(e: Disk, p: Disk)
    requires Tree(e) && SameScaffold(e, p) && Key(["loader", "entries"]) in e
    ensures WithDirs(p, ["loader", "entries"]) == p
  {
    var k := Key(["loader", "entries"]);
    ThereInTree(e, k);
    forall j: Path | j != [] && j <= k
      ensures j in p
    {
      assert j in e && j[0] == k[0];
      assert NodeAt(e, j) == NodeAt(p, j);
    }
    WithDirsThere(p, ["loader", "entries"]);
  }

  /** A pair that need not be copied has its directories. */
  lemma UnpickedThere(host: Host, e: Disk, p: Disk, pair: Pair, dir: Path)
    requires Tree(e) && SameScaffold(e, p) && LeadsTo(e, pair, dir) && !Differs(host, e, pair)
    ensures IsThere(p, Key(dir))
  {
    var k := Key(pair.dest);
    KeyParent(pair.dest);
    assert Placed(e, k);
    ThereInTree(e, Parent(k));
    forall j: Path | j != [] && j <= Key(dir)
      ensures j in p
    {
      assert |j[0]| == |pair.dest[0]|;
      assert NodeAt(e, j) == NodeAt(p, j);
    }
  }

  lemma JobLeads(req: Request, e: Disk, item: Item, i: nat)
    requires Tree(e) && !EffectiveSchema(req, item).Legacy? && i < |item.entry.Assets()|
    ensures LeadsTo(e, JobOf(req, e, item).changeset[i], AssetDirs(req, item)[i])
  {
    hide WantedDest, GenerateEntry, LeadsTo;
    AssetLeads(req, e, item, item.entry.Assets()[i]);
  }

  lemma {:induction false} SelectedLead(e: Disk, pairs: seq<Pair>, dirs: seq<Path>, picked: seq<bool>)
    requires |pairs| == |dirs| == |picked| && forall i | 0 <= i < |pairs| :: LeadsTo(e, pairs[i], dirs[i])
    ensures |Select(pairs, picked)| == |Select(dirs, picked)|
    ensures forall i | 0 <= i < |Select(pairs, picked)| :: LeadsTo(e, Select(pairs, picked)[i], Select(dirs, picked)[i])
  {
    hide LeadsTo;
    if pairs != [] {
      SelectedLead(e, pairs[1..], dirs[1..], picked[1..]);
    }
  }

  // ---------------------------------------------------------------- what new directories are called

  /** A directory made inside a namespace, or for the configurations, is called what `m` calls it. */
  predicate Lasts(m: Disk, op: Op) {
    op.MkDir? && op.path != [] && (|op.path| == 3 || |op.path[0]| == 6) ==>
      Key(op.path) in m && m[Key(op.path)].name == Last(op.path)
  }

  ghost predicate AllLast(m: Disk, ops: seq<Op>) {
    forall op | op in ops :: Lasts(m, op)
  }

  lemma LastLater(m: Disk, dirs: seq<Path>, ops: seq<Op>)
    requires AllLast(m, ops)
    ensures AllLast(Made(m, dirs), ops)
  {
    hide Made;
    forall op | op in ops
      ensures Lasts(Made(m, dirs), op)
    {
      assert Lasts(m, op);
      if op.MkDir? && Key(op.path) in m {
        MadeKeeps(m, dirs, Key(op.path));
      }
    }
  }

  lemma LastNext(m: Disk, dir: Path, ops: seq<Op>)
    requires AllLast(m, ops)
    ensures AllLast(WithDirs(m, dir), ops)
  {
    hide WithDirs, Lasts;
    assert [dir][..0] == [];
    assert Made(m, [dir]) == WithDirs(m, dir);
    hide Made;
    LastLater(m, [dir], ops);
  }

  /** A copy makes directories only where its own is missing. */
  lemma CopyLasts(d: Disk, e: Disk, content: Content, dest: Path, dir: Path)
    requires |dest| == 4 && |dest[0]| == 3
    requires SameScaffold(WithDirs(d, Parent(dest)), WithDirs(e, dir))
    ensures AllLast(WithDirs(e, dir), CopyOps(d, content, dest))
  {
    hide WithDirs, SameScaffold, Staging;
    forall op | op in CopyOps(d, content, dest)
      ensures Lasts(WithDirs(e, dir), op)
    {
      if op.MkDir? && op.path != [] && (|op.path| == 3 || |op.path[0]| == 6) {
        assert Key(Parent(dest)) !in d && op in MkDirs(Parent(dest));
        hide CopyOps;
        MkDirsShape(Parent(dest), op);
        assert op.path == Parent(dest);
        WithDirsAt(d, Parent(dest), Key(op.path));
        ScaffoldNode(WithDirs(d, Parent(dest)), WithDirs(e, dir), Key(op.path));
      }
    }
  }

  lemma ScaffoldNode(d: Disk, e: Disk, k: Path)
    requires SameScaffold(d, e) && IsScaffold(k)
    ensures NodeAt(d, k) == NodeAt(e, k)
  {
  }

  lemma {:induction false} CopiesLast(host: Host, e: Disk, p: Disk, pairs: seq<Pair>, dirs: seq<Path>, n: nat)
    requires Tree(e) && SameScaffold(e, p) && HaveDests(pairs) && n <= |pairs| == |dirs|
    requires AllCan(e, CopiesOps(host, e, pairs, n))
    requires forall i | 0 <= i < |pairs| :: LeadsTo(e, pairs[i], dirs[i])
    ensures AllLast(Made(p, dirs[..n]), CopiesOps(host, e, pairs, n))
  {
    hide Run, AllCan, CopyOps, WithDirs, Tree, SameScaffold, AgreeWhereAbsent, Lasts;
    if n > 0 {
      var before, pair := CopiesOps(host, e, pairs, n - 1), pairs[n - 1];
      var f, content := Run(e, before), ContentOf(host, pair.source);
      RunConcat(e, before, CopyOps(f, content, pair.dest));
      CopiesLast(host, e, p, pairs, dirs, n - 1);
      CopiesScaffold(host, e, p, pairs, dirs, n - 1);
      assert LeadsTo(e, pair, dirs[n - 1]);
      ScaffoldStays(e, p, f, dirs[..n - 1]);
      AgreeLater(e, f, Parent(pair.dest), dirs[n - 1]);
      SameWithDirs(f, Made(p, dirs[..n - 1]), Parent(pair.dest), dirs[n - 1]);
      CopyLasts(f, Made(p, dirs[..n - 1]), content, pair.dest, dirs[n - 1]);
      assert dirs[..n] == dirs[..n - 1] + [dirs[n - 1]];
      MadeNext(p, dirs[..n - 1], dirs[n - 1]);
      LastNext(Made(p, dirs[..n - 1]), dirs[n - 1], before);
    }
  }

  /** The directory of the configurations is made with the spelling it is looked for under. */
  lemma ConfLasts(e: Disk, p: Disk, job: Job)
    requires Tree(e) && SameScaffold(e, p) && AllCan(e, ConfOps(e, job))
    ensures AllLast(WithDirs(p, ["loader", "entries"]), ConfOps(e, job))
  {
    var dir := EntriesDir(e);
    EntriesKey(e);
    EntriesSpelled(e);
    assert |dir[0]| == |Key(dir)[0]| == 6;
    assert IsScaffoldDir(dir);
    SameWithDirs(e, p, dir, ["loader", "entries"]);
    EntriesOnDisk(e);
    hide EntriesDir, AllCan, WithDirs, SameScaffold, OnDisk, Lasts;
    forall op | op in MkDirs(dir)
      ensures Lasts(WithDirs(p, ["loader", "entries"]), op)
    {
      MkDirsShape(dir, op);
      OnDiskMade(e, ["loader", "entries"], op.path);
      assert |Key(op.path)[0]| == |op.path[0]| == |dir[0]|;
      ScaffoldNode(WithDirs(e, dir), WithDirs(p, ["loader", "entries"]), Key(op.path));
      LastsAs(WithDirs(p, ["loader", "entries"]), op);
    }
  }

  lemma LastsAs(m: Disk, op: Op)
    requires op.MkDir? && op.path != [] && Key(op.path) in m && m[Key(op.path)].name == Last(op.path)
    ensures Lasts(m, op)
  {
  }

  /** Making a path as the volume spells it gives each directory the spelling it is made with. */
  lemma OnDiskMade(e: Disk, p: Path, q: Path)
    requires Tree(e) && q != [] && q <= OnDisk(e, p)
    ensures var f := WithDirs(e, OnDisk(e, p)); Key(q) in f && f[Key(q)].name == Last(q)
  {
    var dir, n := OnDisk(e, p), |q|;
    KeyTake(dir, n);
    assert q == dir[..n];
    WithDirsAt(e, dir, Key(q));
    OnDiskTake(e, p, n);
    OnDiskKey(e, p[..n]);
    hide WithDirs;
    OnDiskLast(e, p[..n]);
  }

  // ---------------------------------------------------------------- an entry, and all entries

  /** The copies that are needed make all directories that the assets of the entry need. */
  lemma NeededDirs(req: Request, e: Disk, p: Disk, item: Item, picked: seq<bool>)
    requires Tree(e) && SameScaffold(e, p) && !EffectiveSchema(req, item).Legacy?
    requires Justified(req.host, e, JobOf(req, e, item).changeset, picked)
    ensures var needed, kept := Select(JobOf(req, e, item).changeset, picked), Select(AssetDirs(req, item), picked);
            && |needed| == |kept| && (forall i | 0 <= i < |needed| :: LeadsTo(e, needed[i], kept[i]))
            && Made(p, kept) == Made(p, AssetDirs(req, item))
  {
    hide Run, AllCan, CopiesOps, ConfOps, Tree, SameScaffold, LeadsTo, WithDirs, JobOf, AssetDirs, Differs,
         EffectiveSchema;
    var job, dirs := JobOf(req, e, item), AssetDirs(req, item);
    forall i | 0 <= i < |dirs|
      ensures LeadsTo(e, job.changeset[i], dirs[i])
      ensures !picked[i] ==> IsThere(p, Key(dirs[i]))
    {
      JobLeads(req, e, item, i);
      if !picked[i] {
        UnpickedThere(req.host, e, p, job.changeset[i], dirs[i]);
      }
    }
    SelectedLead(e, job.changeset, dirs, picked);
    MadeSelect(p, dirs, picked);
  }

  /** Installing an entry leaves the scaffold as making its directories does. */
  lemma InstallScaffold(req: Request, e: Disk, p: Disk, item: Item, picked: seq<bool>)
    requires Tree(e) && SameScaffold(e, p) && !EffectiveSchema(req, item).Legacy?
    requires Justified(req.host, e, JobOf(req, e, item).changeset, picked)
    requires AllCan(e, InstallOps(req.host, e, JobOf(req, e, item), picked))
    ensures SameScaffold(Run(e, InstallOps(req.host, e, JobOf(req, e, item), picked)), Made(p, ItemDirs(req, item)))
    ensures AllLast(Made(p, ItemDirs(req, item)), InstallOps(req.host, e, JobOf(req, e, item), picked))
  {
    hide Run, AllCan, CopiesOps, ConfOps, Tree, SameScaffold, LeadsTo, WithDirs, JobOf, AssetDirs, Differs,
         EffectiveSchema, Lasts;
    var job, dirs := JobOf(req, e, item), AssetDirs(req, item);
    var needed, kept := Select(job.changeset, picked), Select(dirs, picked);
    var copies := CopiesOps(req.host, e, needed, |needed|);
    RunConcat(e, copies, ConfOps(Run(e, copies), job));
    NeededDirs(req, e, p, item, picked);
    CopiesScaffold(req.host, e, p, needed, kept, |needed|);
    CopiesLast(req.host, e, p, needed, kept, |needed|);
    assert kept[..|needed|] == kept;
    var f := Run(e, copies);
    TreeRun(e, copies);
    JobConfShape(req, e, f, item);
    ConfScaffold(f, Made(p, dirs), job);
    ConfLasts(f, Made(p, dirs), job);
    LastNext(Made(p, dirs), ["loader", "entries"], copies);
    MadeNext(p, dirs, ["loader", "entries"]);
  }

  lemma JobConfShape(req: Request, e: Disk, f: Disk, item: Item)
    requires Tree(e) && Tree(f)
    ensures var conf := JobOf(req, e, item).conf;
            && |conf| == 3 && |conf[0]| == 6
            && Key(Parent(conf)) == Key(EntriesDir(f)) && Key(conf) == Key(WantedConf(req, item))
  {
    ConfPathKey(req, e, item);
    EntriesKey(f);
    hide JobOf, EntriesDir;
    var conf := JobOf(req, e, item).conf;
    assert |conf| == |Key(conf)| == 3 && |conf[0]| == |Key(conf)[0]| == 6;
    KeyParent(conf);
    KeyParent(WantedConf(req, item));
    assert Parent(WantedConf(req, item)) == ["loader", "entries"];
  }

  /** What the `n`th entry adds to what the earlier ones did. */
  lemma InstallsStep(req: Request, d: Disk, picks: seq<seq<bool>>, n: nat)
    returns (s: Stretch, item: Item, more: seq<Op>)
    requires 0 < n && PicksFit(req, picks, n) && InstallsJustified(req, d, picks, n)
    requires AllCan(d, Installs(req, d, picks, n).ops)
    ensures s == Installs(req, d, picks, n - 1) && item == req.items[n - 1] && AllCan(d, s.ops)
    ensures more == InstallOps(req.host, s.disk, JobOf(req, s.disk, item), picks[n - 1])
    ensures Installs(req, d, picks, n) == Stretch(s.ops + more, Run(s.disk, more)) && AllCan(s.disk, more)
    ensures InstallsJustified(req, d, picks, n - 1)
    ensures Justified(req.host, s.disk, JobOf(req, s.disk, item).changeset, picks[n - 1])
    ensures RequestDirs(req, n) == RequestDirs(req, n - 1) + ItemDirs(req, item)
  {
    hide Run, AllCan, JobOf, InstallOps, ItemDirs, Justified;
    s, item := Installs(req, d, picks, n - 1), req.items[n - 1];
    more := InstallOps(req.host, s.disk, JobOf(req, s.disk, item), picks[n - 1]);
    InstallsRun(req, d, picks, n - 1);
    RunConcat(d, s.ops, more);
    assert Justified(req.host, s.disk, JobAt(req, d, picks, n - 1).changeset, picks[n - 1]);
  }

  /** However much is installed, the scaffold is that of the directories made so far. */
  lemma {:induction false} InstallsScaffold(req: Request, d: Disk, picks: seq<seq<bool>>, n: nat)
    requires Tree(d) && Modern(req) && PicksFit(req, picks, n) && InstallsJustified(req, d, picks, n)
    requires AllCan(d, Installs(req, d, picks, n).ops)
    ensures SameScaffold(DiskAfter(req, d, picks, n), Made(d, RequestDirs(req, n)))
    ensures AllLast(Made(d, RequestDirs(req, n)), Installs(req, d, picks, n).ops)
  {
    hide Run, AllCan, Tree, Modern, SameScaffold, JobOf, InstallOps, ItemDirs, Made, Justified, EffectiveSchema,
         AllLast, Installing, Installs, RequestDirs, InstallsJustified;
    if n > 0 {
      var s, item, more := InstallsStep(req, d, picks, n);
      InstallsScaffold(req, d, picks, n - 1);
      InstallsInstalling(req, d, picks, n - 1);
      ModernAt(req, n - 1);
      var p := Made(d, RequestDirs(req, n - 1));
      InstallScaffold(req, s.disk, p, item, picks[n - 1]);
      LastLater(p, ItemDirs(req, item), s.ops);
      MadeConcat(d, RequestDirs(req, n - 1), ItemDirs(req, item));
      LastConcat(Made(d, RequestDirs(req, n)), s.ops, more);
    } else {
      NothingMade(req, d, picks);
    }
  }

  lemma LastConcat(m: Disk, a: seq<Op>, b: seq<Op>)
    requires AllLast(m, a) && AllLast(m, b)
    ensures AllLast(m, a + b)
  {
    hide Lasts;
  }

  lemma NothingMade(req: Request, d: Disk, picks: seq<seq<bool>>)
    requires PicksFit(req, picks, 0)
    ensures SameScaffold(DiskAfter(req, d, picks, 0), Made(d, RequestDirs(req, 0)))
    ensures AllLast(Made(d, RequestDirs(req, 0)), Installs(req, d, picks, 0).ops)
  {
  }
}
