/** `copy_atomic_vfat`: stage, remove the destination, rename into place, with a barrier after each step. */
module AtomicCopy {
  import opened Text
  import opened Fat
  import opened Volumes

  /** `dest.with_extension(".TmpWrite")`. */
  function Staging(dest: Path): Path
    requires dest != []
  {
    Parent(dest) + [Stem(Last(dest)) + "..TmpWrite"]
  }

  /** A copy is staged beside its destination; the extension of the name, if it has one, is replaced. */
  lemma StagedAs(dir: Path, stem: string, extension: string)
    requires stem != "" && '.' !in extension
    ensures Staging(dir + [stem + "." + extension]) == dir + [stem + "..TmpWrite"]
    ensures '.' !in stem[1..] ==> Staging(dir + [stem]) == dir + [stem + "..TmpWrite"]
  {
    StemAndExtension(stem, extension);
    assert Parent(dir + [stem + "." + extension]) == dir == Parent(dir + [stem]);
  }

  function StageOps(d: Disk, content: Content, dest: Path): seq<Op>
    requires dest != []
  {
    (if Exists(d, Key(Parent(dest))) then [] else MkDirs(Parent(dest)))
    + [Write(Staging(dest), content), Barrier]
  }

  function ReplaceOps(destExists: bool, dest: Path): seq<Op>
    requires dest != []
  {
    (if destExists then [Remove(dest), Barrier] else [])
    + [Rename(Staging(dest), dest), Barrier]
  }

  /** The operations of one complete copy that starts on `d`. */
  function CopyOps(d: Disk, content: Content, dest: Path): seq<Op>
    requires dest != []
  {
    StageOps(d, content, dest) + ReplaceOps(Key(dest) in d, dest)
  }

  /** The operations any attempt, complete or not, is made of. */
  predicate CopyShape(op: Op, dest: Path)
    requires dest != []
  {
    match op
    case MkDir(p) => p != [] && p <= Parent(dest)
    case Write(p, _) => p == Staging(dest)
    case Remove(p) => p == dest
    case Rename(p, q) => p == Staging(dest) && q == dest
    case RemoveTree(_, _) => false
    case Barrier => true
  }

  ghost predicate CopyShapes(ops: seq<Op>, dest: Path)
    requires dest != []
  {
    forall op | op in ops :: CopyShape(op, dest)
  }

  lemma CopyShapesConcat(a: seq<Op>, b: seq<Op>, dest: Path)
    requires dest != [] && CopyShapes(a, dest) && CopyShapes(b, dest)
    ensures CopyShapes(a + b, dest)
  {
  }

  lemma CopyOpsShape(d: Disk, content: Content, dest: Path)
    requires dest != []
    ensures CopyShapes(CopyOps(d, content, dest), dest)
  {
    forall op | op in MkDirs(Parent(dest))
      ensures CopyShape(op, dest)
    {
      MkDirsShape(Parent(dest), op);
    }
  }

  /** The staging file never is the destination itself. */
  lemma StagingDiffers(dest: Path)
    requires dest != []
    ensures Key(Staging(dest)) != Key(dest)
    ensures |Key(Staging(dest))| == |dest| && Parent(Key(Staging(dest))) == Parent(Key(dest))
  {
    KeyParent(dest);
    KeyParent(Staging(dest));
    var name, staged := Last(dest), Last(Staging(dest));
    var dot := LastIndexOf(name, '.');
    if dot > 0 && |name| == |staged| {
      assert Fold(staged)[dot + 1] == '.';
      assert Fold(name)[dot + 1] != '.';
    }
  }

  /** Names that fold alike have their last dot in the same place. */
  lemma FoldStem(a: string, b: string)
    requires Fold(a) == Fold(b)
    ensures Fold(Stem(a) + "..TmpWrite") == Fold(Stem(b) + "..TmpWrite")
  {
    assert |a| == |Fold(a)| == |b|;
    assert forall i | 0 <= i < |a| :: FoldChar(a[i]) == Fold(a)[i] == FoldChar(b[i]);
    assert LastIndexOf(a, '.') == LastIndexOf(b, '.');
  }

  /** Which file a copy is staged in depends only on the node of the destination. */
  lemma SameStaging(p: Path, w: Path)
    requires Key(p) == Key(w) && p != [] && w != []
    ensures Key(Staging(p)) == Key(Staging(w))
  {
    KeyParent(p);
    KeyParent(w);
    FoldStem(Last(p), Last(w));
    KeyAppend(Parent(p), [Last(Staging(p))]);
    KeyAppend(Parent(w), [Last(Staging(w))]);
  }

  method CreateDirAll(vol: Volume, p: Path) returns (ok: bool, ghost added: seq<Op>)
    requires vol.Valid()
    modifies vol
    ensures vol.Valid() && vol.ops == old(vol.ops) + added && old(vol.faults) <= vol.faults
              && vol.disk == Run(old(vol.disk), added)
    ensures ok ==> added == MkDirs(p) && AllCan(old(vol.disk), added)
    ensures !ok && vol.faults == old(vol.faults) ==> !AllCan(old(vol.disk), MkDirs(p))
    ensures forall op | op in added :: op.MkDir? && op.path != [] && op.path <= p
  {
    hide Run, AllCan, Can, Apply;
    RunNone(vol.disk);
    ok, added := true, [];
    if p != [] {
      ok, added := CreateDirAll(vol, Parent(p));
      RunConcat(old(vol.disk), MkDirs(Parent(p)), [MkDir(p)]);
      RunOne(Run(old(vol.disk), MkDirs(Parent(p))), MkDir(p));
      if ok {
        ghost var one;
        ghost var e := vol.disk;
        ok, one := vol.Try(MkDir(p));
        Chain(old(vol.ops), old(vol.disk), added, one);
        RunOne(e, MkDir(p));
        added := added + one;
        assert forall op | op in one :: op.MkDir? && op.path == p;
      }
    }
  }

  /** The disk once the copy is complete: only the destination, its staging file and its parents change. */
  function AfterCopy(d: Disk, content: Content, dest: Path): Disk
    requires dest != []
  {
    (WithDirs(d, Parent(dest)) - {Key(Staging(dest))})[Key(dest) := File(Last(dest), content)]
  }

  lemma {:induction false} WithDirsNoop(d: Disk, p: Path)
    requires Tree(d) && IsDir(d, Key(p))
    ensures WithDirs(d, p) == d
  {
    if p != [] {
      KeyParent(p);
      assert Placed(d, Key(p));
      WithDirsNoop(d, Parent(p));
    }
  }

  lemma StageRun(d: Disk, content: Content, dest: Path) returns (name: string)
    requires dest != [] && Tree(d) && AllCan(d, StageOps(d, content, dest))
    ensures Run(d, StageOps(d, content, dest)) == WithDirs(d, Parent(dest))[Key(Staging(dest)) := File(name, content)]
  {
    var dirs := if Exists(d, Key(Parent(dest))) then [] else MkDirs(Parent(dest));
    var write := Write(Staging(dest), content);
    RunConcat(d, dirs, [write, Barrier]);
    var w := Run(d, dirs);
    RunSealed(w, write);
    assert Parent(Staging(dest)) == Parent(dest);
    if dirs == [] {
      WithDirsNoop(d, Parent(dest));
    } else {
      MkDirsRun(d, Parent(dest));
    }
    name := if Key(Staging(dest)) in w then w[Key(Staging(dest))].name else Last(Staging(dest));
  }

  lemma CopyRun(d: Disk, content: Content, dest: Path)
    requires dest != [] && Tree(d) && AllCan(d, CopyOps(d, content, dest))
    ensures Run(d, CopyOps(d, content, dest)) == AfterCopy(d, content, dest)
  {
    hide Run, AllCan;
    RunNone(d);
    RunNone(Run(d, StageOps(d, content, dest)));
    RunConcat(d, StageOps(d, content, dest), ReplaceOps(Key(dest) in d, dest));
    var name := StageRun(d, content, dest);
    var e := Run(d, StageOps(d, content, dest));
    StagingDiffers(dest);
    var removal := if Key(dest) in d then [Remove(dest), Barrier] else [];
    RunConcat(e, removal, [Rename(Staging(dest), dest), Barrier]);
    RunSealed(e, Remove(dest));
    RunSealed(Run(e, removal), Rename(Staging(dest), dest));
  }

  /** One operation followed by `syncfs`. */
  method TrySealed(vol: Volume, op: Op) returns (ok: bool, ghost added: seq<Op>)
    requires vol.Valid()
    modifies vol
    ensures vol.Valid() && vol.ops == old(vol.ops) + added && old(vol.faults) <= vol.faults
              && vol.disk == Run(old(vol.disk), added)
    ensures ok ==> added == [op, Barrier] && AllCan(old(vol.disk), added)
    ensures !ok && vol.faults == old(vol.faults) ==> !Can(old(vol.disk), op)
    ensures forall o | o in added :: o == op || o == Barrier || TornOf(op, o)
  {
    ok, added := vol.Try(op);
    if ok {
      ghost var seal;
      ok, seal := vol.Try(Barrier);
      Chain(old(vol.ops), old(vol.disk), added, seal);
      RunSealed(old(vol.disk), op);
      added := added + seal;
    }
  }

  /** Staging cannot be carried out when one of its parts cannot. */
  lemma StageNeeds(d: Disk, content: Content, dest: Path)
    requires dest != []
    ensures var dirs := if Exists(d, Key(Parent(dest))) then [] else MkDirs(Parent(dest));
            AllCan(d, StageOps(d, content, dest)) ==>
              AllCan(d, dirs) && Can(Run(d, dirs), Write(Staging(dest), content))
  {
    var dirs := if Exists(d, Key(Parent(dest))) then [] else MkDirs(Parent(dest));
    RunConcat(d, dirs, [Write(Staging(dest), content), Barrier]);
    hide MkDirs;
  }

  lemma DirsAreCopyShapes(ops: seq<Op>, dest: Path)
    requires dest != [] && forall op | op in ops :: op.MkDir? && op.path != [] && op.path <= Parent(dest)
    ensures CopyShapes(ops, dest)
  {
  }

  /** Open the staging file, then the source, and copy. */
  method FillStaging(vol: Volume, source: Option<Content>, dest: Path) returns (ok: bool, ghost added: seq<Op>)
    requires vol.Valid() && dest != []
    modifies vol
    ensures vol.Valid() && vol.ops == old(vol.ops) + added && old(vol.faults) <= vol.faults
              && vol.disk == Run(old(vol.disk), added)
    ensures ok ==> source.Some? && added == [Write(Staging(dest), source.value), Barrier]
                   && AllCan(old(vol.disk), added)
    ensures !ok && vol.faults == old(vol.faults) && source.Some? ==>
              !Can(old(vol.disk), Write(Staging(dest), source.value))
    ensures CopyShapes(added, dest)
  {
    hide Apply, Can, Run, AllCan, Staging;
    if source.Some? {
      ok, added := TrySealed(vol, Write(Staging(dest), source.value));
    } else {
      // The staging file is opened, and truncated, before opening the source fails.
      ok, added := vol.Try(Write(Staging(dest), ""));
      ok := false;
    }
  }

  /** Bring the leading directories into being and fill the staging file. */
  method StageCopy(vol: Volume, source: Option<Content>, dest: Path) returns (ok: bool, ghost added: seq<Op>)
    requires vol.Valid() && dest != []
    modifies vol
    ensures vol.Valid() && vol.ops == old(vol.ops) + added && old(vol.faults) <= vol.faults
              && vol.disk == Run(old(vol.disk), added)
    ensures ok ==> source.Some? && added == StageOps(old(vol.disk), source.value, dest)
                   && AllCan(old(vol.disk), added)
    ensures !ok && vol.faults == old(vol.faults) && source.Some? ==>
              !AllCan(old(vol.disk), StageOps(old(vol.disk), source.value, dest))
    ensures CopyShapes(added, dest)
  {
    hide Apply, Can, Run, AllCan, MkDirs, Staging, CopyShapes;
    RunNone(vol.disk);
    if source.Some? {
      StageNeeds(vol.disk, source.value, dest);
    }
    ok, added := true, [];
    if !Exists(vol.disk, Key(Parent(dest))) {
      ok, added := CreateDirAll(vol, Parent(dest));
    }
    DirsAreCopyShapes(added, dest);
    if ok {
      ghost var fill;
      ok, fill := FillStaging(vol, source, dest);
      Chain(old(vol.ops), old(vol.disk), added, fill);
      CopyShapesConcat(added, fill, dest);
      added := added + fill;
    }
  }

  lemma ReplaceNeeds(d: Disk, destExists: bool, dest: Path)
    requires dest != []
    ensures var removal := if destExists then [Remove(dest), Barrier] else [];
            AllCan(d, ReplaceOps(destExists, dest)) ==>
              (destExists ==> Can(d, Remove(dest))) && Can(Run(d, removal), Rename(Staging(dest), dest))
  {
    var removal := if destExists then [Remove(dest), Barrier] else [];
    RunConcat(d, removal, [Rename(Staging(dest), dest), Barrier]);
    RunSealed(d, Remove(dest));
  }

  /** Take away the old destination, if there was one, and rename the staging file into its place. */
  method Replace(vol: Volume, dest: Path, destExists: bool) returns (ok: bool, ghost added: seq<Op>)
    requires vol.Valid() && dest != []
    modifies vol
    ensures vol.Valid() && vol.ops == old(vol.ops) + added && old(vol.faults) <= vol.faults
              && vol.disk == Run(old(vol.disk), added)
    ensures ok ==> added == ReplaceOps(destExists, dest) && AllCan(old(vol.disk), added)
    ensures !ok && vol.faults == old(vol.faults) ==> !AllCan(old(vol.disk), ReplaceOps(destExists, dest))
    ensures CopyShapes(added, dest)
  {
    hide Apply, Can, Run, AllCan;
    RunNone(vol.disk);
    ReplaceNeeds(vol.disk, destExists, dest);
    ok, added := true, [];
    if destExists {
      ok, added := TrySealed(vol, Remove(dest));
    }
    if ok {
      ghost var more;
      ok, more := TrySealed(vol, Rename(Staging(dest), dest));
      Chain(old(vol.ops), old(vol.disk), added, more);
      added := added + more;
    }
  }

  /** `copy_atomic_vfat`.  `source` is what opening and reading the source yields, if that succeeds. */
  method CopyAtomicVfat(vol: Volume, source: Option<Content>, dest: Path) returns (ok: bool, ghost added: seq<Op>)
    requires vol.Valid() && dest != []
    modifies vol
    ensures vol.Valid() && vol.ops == old(vol.ops) + added && old(vol.faults) <= vol.faults
              && vol.disk == Run(old(vol.disk), added)
    ensures ok ==> source.Some? && added == CopyOps(old(vol.disk), source.value, dest)
                   && AllCan(old(vol.disk), added)
                   && vol.disk == AfterCopy(old(vol.disk), source.value, dest)
    ensures !ok && vol.faults == old(vol.faults) && source.Some? ==>
              !AllCan(old(vol.disk), CopyOps(old(vol.disk), source.value, dest))
    ensures CopyShapes(added, dest)
  {
    var destExists := Key(dest) in vol.disk;
    if source.Some? {
      RunConcat(vol.disk, StageOps(vol.disk, source.value, dest), ReplaceOps(destExists, dest));
    }
    ok, added := StageCopy(vol, source, dest);
    if ok {
      ghost var more;
      ok, more := Replace(vol, dest, destExists);
      Chain(old(vol.ops), old(vol.disk), added, more);
      added := added + more;
      if ok {
        CopyRun(old(vol.disk), source.value, dest);
      }
    }
  }

  /**
   The destination is the complete old node, the complete new file, or absent; and if it was there and is
   now absent, the staging file holds the complete new content.
   */
  predicate Survives(d: Disk, c: Disk, content: Content, dest: Path)
    requires dest != []
  {
    && (|| NodeAt(c, Key(dest)) == NodeAt(d, Key(dest))
        || NodeAt(c, Key(dest)) == Some(File(Last(dest), content))
        || NodeAt(c, Key(dest)) == None)
    && (Key(dest) in d && Key(dest) !in c
        ==> IsFile(c, Key(Staging(dest))) && c[Key(Staging(dest))].content == content)
  }

  lemma TakeConcat<T>(a: seq<T>, b: seq<T>, n: nat)
    requires n <= |a| + |b|
    ensures n <= |a| ==> (a + b)[..n] == a[..n]
    ensures n >= |a| ==> (a + b)[..n] == a + b[..n - |a|]
  {
  }

  /**
   Cut the power at any point of a copy: whatever the medium kept of the operations since the last
   barrier, the copy survives in the sense above.
   */
  lemma CopyDurable(d: Disk, content: Content, dest: Path, n: nat, c: Disk)
    requires dest != [] && Tree(d) && AllCan(d, CopyOps(d, content, dest))
    requires n <= |CopyOps(d, content, dest)|
    requires CrashOf(d, CopyOps(d, content, dest)[..n], c)
    ensures Survives(d, c, content, dest)
  {
    hide AllCan, CrashOf, Survives, StageOps, ReplaceOps, Tree, Staging;
    var stage := StageOps(d, content, dest);
    TakeConcat(stage, ReplaceOps(Key(dest) in d, dest), n);
    if n < |stage| {
      StagingDurable(d, content, dest, n, c);
    } else {
      StagedDurable(d, content, dest, n - |stage|, c);
    }
  }

  lemma StagingDurable(d: Disk, content: Content, dest: Path, n: nat, c: Disk)
    requires dest != [] && n <= |StageOps(d, content, dest)|
    requires CrashOf(d, StageOps(d, content, dest)[..n], c)
    ensures Survives(d, c, content, dest)
  {
    hide CrashOf, Staging, Touches;
    var ops := StageOps(d, content, dest)[..n];
    forall op | op in ops
      ensures !Touches(op, Key(dest))
    {
      StageLeavesDestination(d, content, dest, op);
    }
    hide StageOps;
    CrashFrame(d, ops, c, Key(dest));
  }

  lemma StagedDurable(d: Disk, content: Content, dest: Path, m: nat, c: Disk)
    requires dest != [] && Tree(d) && AllCan(d, CopyOps(d, content, dest))
    requires m <= |ReplaceOps(Key(dest) in d, dest)|
    requires CrashOf(d, StageOps(d, content, dest) + ReplaceOps(Key(dest) in d, dest)[..m], c)
    ensures Survives(d, c, content, dest)
  {
    var stage := StageOps(d, content, dest);
    StagingDiffers(dest);
    RunConcat(d, stage, ReplaceOps(Key(dest) in d, dest));
    CrashSplit(d, stage, ReplaceOps(Key(dest) in d, dest)[..m], c);
    var name := StageRun(d, content, dest);
    WithDirsAt(d, Parent(dest), Key(dest));
    ReplaceDurable(d, Run(d, stage), content, dest, m, c);
  }

  lemma StageLeavesDestination(d: Disk, content: Content, dest: Path, op: Op)
    requires dest != [] && op in StageOps(d, content, dest)
    ensures !Touches(op, Key(dest))
  {
    StagingDiffers(dest);
    if op in MkDirs(Parent(dest)) {
      MkDirsShape(Parent(dest), op);
    }
  }

  lemma ReplaceDurable(d: Disk, e: Disk, content: Content, dest: Path, m: nat, c: Disk)
    requires dest != [] && Key(Staging(dest)) != Key(dest)
    requires IsFile(e, Key(Staging(dest))) && e[Key(Staging(dest))].content == content
    requires NodeAt(e, Key(dest)) == NodeAt(d, Key(dest))
    requires m <= |ReplaceOps(Key(dest) in d, dest)| && AllCan(e, ReplaceOps(Key(dest) in d, dest))
    requires CrashOf(e, ReplaceOps(Key(dest) in d, dest)[..m], c)
    ensures Survives(d, c, content, dest)
  {
    hide Run, AllCan, Staging, CrashOf;
    var rename := Rename(Staging(dest), dest);
    if Key(dest) in d {
      var replace := [Remove(dest), Barrier, rename, Barrier];
      assert ReplaceOps(Key(dest) in d, dest) == replace;
      if m <= 1 {
        assert replace[..m] == [Remove(dest)][..m];
        OneOrNone(e, Remove(dest), m, c);
      } else {
        assert replace[..m] == [Remove(dest), Barrier] + [rename, Barrier][..m - 2];
        CrashSplit(e, [Remove(dest), Barrier], [rename, Barrier][..m - 2], c);
        RunSealed(e, Remove(dest));
        RunConcat(e, [Remove(dest), Barrier], [rename, Barrier]);
        assert replace == [Remove(dest), Barrier] + [rename, Barrier];
        RunSealed(Apply(e, Remove(dest)), rename);
        RenameDurable(Apply(e, Remove(dest)), rename, m - 2, c);
      }
    } else {
      assert ReplaceOps(Key(dest) in d, dest) == [rename, Barrier];
      RunSealed(e, rename);
      RenameDurable(e, rename, m, c);
    }
  }

  lemma OneOrNone(d: Disk, op: Op, m: nat, c: Disk)
    requires m <= 1 && CrashOf(d, [op][..m], c) && !op.Write? && !op.RemoveTree?
    ensures c == d || c == Apply(d, op)
  {
    var issued := [op][..m];
    if m == 1 {
      assert issued == [op] && issued[1..] == [];
      CrashNone(Apply(d, op), c);
    }
    CrashNone(d, c);
  }

  lemma RenameDurable(d: Disk, rename: Op, m: nat, c: Disk)
    requires rename.Rename? && m <= 2 && CrashOf(d, [rename, Barrier][..m], c)
    ensures c == d || c == Apply(d, rename)
  {
    if m <= 1 {
      assert [rename, Barrier][..m] == [rename][..m];
      OneOrNone(d, rename, m, c);
    } else {
      assert [rename, Barrier][..m] == [rename, Barrier] + [];
      CrashSplit(d, [rename, Barrier], [], c);
      RunSealed(d, rename);
    }
  }
}
