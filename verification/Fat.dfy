/**
 The FAT volume and the primitive operations the synchroniser performs on it.

 A volume keeps the spelling a name was created with, but looks names up without regard to case: a node
 is found under its folded key and remembers its own spelling.  Paths are relative to the mount point.
 */
module Fat {
  import opened Text

  type Content = string

  datatype Node =
    | Dir(name: string)
    | File(name: string, content: Content)

  type Disk = map<Path, Node>

  predicate IsDir(d: Disk, k: Path) {
    k == [] || (k in d && d[k].Dir?)
  }

  predicate IsFile(d: Disk, k: Path) {
    k in d && d[k].File?
  }

  function NodeAt(d: Disk, k: Path): Option<Node> {
    if k in d then Some(d[k]) else None
  }

  /** What every mounted volume satisfies: parents are directories and spellings fold to their key. */
  ghost predicate Tree(d: Disk) {
    forall k {:trigger Placed(d, k)} | k in d :: Placed(d, k)
  }

  ghost predicate Placed(d: Disk, k: Path)
    requires k in d
  {
    k != [] && IsDir(d, Parent(k)) && Fold(d[k].name) == Last(k)
  }

  /** A proper prefix of a key in a tree is a directory. */
  lemma {:induction false} DirAbove(b: Disk, j: Path, r: Path)
    requires Tree(b) && r in b && j < r && j != []
    ensures j in b && b[j].Dir?
    decreases |r|
  {
    assert Placed(b, r);
    if j != Parent(r) {
      assert j < Parent(r);
      DirAbove(b, j, Parent(r));
    }
  }

  // ---------------------------------------------------------------- operations

  datatype Op =
    | MkDir(path: Path)
    | Write(path: Path, content: Content)
    | Remove(path: Path)
    | RemoveTree(path: Path, kept: set<Path>)  // `kept` is empty unless the removal is cut short
    | Rename(path: Path, to: Path)
    | Barrier

  /** Whether the file system can carry out an operation; otherwise it reports an error. */
  predicate Can(d: Disk, op: Op) {
    match op
    case MkDir(p) => p != [] && IsDir(d, Key(Parent(p))) && (Key(p) in d ==> d[Key(p)].Dir?)
    case Write(p, _) => p != [] && IsDir(d, Key(Parent(p))) && (Key(p) in d ==> d[Key(p)].File?)
    case Remove(p) => IsFile(d, Key(p))
    case RemoveTree(p, kept) =>
      && Key(p) in d && d[Key(p)].Dir?
      && forall k | k in kept && k in d && Key(p) <= k :: k == Key(p) || Parent(k) in kept
    case Rename(p, q) =>
      && IsFile(d, Key(p)) && Key(p) != Key(q)
      && q != [] && IsDir(d, Key(Parent(q))) && (Key(q) in d ==> d[Key(q)].File?)
    case Barrier => true
  }

  /** The disk after an operation.  An operation that cannot be carried out changes nothing. */
  function Apply(d: Disk, op: Op): Disk {
    if !Can(d, op) then d
    else
      match op
      case MkDir(p) => if Key(p) in d then d else d[Key(p) := Dir(Last(p))]
      case Write(p, c) => d[Key(p) := File(if Key(p) in d then d[Key(p)].name else Last(p), c)]
      case Remove(p) => d - {Key(p)}
      case RemoveTree(p, kept) => map k | k in d && (Key(p) <= k ==> k in kept) :: d[k]
      case Rename(p, q) => (d - {Key(p)})[Key(q) := File(Last(q), d[Key(p)].content)]
      case Barrier => d
  }

  function Run(d: Disk, ops: seq<Op>): Disk
    decreases |ops|
  {
    if ops == [] then d else Run(Apply(d, ops[0]), ops[1..])
  }

  /** Every operation of the list can be carried out when its turn comes. */
  predicate AllCan(d: Disk, ops: seq<Op>)
    decreases |ops|
  {
    ops == [] || (Can(d, ops[0]) && AllCan(Apply(d, ops[0]), ops[1..]))
  }

  lemma {:induction false} RunConcat(d: Disk, a: seq<Op>, b: seq<Op>)
    ensures Run(d, a + b) == Run(Run(d, a), b)
    ensures AllCan(d, a + b) <==> AllCan(d, a) && AllCan(Run(d, a), b)
    decreases |a|
  {
    if a == [] {
      assert a + b == b;
    } else {
      assert (a + b)[1..] == a[1..] + b;
      RunConcat(Apply(d, a[0]), a[1..], b);
    }
  }

  /** `RunConcat` for a log that already holds `log`. */
  lemma Chain(log: seq<Op>, d: Disk, a: seq<Op>, b: seq<Op>)
    ensures (log + a) + b == log + (a + b)
    ensures Run(d, a + b) == Run(Run(d, a), b)
    ensures AllCan(d, a + b) <==> AllCan(d, a) && AllCan(Run(d, a), b)
  {
    RunConcat(d, a, b);
  }

  lemma RunNone(d: Disk)
    ensures Run(d, []) == d && AllCan(d, [])
  {
  }

  lemma RunOne(d: Disk, op: Op)
    ensures Run(d, [op]) == Apply(d, op)
    ensures AllCan(d, [op]) <==> Can(d, op)
  {
    assert [op][1..] == [];
    assert Run(Apply(d, op), []) == Apply(d, op);
  }

  lemma RunSealed(d: Disk, op: Op)
    ensures Run(d, [op, Barrier]) == Apply(d, op)
    ensures AllCan(d, [op, Barrier]) <==> Can(d, op)
  {
    RunConcat(d, [op], [Barrier]);
    RunOne(d, op);
    RunOne(Apply(d, op), Barrier);
  }

  /** The keys an operation may change. */
  ghost predicate Touches(op: Op, k: Path) {
    match op
    case MkDir(p) => k == Key(p)
    case Write(p, _) => k == Key(p)
    case Remove(p) => k == Key(p)
    case RemoveTree(p, _) => Key(p) <= k
    case Rename(p, q) => k == Key(p) || k == Key(q)
    case Barrier => false
  }

  lemma {:induction false} RunFrame(d: Disk, ops: seq<Op>, k: Path)
    requires forall op | op in ops :: !Touches(op, k)
    ensures NodeAt(Run(d, ops), k) == NodeAt(d, k)
    decreases |ops|
  {
    if ops != [] {
      assert ops[0] in ops;
      assert NodeAt(Apply(d, ops[0]), k) == NodeAt(d, k);
      RunFrame(Apply(d, ops[0]), ops[1..], k);
    }
  }

  /** Every operation keeps the volume a tree, whether or not it can be carried out. */
  lemma TreeApply(d: Disk, op: Op)
    requires Tree(d)
    ensures Tree(Apply(d, op))
  {
    if Can(d, op) {
      var e := Apply(d, op);
      forall k | k in e
        ensures Placed(e, k)
      {
        assert k in d ==> Placed(d, k);
        match op
        case MkDir(p) => KeyParent(p);
        case Write(p, _) => KeyParent(p);
        case Remove(p) =>
        case RemoveTree(p, _) => assert Key(p) <= Parent(k) ==> Key(p) <= k;
        case Rename(p, q) => KeyParent(q);
        case Barrier =>
      }
    }
  }

  lemma {:induction false} TreeRun(d: Disk, ops: seq<Op>)
    requires Tree(d)
    ensures Tree(Run(d, ops))
    decreases |ops|
  {
    if ops != [] {
      TreeApply(d, ops[0]);
      TreeRun(Apply(d, ops[0]), ops[1..]);
    }
  }

  // ---------------------------------------------------------------- crashes

  /** What may remain of a write or of a tree removal that was cut short. */
  ghost predicate TornOf(op: Op, torn: Op) {
    || (op.Write? && torn.Write? && torn.path == op.path)
    || (op.RemoveTree? && torn.RemoveTree? && torn.path == op.path)
  }

  /**
   The disks a power cut may leave behind after the operations `ops` were issued on `d`.  An operation
   not yet followed by a barrier may be lost, kept, or torn: a torn write leaves any content, a torn tree
   removal any part of the tree.  Operations that are kept take effect in the order issued, and a rename
   or the removal of one file is atomic.
   */
  ghost predicate CrashOf(d: Disk, ops: seq<Op>, c: Disk)
    decreases |ops|
  {
    if ops == [] then c == d
    else
      || CrashOf(Apply(d, ops[0]), ops[1..], c)
      || (Barrier !in ops && CrashOf(d, ops[1..], c))
      || (Barrier !in ops && exists torn: Op :: TornOf(ops[0], torn) && CrashOf(Apply(d, torn), ops[1..], c))
  }

  lemma CrashNone(d: Disk, c: Disk)
    ensures CrashOf(d, [], c) <==> c == d
  {
  }

  /** A power cut may undo an operation that no barrier follows, and cut a write short at any content. */
  lemma WriteMayTear(d: Disk, p: Path, content: Content, part: Content)
    requires Can(d, Write(p, content))
    ensures CrashOf(d, [Write(p, content)], d)
    ensures CrashOf(d, [Write(p, content)], d[Key(p) := File(if Key(p) in d then d[Key(p)].name else Last(p), part)])
  {
    var op, torn := Write(p, content), Write(p, part);
    assert [op][1..] == [];
    assert TornOf(op, torn) && CrashOf(Apply(d, torn), [], Apply(d, torn));
    assert CrashOf(d, [], d);
  }

  /** The removal of a tree may stop with any part of it left, as long as directories above are left as well. */
  lemma TreeMayTear(d: Disk, p: Path, left: set<Path>)
    requires Key(p) in d && d[Key(p)].Dir?
    requires forall k | k in left && k in d && Key(p) <= k && k != Key(p) :: Parent(k) in left
    ensures CrashOf(d, [RemoveTree(p, {})], map k | k in d && (Key(p) <= k ==> k in left) :: d[k])
  {
    var op, torn := RemoveTree(p, {}), RemoveTree(p, left);
    assert [op][1..] == [];
    assert TornOf(op, torn) && CrashOf(Apply(d, torn), [], Apply(d, torn));
  }

  /** A barrier makes everything before it durable. */
  lemma {:induction false} CrashSplit(d: Disk, a: seq<Op>, b: seq<Op>, c: Disk)
    requires a != [] && Last(a) == Barrier
    requires CrashOf(d, a + b, c)
    ensures CrashOf(Run(d, a), b, c)
    decreases |a|
  {
    assert (a + b)[1..] == a[1..] + b;
    assert Barrier in a;
    assert Barrier in a + b;
    if |a| > 1 {
      CrashSplit(Apply(d, a[0]), a[1..], b, c);
    } else {
      assert a[1..] + b == b;
    }
  }

  /** Losing nothing is one of the outcomes. */
  lemma {:induction false} CrashOfRun(d: Disk, ops: seq<Op>)
    ensures CrashOf(d, ops, Run(d, ops))
    decreases |ops|
  {
    if ops != [] {
      CrashOfRun(Apply(d, ops[0]), ops[1..]);
    }
  }

  /** Every crash state of a tree is a tree. */
  lemma {:induction false} TreeCrash(d: Disk, ops: seq<Op>, c: Disk)
    requires Tree(d) && CrashOf(d, ops, c)
    ensures Tree(c)
    decreases |ops|
  {
    hide Tree, Apply, TornOf;
    if ops != [] {
      if CrashOf(Apply(d, ops[0]), ops[1..], c) {
        TreeApply(d, ops[0]);
        TreeCrash(Apply(d, ops[0]), ops[1..], c);
      } else if CrashOf(d, ops[1..], c) {
        TreeCrash(d, ops[1..], c);
      } else {
        var torn: Op :| TornOf(ops[0], torn) && CrashOf(Apply(d, torn), ops[1..], c);
        TreeApply(d, torn);
        TreeCrash(Apply(d, torn), ops[1..], c);
      }
    }
  }

  /** A key no operation touches reads the same in every crash state. */
  lemma {:induction false} CrashFrame(d: Disk, ops: seq<Op>, c: Disk, k: Path)
    requires CrashOf(d, ops, c)
    requires forall op | op in ops :: !Touches(op, k)
    ensures NodeAt(c, k) == NodeAt(d, k)
    decreases |ops|
  {
    if ops != [] {
      var op := ops[0];
      assert op in ops;
      assert NodeAt(Apply(d, op), k) == NodeAt(d, k);
      if CrashOf(Apply(d, op), ops[1..], c) {
        CrashFrame(Apply(d, op), ops[1..], c, k);
      } else if CrashOf(d, ops[1..], c) {
        CrashFrame(d, ops[1..], c, k);
      } else {
        var torn: Op :| TornOf(op, torn) && CrashOf(Apply(d, torn), ops[1..], c);
        assert NodeAt(Apply(d, torn), k) == NodeAt(d, k);
        CrashFrame(Apply(d, torn), ops[1..], c, k);
      }
    }
  }

  // ---------------------------------------------------------------- creating directories

  /** The operations of `create_dir_all`: make every missing directory down to `p`. */
  function MkDirs(p: Path): seq<Op> {
    if p == [] then [] else MkDirs(Parent(p)) + [MkDir(p)]
  }

  /** The disk once `p` and its ancestors are directories. */
  function WithDirs(d: Disk, p: Path): Disk {
    if p == [] then d
    else
      var e := WithDirs(d, Parent(p));
      if Key(p) in e then e else e[Key(p) := Dir(Last(p))]
  }

  lemma {:induction false} MkDirsRun(d: Disk, p: Path)
    requires AllCan(d, MkDirs(p))
    ensures Run(d, MkDirs(p)) == WithDirs(d, p)
    ensures IsDir(WithDirs(d, p), Key(p))
  {
    if p != [] {
      RunConcat(d, MkDirs(Parent(p)), [MkDir(p)]);
      MkDirsRun(d, Parent(p));
      var e := WithDirs(d, Parent(p));
      assert Run(e, [MkDir(p)]) == Apply(e, MkDir(p));
    }
  }

  /** Creating directories adds only missing prefixes, spelled as asked. */
  lemma {:induction false} WithDirsAt(d: Disk, p: Path, k: Path)
    ensures k in d ==> NodeAt(WithDirs(d, p), k) == Some(d[k])
    ensures k !in d && k != [] && k <= Key(p)
            ==> NodeAt(WithDirs(d, p), k) == Some(Dir(p[|k| - 1]))
    ensures k !in d && !(k != [] && k <= Key(p)) ==> k !in WithDirs(d, p)
  {
    if p != [] {
      WithDirsAt(d, Parent(p), k);
      KeyParent(p);
      assert Key(p) == Key(Parent(p)) + [Fold(Last(p))];
      if k <= Key(p) && k != Key(p) {
        assert k <= Key(Parent(p));
      }
      if k != [] && k <= Key(Parent(p)) {
        assert k <= Key(p);
      }
    }
  }

  lemma {:induction false} MkDirsShape(p: Path, op: Op)
    requires op in MkDirs(p)
    ensures op.MkDir? && op.path != [] && op.path <= p
  {
    if op != MkDir(p) {
      MkDirsShape(Parent(p), op);
    }
  }

  // ---------------------------------------------------------------- removals

  predicate IsRemoval(op: Op) {
    op.Remove? || op.RemoveTree?
  }

  /** Removals only take nodes away. */
  lemma {:induction false} RemovalsShrink(d: Disk, ops: seq<Op>, k: Path)
    requires forall op | op in ops :: IsRemoval(op)
    ensures k in Run(d, ops) ==> k in d && Run(d, ops)[k] == d[k]
    decreases |ops|
  {
    if ops != [] {
      assert ops[0] in ops;
      RemovalsShrink(Apply(d, ops[0]), ops[1..], k);
    }
  }
}
