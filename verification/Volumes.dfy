/** The mounted `$BOOT` volume as the program sees it, and case-insensitive joining on it. */
module Volumes {
  import opened Text
  import opened Fat

  /** The spelling of the node found under `k`, or `wanted` when there is none. */
  function NameAt(d: Disk, k: Path, wanted: string): string {
    if k in d then d[k].name else wanted
  }

  /** The result of `join_insensitive` for one component: an existing spelling wins. */
  function JoinAt(d: Disk, base: Path, name: string): Path {
    base + [NameAt(d, Key(base + [name]), name)]
  }

  /** The result of `join_insensitive` for a relative path; one with a separator is joined as it is. */
  function JoinAll(d: Disk, base: Path, names: Path): Path {
    if |names| == 1 then JoinAt(d, base, names[0]) else base + names
  }

  predicate Exists(d: Disk, k: Path) {
    k == [] || k in d
  }

  /** The names listed in the directory `k`. */
  function Children(d: Disk, k: Path): set<string> {
    set j | j in d && j != [] && Parent(j) == k :: d[j].name
  }

  class Volume {
    var disk: Disk
    /** Every operation carried out since the volume was mounted, in order. */
    ghost var ops: seq<Op>
    ghost const mounted: Disk
    /** How many operations the medium failed although the file system could carry them out. */
    ghost var faults: nat

    ghost predicate Valid()
      reads this
    {
      Tree(disk) && disk == Run(mounted, ops)
    }

    constructor (d: Disk)
      requires Tree(d)
      ensures Valid() && disk == d && ops == [] && faults == 0
    {
      disk, mounted, ops, faults := d, d, [], 0;
    }

    /** Issues one operation.  The medium may fail it, leaving it undone or torn. */
    method Try(op: Op) returns (ok: bool, ghost added: seq<Op>)
      requires Valid()
      modifies this
      ensures Valid() && ops == old(ops) + added && disk == Run(old(disk), added)
      ensures ok ==> Can(old(disk), op) && added == [op] && disk == Apply(old(disk), op)
      ensures !ok ==> added == [] || (|added| == 1 && TornOf(op, added[0]))
      ensures !Can(old(disk), op) ==> added == []
      ensures faults == old(faults) + if !ok && Can(old(disk), op) then 1 else 0
    {
      added := [];
      var medium: bool := *;
      ok := medium && Can(disk, op);
      if ok {
        added := Perform(op);
      } else if Can(disk, op) {
        faults := faults + 1;
        match op
        case Write(p, _) =>
          var part: Content := *;
          var truncated: bool := *;
          if truncated {
            added := Perform(Write(p, part));
          }
        case RemoveTree(p, _) =>
          var kept: set<Path> := *;
          if Can(disk, RemoveTree(p, kept)) {
            added := Perform(RemoveTree(p, kept));
          }
        case _ =>
      }
    }

    method Perform(op: Op) returns (ghost added: seq<Op>)
      requires Valid() && Can(disk, op)
      modifies this
      ensures added == [op] && disk == Apply(old(disk), op) == Run(old(disk), added)
      ensures Valid() && ops == old(ops) + added && faults == old(faults)
    {
      added := [op];
      TreeApply(disk, op);
      RunConcat(mounted, ops, added);
      RunOne(disk, op);
      disk := Apply(disk, op);
      ops := ops + added;
    }

    /** The entries of a directory, in whatever order the file system lists them. */
    method ReadDir(dir: Path) returns (names: seq<string>)
      requires Valid()
      ensures forall n :: n in names <==> n in Children(disk, Key(dir))
    {
      names := [];
      var todo := Children(disk, Key(dir));
      while todo != {}
        invariant forall n :: n in Children(disk, Key(dir)) <==> n in names || n in todo
        decreases todo
      {
        var n :| n in todo;
        names := names + [n];
        todo := todo - {n};
      }
    }

    /** `join_insensitive`: search the listing for a name that folds alike, else append the name. */
    method JoinInsensitive(base: Path, name: string) returns (r: Path)
      requires Valid()
      ensures r == JoinAt(disk, base, name)
    {
      var entries := ReadDir(base);
      for i := 0 to |entries|
        invariant forall j | 0 <= j < i :: Fold(entries[j]) != Fold(name)
      {
        if Fold(entries[i]) == Fold(name) {
          MatchedName(disk, base, name, entries[i]);
          return base + [entries[i]];
        }
      }
      UnmatchedName(disk, base, name);
      return base + [name];
    }
  }

  /** A listed name sits under the key it folds to. */
  lemma ListedUnderKey(d: Disk, base: Path)
    requires Tree(d)
    ensures forall n | n in Children(d, Key(base)) ::
              Key(base + [n]) in d && d[Key(base + [n])].name == n && Key(base + [n]) == Key(base) + [Fold(n)]
  {
    forall n | n in Children(d, Key(base))
      ensures Key(base + [n]) in d && d[Key(base + [n])].name == n && Key(base + [n]) == Key(base) + [Fold(n)]
    {
      var j :| j in d && j != [] && Parent(j) == Key(base) && d[j].name == n;
      assert Placed(d, j);
      assert j == Parent(j) + [Last(j)];
      KeyAppend(base, [n]);
      assert Key([n]) == [Fold(n)];
    }
  }

  lemma MatchedName(d: Disk, base: Path, name: string, listed: string)
    requires Tree(d)
    requires listed in Children(d, Key(base)) && Fold(listed) == Fold(name)
    ensures JoinAt(d, base, name) == base + [listed]
  {
    ListedUnderKey(d, base);
    KeyAppend(base, [name]);
    assert Key([name]) == [Fold(name)];
  }

  lemma UnmatchedName(d: Disk, base: Path, name: string)
    requires Tree(d)
    requires forall n | n in Children(d, Key(base)) :: Fold(n) != Fold(name)
    ensures JoinAt(d, base, name) == base + [name]
  {
    var k := Key(base + [name]);
    KeyParent(base + [name]);
    assert Parent(base + [name]) == base;
    var n := NameAt(d, k, name);
    assert k in d ==> Placed(d, k);
    assert k in d ==> n in Children(d, Key(base));
  }

  /** Joining without regard to case never changes which node is meant, only how it is spelled. */
  lemma JoinKeepsKey(d: Disk, base: Path, name: string)
    requires Tree(d)
    ensures Key(JoinAt(d, base, name)) == Key(base) + [Fold(name)]
  {
    KeyAppend(base, [name]);
    assert Key([name]) == [Fold(name)];
    var n := NameAt(d, Key(base + [name]), name);
    KeyAppend(base, [n]);
    assert Key([n]) == [Fold(n)];
    assert Last(Key(base + [name])) == Fold(name);
    assert Key(base + [name]) in d ==> Placed(d, Key(base + [name]));
  }
}
