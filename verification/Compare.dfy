/** Content hashing and `changed_files`: which of a set of files differ from their destinations. */
module Compare {
  import opened Text
  import opened Fat

  /** Hashing is taken to be injective: a digest is what was hashed. */
  datatype Hash = Blake3(content: Content)

  /** The file system the sources are read from; it does not change during a run. */
  datatype Host = Host(
    files: map<Path, Content>,          // what reading a file yields
    listing: map<Path, seq<string>>,    // what listing a directory yields, in order
    nullLinks: set<Path>                // symbolic links to /dev/null
  )

  function HostNode(host: Host, p: Path): Option<Node> {
    if p in host.files then Some(File("", host.files[p]))
    else if p in host.listing then Some(Dir(""))
    else None
  }

  /** `base.join(p)`: an absolute path replaces the base. */
  function JoinPath(base: Path, p: Path): Path {
    if p != [] && p[0] == "/" then p else base + p
  }

  predicate SameContent(a: Option<Node>, b: Option<Node>) {
    a.Some? && b.Some? && a.value.File? && b.value.File? && a.value.content == b.value.content
  }

  datatype Pair = Pair(source: Path, dest: Path)

  /** The accumulating state of a `blake3::Hasher`. */
  class Hasher {
    var fed: Content
    /** Read errors met so far; a file that is missing or is a directory is not one. */
    ghost var errors: nat

    constructor ()
      ensures fed == [] && errors == 0
    {
      fed, errors := [], 0;
    }

    /** Feeds a file.  A read error may leave part of the file in the state. */
    method Update(content: Content) returns (ok: bool)
      modifies this
      ensures ok ==> fed == old(fed) + content && errors == old(errors)
      ensures !ok ==> old(fed) <= fed && errors == old(errors) + 1
    {
      ok := *;
      if ok {
        fed := fed + content;
      } else {
        var part: Content := *;
        fed := fed + part;
        errors := errors + 1;
      }
    }

    function Finalize(): (h: Hash)
      reads this
    {
      Blake3(fed)
    }

    method Reset()
      modifies this
      ensures fed == [] && errors == old(errors)
    {
      fed := [];
    }

    /**
     `files_identical`.  A positive answer is right even when an earlier read error left stale bytes in
     the hasher: the sizes are equal, so a stale prefix could only make the digests differ.
     */
    method FilesIdentical(a: Option<Node>, b: Option<Node>) returns (r: Result<bool, ()>)
      modifies this
      ensures r == Ok(true) ==> SameContent(a, b)
      ensures old(errors) <= errors
      ensures old(fed) == [] && errors == old(errors)
              ==> fed == [] && (r == Ok(true) <==> SameContent(a, b))
    {
      var readable: bool := *;
      if a.None? || b.None? {
        return Err(());
      }
      if !readable {
        errors := errors + 1;
        return Err(());
      }
      if a.value.Dir? || b.value.Dir? {
        // The types differ, or reading a directory fails.
        var sizesDiffer: bool := *;
        return if a.value.Dir? != b.value.Dir? || sizesDiffer then Ok(false) else Err(());
      }
      if |a.value.content| != |b.value.content| {
        return Ok(false);
      }
      ghost var stale := fed;
      var ok := Update(a.value.content);
      if !ok {
        return Err(());
      }
      var first := Finalize();
      Reset();
      ok := Update(b.value.content);
      if !ok {
        return Err(());
      }
      var second := Finalize();
      Reset();
      assert first == Blake3(stale + a.value.content) && second == Blake3([] + b.value.content);
      assert [] + b.value.content == b.value.content;
      assert first == second ==> |stale| == 0;
      assert stale == [] ==> stale + a.value.content == a.value.content;
      r := Ok(first == second);
    }
  }

  /** The elements at the picked positions, in order. */
  function Select<T>(items: seq<T>, picked: seq<bool>): (r: seq<T>)
    requires |picked| == |items|
    ensures forall x | x in r :: x in items
  {
    if items == [] then []
    else (if picked[0] then [items[0]] else []) + Select(items[1..], picked[1..])
  }

  lemma {:induction false} NonePicked<T>(items: seq<T>, picked: seq<bool>)
    requires |picked| == |items| && forall i | 0 <= i < |items| :: !picked[i]
    ensures Select(items, picked) == []
  {
    if items != [] {
      NonePicked(items[1..], picked[1..]);
    }
  }

  lemma {:induction false} SelectSnoc<T>(items: seq<T>, picked: seq<bool>, item: T, pick: bool)
    requires |picked| == |items|
    ensures Select(items + [item], picked + [pick]) == Select(items, picked) + if pick then [item] else []
  {
    if items != [] {
      assert (items + [item])[1..] == items[1..] + [item];
      assert (picked + [pick])[1..] == picked[1..] + [pick];
      SelectSnoc(items[1..], picked[1..], item, pick);
    }
  }

  lemma {:induction false} SelectHas<T>(items: seq<T>, picked: seq<bool>, i: nat)
    requires |picked| == |items| && i < |items| && picked[i]
    ensures items[i] in Select(items, picked)
  {
    if i > 0 {
      SelectHas(items[1..], picked[1..], i - 1);
    }
  }

  predicate Differs(host: Host, disk: Disk, pair: Pair) {
    !SameContent(HostNode(host, pair.source), NodeAt(disk, Key(pair.dest)))
  }

  /**
   `changed_files`.  No pair that differs is ever left out, whatever read errors occur; without read
   errors the result is exactly the pairs that differ, in order.
   */
  method ChangedFiles(host: Host, disk: Disk, files: seq<Pair>)
    returns (changed: seq<Pair>, ghost picked: seq<bool>, ghost clean: bool)
    ensures forall file | file in files && Differs(host, disk, file) :: file in changed
    ensures |picked| == |files| && changed == Select(files, picked)
    ensures forall i | 0 <= i < |files| && Differs(host, disk, files[i]) :: picked[i]
    ensures clean ==> forall i | 0 <= i < |files| :: picked[i] == Differs(host, disk, files[i])
  {
    var hasher := new Hasher();
    changed, picked := [], [];
    for i := 0 to |files|
      invariant |picked| == i && changed == Select(files[..i], picked)
      invariant forall j | 0 <= j < i && Differs(host, disk, files[j]) :: picked[j]
      invariant hasher.errors == 0 ==>
                  hasher.fed == [] && forall j | 0 <= j < i :: picked[j] == Differs(host, disk, files[j])
    {
      var file := files[i];
      var same := hasher.FilesIdentical(HostNode(host, file.source), NodeAt(disk, Key(file.dest)));
      SelectSnoc(files[..i], picked, file, same != Ok(true));
      assert files[..i] + [file] == files[..i + 1];
      if same != Ok(true) {
        changed := changed + [file];
      }
      picked := picked + [same != Ok(true)];
    }
    assert files[..|files|] == files;
    clean := hasher.errors == 0;
    forall file | file in files && Differs(host, disk, file)
      ensures file in changed
    {
      var i :| 0 <= i < |files| && files[i] == file;
      SelectHas(files, picked, i);
    }
  }
}
